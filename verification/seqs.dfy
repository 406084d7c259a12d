/** Concatenating what a function prints for each item of a sequence, and filtering. */
module Seqs {

  /** `f` applied to every item, the results concatenated in order. */
  function ConcatMap<T, U>(f: T -> seq<U>, xs: seq<T>): seq<U>
  {
    if |xs| == 0 then [] else ConcatMap(f, xs[..|xs| - 1]) + f(xs[|xs| - 1])
  }

  /** The items `keep` accepts, in order. */
  function Filter<T>(keep: T -> bool, xs: seq<T>): (r: seq<T>)
    ensures |r| <= |xs|
    ensures forall i :: 0 <= i < |r| ==> keep(r[i]) && r[i] in xs
    ensures forall i :: 0 <= i < |xs| && keep(xs[i]) ==> xs[i] in r
  {
    if |xs| == 0 then []
    else
      var front := Filter(keep, xs[..|xs| - 1]);
      var last := xs[|xs| - 1];
      assert forall x :: x in xs[..|xs| - 1] ==> x in xs;
      assert forall i :: 0 <= i < |xs| - 1 ==> xs[i] == xs[..|xs| - 1][i];
      front + (if keep(last) then [last] else [])
  }

  /** Concatenation distributes over appending the inputs. */
  lemma {:induction false} ConcatMapAppend<T, U>(f: T -> seq<U>, a: seq<T>, b: seq<T>)
    ensures ConcatMap(f, a + b) == ConcatMap(f, a) + ConcatMap(f, b)
    decreases |b|
  {
    if |b| == 0 {
      assert a + b == a;
    } else {
      var b' := b[..|b| - 1];
      assert (a + b)[..|a + b| - 1] == a + b';
      assert (a + b)[|a + b| - 1] == b[|b| - 1];
      ConcatMapAppend(f, a, b');
    }
  }

  /** Every element of the output comes from some item's part and satisfies what all parts satisfy. */
  lemma {:induction false} ConcatMapAll<T, U>(f: T -> seq<U>, xs: seq<T>, p: U -> bool)
    requires forall i, j :: 0 <= i < |xs| && 0 <= j < |f(xs[i])| ==> p(f(xs[i])[j])
    ensures forall k :: 0 <= k < |ConcatMap(f, xs)| ==> p(ConcatMap(f, xs)[k])
  {
    if |xs| > 0 {
      var front := xs[..|xs| - 1];
      var last := f(xs[|xs| - 1]);
      assert forall i :: 0 <= i < |front| ==> front[i] == xs[i];
      ConcatMapAll(f, front, p);
      var r := ConcatMap(f, front);
      forall k | 0 <= k < |r| + |last|
        ensures p((r + last)[k])
      {
        if k >= |r| {
          assert (r + last)[k] == last[k - |r|];
        }
      }
    }
  }

  /** Items whose part is empty can be filtered out without changing the output. */
  lemma {:induction false} ConcatMapFilter<T, U>(f: T -> seq<U>, keep: T -> bool, xs: seq<T>)
    requires forall i :: 0 <= i < |xs| && !keep(xs[i]) ==> f(xs[i]) == []
    ensures ConcatMap(f, Filter(keep, xs)) == ConcatMap(f, xs)
  {
    if |xs| > 0 {
      var front := xs[..|xs| - 1];
      var last := xs[|xs| - 1];
      assert forall i :: 0 <= i < |front| ==> front[i] == xs[i];
      ConcatMapFilter(f, keep, front);
      if keep(last) {
        ConcatMapAppend(f, Filter(keep, front), [last]);
        assert [last][..0] == [];
      } else {
        assert Filter(keep, xs) == Filter(keep, front) + [];
        assert Filter(keep, front) + [] == Filter(keep, front);
        assert ConcatMap(f, xs) == ConcatMap(f, front) + [];
      }
    }
  }

  /** When every item's part is empty, so is the output. */
  lemma {:induction false} ConcatMapEmpty<T, U>(f: T -> seq<U>, xs: seq<T>)
    requires forall i :: 0 <= i < |xs| ==> f(xs[i]) == []
    ensures ConcatMap(f, xs) == []
  {
    if |xs| > 0 {
      var front := xs[..|xs| - 1];
      assert forall i :: 0 <= i < |front| ==> front[i] == xs[i];
      ConcatMapEmpty(f, front);
    }
  }

  /** Functions that agree on every item concatenate alike. */
  lemma {:induction false} ConcatMapSame<T, U>(f: T -> seq<U>, g: T -> seq<U>, xs: seq<T>)
    requires forall x :: x in xs ==> f(x) == g(x)
    ensures ConcatMap(f, xs) == ConcatMap(g, xs)
    decreases |xs|
  {
    if |xs| > 0 {
      assert forall x :: x in xs[..|xs| - 1] ==> x in xs;
      ConcatMapSame(f, g, xs[..|xs| - 1]);
    }
  }
}
