/**
 * String helpers with the semantics of the Python 2 built-ins the extractor
 * calls: `str.strip()`, `unicode.lower()` (ASCII part), `sep.join(words)`,
 * `s.split(sep)` with an explicit one-character separator, and a literal
 * `re.search(sub, s)`.
 */
module Text {

  /** The characters `strip()` removes: C `isspace` whitespace. */
  predicate IsSpace(c: char) {
    c == ' ' || c == '\t' || c == '\n' || c == '\r' || c == '\U{B}' || c == '\U{C}'
  }

  predicate IsUpper(c: char) {
    'A' <= c <= 'Z'
  }

  /** The ASCII case mapping: a capital becomes its own small letter, 32 code points on. */
  function LowerChar(c: char): (r: char)
    ensures !IsUpper(r)
    ensures IsUpper(c) ==> r as int == c as int + 32
    ensures !IsUpper(c) ==> r == c
  {
    if IsUpper(c) then (c as int + 32) as char else c
  }

  /** `s.lower()`, restricted to the ASCII case mapping. */
  function Lower(s: string): (r: string)
    ensures |r| == |s|
    ensures forall i :: 0 <= i < |r| ==> !IsUpper(r[i])
    ensures forall i :: 0 <= i < |s| && IsUpper(s[i]) ==> r[i] as int == s[i] as int + 32
    ensures forall i :: 0 <= i < |s| && !IsUpper(s[i]) ==> r[i] == s[i]
  {
    seq(|s|, i requires 0 <= i < |s| => LowerChar(s[i]))
  }

  predicate HasUpper(s: string) {
    exists i :: 0 <= i < |s| && IsUpper(s[i])
  }

  /** A string with an upper-case letter is never the lower-case form of anything. */
  lemma LowerNeverHasUpper(s: string, e: string)
    requires HasUpper(e)
    ensures Lower(s) != e
  {
    var i :| 0 <= i < |e| && IsUpper(e[i]);
    if |Lower(s)| == |e| {
      assert Lower(s)[i] != e[i];
    }
  }

  /** `a` and `b` differ at most in the case of ASCII letters. */
  predicate CaseVariants(a: string, b: string) {
    && |a| == |b|
    && forall i :: 0 <= i < |a| ==>
         || a[i] == b[i]
         || (IsUpper(a[i]) && b[i] as int == a[i] as int + 32)
         || (IsUpper(b[i]) && a[i] as int == b[i] as int + 32)
  }

  /** Strings that differ only in the case of their letters lower-case alike. */
  lemma CaseVariantsLowerAlike(a: string, b: string)
    requires CaseVariants(a, b)
    ensures Lower(a) == Lower(b)
  {
    forall i | 0 <= i < |a|
      ensures Lower(a)[i] == Lower(b)[i]
    {
      if IsUpper(a[i]) && !IsUpper(b[i]) {
        assert b[i] as int == a[i] as int + 32;
      } else if IsUpper(b[i]) && !IsUpper(a[i]) {
        assert a[i] as int == b[i] as int + 32;
      }
    }
  }

  /** How many whitespace characters `strip` removes from the front of `s`. */
  function LeadingSpace(s: string): (n: nat)
    ensures n <= |s|
    ensures forall k :: 0 <= k < n ==> IsSpace(s[k])
    ensures n == |s| || !IsSpace(s[n])
  {
    if |s| > 0 && IsSpace(s[0]) then
      var n := 1 + LeadingSpace(s[1..]);
      assert forall k :: 1 <= k < n ==> s[k] == s[1..][k - 1];
      n
    else 0
  }

  /**
   * Where `strip` cuts the back of `s`: moving down from `e` over whitespace,
   * but not below `from`.
   */
  function TrailingCut(s: string, from: nat, e: nat): (r: nat)
    requires from <= e <= |s|
    requires forall k :: e <= k < |s| ==> IsSpace(s[k])
    ensures from <= r <= e
    ensures forall k :: r <= k < |s| ==> IsSpace(s[k])
    ensures r == from || !IsSpace(s[r - 1])
  {
    if e > from && IsSpace(s[e - 1]) then TrailingCut(s, from, e - 1) else e
  }

  /**
   * `s.strip()`: the infix of `s` that starts after the leading whitespace
   * and is followed by nothing but whitespace, with no whitespace at either
   * of its own ends.
   */
  function Strip(s: string): (r: string)
    ensures r == [] || (!IsSpace(r[0]) && !IsSpace(r[|r| - 1]))
    ensures OccursAt(s, r, LeadingSpace(s))
    ensures forall k :: 0 <= k < LeadingSpace(s) ==> IsSpace(s[k])
    ensures forall k :: LeadingSpace(s) + |r| <= k < |s| ==> IsSpace(s[k])
  {
    var i := LeadingSpace(s);
    s[i..TrailingCut(s, i, |s|)]
  }

  /** Stripping a stripped string changes nothing. */
  lemma StripIdempotent(s: string)
    ensures Strip(Strip(s)) == Strip(s)
  {
    var t := Strip(s);
    assert LeadingSpace(t) == 0;
    assert TrailingCut(t, 0, |t|) == |t|;
    assert t[0..|t|] == t;
  }


  /** Number of occurrences of `c` in `s`. */
  function Count(s: string, c: char): nat
  {
    if |s| == 0 then 0 else (if s[0] == c then 1 else 0) + Count(s[1..], c)
  }

  /** `[c].join(ws)`: the words with one `c` between neighbours. */
  function Join(c: char, ws: seq<string>): string
  {
    if |ws| == 0 then ""
    else if |ws| == 1 then ws[0]
    else ws[0] + [c] + Join(c, ws[1..])
  }

  /** `" ".join(ws)`. */
  function JoinSpace(ws: seq<string>): string
  {
    Join(' ', ws)
  }

  /**
   * `s.split(c)` for a one-character separator: every occurrence splits, so
   * empty pieces are kept and there is always one more piece than separators.
   */
  function Split(s: string, c: char): (r: seq<string>)
    ensures |r| == Count(s, c) + 1
    ensures forall k :: 0 <= k < |r| ==> c !in r[k]
    ensures Join(c, r) == s
  {
    if |s| == 0 then [""]
    else if s[0] == c then [""] + Split(s[1..], c)
    else
      var rest := Split(s[1..], c);
      [[s[0]] + rest[0]] + rest[1..]
  }

  /** Joining two non-empty word lists puts one separator between the halves. */
  lemma {:induction false} JoinAppend(c: char, a: seq<string>, b: seq<string>)
    requires |a| > 0 && |b| > 0
    ensures Join(c, a + b) == Join(c, a) + [c] + Join(c, b)
  {
    if |a| == 1 {
      assert (a + b)[1..] == b;
    } else {
      assert (a + b)[1..] == a[1..] + b;
      JoinAppend(c, a[1..], b);
    }
  }

  /** The separator occurs in a join only between words or inside one. */
  lemma {:induction false} JoinCount(c: char, ws: seq<string>)
    requires |ws| > 0
    requires forall k :: 0 <= k < |ws| ==> c !in ws[k]
    ensures Count(Join(c, ws), c) == |ws| - 1
  {
    if |ws| == 1 {
      NoOccurrence(ws[0], c);
    } else {
      NoOccurrence(ws[0], c);
      CountAppend(ws[0] + [c], Join(c, ws[1..]), c);
      CountAppend(ws[0], [c], c);
      JoinCount(c, ws[1..]);
    }
  }

  lemma {:induction false} NoOccurrence(s: string, c: char)
    requires c !in s
    ensures Count(s, c) == 0
  {
    if |s| > 0 {
      NoOccurrence(s[1..], c);
    }
  }

  lemma {:induction false} CountAppend(a: string, b: string, c: char)
    ensures Count(a + b, c) == Count(a, c) + Count(b, c)
  {
    if |a| == 0 {
      assert a + b == b;
    } else {
      assert (a + b)[1..] == a[1..] + b;
      CountAppend(a[1..], b, c);
    }
  }

  /**
   * Splitting a join gives the words back, provided there is at least one
   * word and no word contains the separator.
   */
  lemma {:induction false} SplitJoin(c: char, ws: seq<string>)
    requires |ws| > 0
    requires forall k :: 0 <= k < |ws| ==> c !in ws[k]
    ensures Split(Join(c, ws), c) == ws
  {
    if |ws| == 1 {
      SplitWord(ws[0], c, []);
    } else {
      var rest := Join(c, ws[1..]);
      SplitJoin(c, ws[1..]);
      assert Join(c, ws) == ws[0] + ([c] + rest);
      SplitWord(ws[0], c, [c] + rest);
      assert ([c] + rest)[0] == c && ([c] + rest)[1..] == rest;
      var pieces := Split([c] + rest, c);
      assert pieces == [""] + ws[1..];
      assert pieces[0] == "" && pieces[1..] == ws[1..];
      assert ws[0] + pieces[0] == ws[0];
      assert [ws[0]] + ws[1..] == ws;
    }
  }

  /** A separator-free word in front of `t` merges into `t`'s first piece. */
  lemma {:induction false} SplitWord(w: string, c: char, t: string)
    requires c !in w
    ensures Split(w + t, c) == [w + Split(t, c)[0]] + Split(t, c)[1..]
  {
    if |w| > 0 {
      var u, st := w + t, Split(t, c);
      assert u[1..] == w[1..] + t;
      assert u[0] == w[0] && w[0] in w;
      SplitWord(w[1..], c, t);
      var rest := Split(u[1..], c);
      assert rest == [w[1..] + st[0]] + st[1..];
      assert Split(u, c) == [[u[0]] + rest[0]] + rest[1..];
      assert rest[1..] == st[1..];
      assert [w[0]] + (w[1..] + st[0]) == w + st[0];
    } else {
      assert w + t == t;
      assert w + Split(t, c)[0] == Split(t, c)[0];
      assert Split(t, c) == [Split(t, c)[0]] + Split(t, c)[1..];
    }
  }

  predicate StartsWith(s: string, p: string) {
    |p| <= |s| && s[..|p|] == p
  }

  /** `sub` occurs in `s` starting at index `i`. */
  predicate OccursAt(s: string, sub: string, i: int) {
    0 <= i <= |s| - |sub| && s[i..i + |sub|] == sub
  }

  /** `re.search(sub, s) != None` for a pattern made of plain letters. */
  predicate Contains(s: string, sub: string) {
    exists i | 0 <= i <= |s| - |sub| :: OccursAt(s, sub, i)
  }

  /** A string that lacks one of the characters of `sub` does not contain `sub`. */
  lemma MissingCharNotContained(s: string, sub: string, j: nat)
    requires j < |sub| && sub[j] !in s
    ensures !Contains(s, sub)
  {
    forall i | 0 <= i <= |s| - |sub|
      ensures !OccursAt(s, sub, i)
    {
      assert s[i + j] in s;
      assert s[i..i + |sub|][j] == s[i + j];
    }
  }
}
