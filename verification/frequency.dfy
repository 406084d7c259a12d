/**
 * `frequency_text` (parse.py:100-115): groups the maximal runs of `pos()`
 * items whose chunk label is `FREQUENCY` into space-joined strings.
 */
module FrequencyText {
  import opened Text
  import opened ChunkTree

  const FREQUENCY := "FREQUENCY"

  predicate IsFrequency(item: PosItem) {
    item.parent == FREQUENCY
  }

  /** The words of the `FREQUENCY` items, in input order. */
  function FrequencyWords(items: seq<PosItem>): seq<string>
  {
    if |items| == 0 then []
    else
      var last := items[|items| - 1];
      FrequencyWords(items[..|items| - 1]) + (if IsFrequency(last) then [last.word] else [])
  }

  /** Number of maximal runs of consecutive `FREQUENCY` items. */
  function RunCount(items: seq<PosItem>): nat
  {
    if |items| == 0 then 0
    else
      var n := |items|;
      var starts := IsFrequency(items[n - 1]) && (n == 1 || !IsFrequency(items[n - 2]));
      RunCount(items[..n - 1]) + (if starts then 1 else 0)
  }

  /** All chains, concatenated in order. */
  function Concat(chains: seq<seq<string>>): seq<string>
  {
    if |chains| == 0 then [] else Concat(chains[..|chains| - 1]) + chains[|chains| - 1]
  }

  /** Number of non-empty chains. */
  function NonEmptyCount(chains: seq<seq<string>>): nat
  {
    if |chains| == 0 then 0
    else NonEmptyCount(chains[..|chains| - 1]) + (if |chains[|chains| - 1]| > 0 then 1 else 0)
  }

  /** One step of the loop at parse.py:109-114. */
  function Step(chains: seq<seq<string>>, item: PosItem): seq<seq<string>>
    requires |chains| > 0
  {
    var last := chains[|chains| - 1];
    if IsFrequency(item) then chains[..|chains| - 1] + [last + [item.word]]
    else if |last| > 0 then chains + [[]]
    else chains
  }

  /**
   * A step keeps every chain but the last non-empty, leaves the last one
   * non-empty exactly after a `FREQUENCY` item, and adds that item's word
   * (and nothing else) to the concatenated chains.
   */
  lemma StepFacts(chains: seq<seq<string>>, item: PosItem)
    requires |chains| > 0 && forall k :: 0 <= k < |chains| - 1 ==> |chains[k]| > 0
    ensures |Step(chains, item)| > 0
    ensures forall k :: 0 <= k < |Step(chains, item)| - 1 ==> |Step(chains, item)[k]| > 0
    ensures |Step(chains, item)[|Step(chains, item)| - 1]| > 0 <==> IsFrequency(item)
    ensures Concat(Step(chains, item)) == Concat(chains) + (if IsFrequency(item) then [item.word] else [])
  {
    var front, last := chains[..|chains| - 1], chains[|chains| - 1];
    assert chains == front + [last];
    assert Concat(chains) == Concat(front) + last;
    var r := Step(chains, item);
    if IsFrequency(item) {
      assert r[..|r| - 1] == front;
      assert Concat(r) == Concat(front) + (last + [item.word]);
      assert Concat(front) + (last + [item.word]) == (Concat(front) + last) + [item.word];
    } else if |last| > 0 {
      assert r[..|r| - 1] == chains;
      assert Concat(r) == Concat(chains) + [];
    }
  }

  /**
   * `all_chains` after the loop: never empty, every chain but the last
   * non-empty, the last one non-empty exactly when the last item is a
   * `FREQUENCY` item, and all chains together are the `FREQUENCY` words.
   */
  function Chains(items: seq<PosItem>): (r: seq<seq<string>>)
    ensures |r| > 0
    ensures forall k :: 0 <= k < |r| - 1 ==> |r[k]| > 0
    ensures |r[|r| - 1]| > 0 <==> |items| > 0 && IsFrequency(items[|items| - 1])
    ensures Concat(r) == FrequencyWords(items)
  {
    if |items| == 0 then [[]]
    else
      var p := Chains(items[..|items| - 1]);
      StepFacts(p, items[|items| - 1]);
      Step(p, items[|items| - 1])
  }

  /** Every maximal run of `FREQUENCY` items becomes exactly one non-empty chain. */
  lemma {:induction false} ChainsCountRuns(items: seq<PosItem>)
    ensures NonEmptyCount(Chains(items)) == RunCount(items)
  {
    if |items| > 0 {
      var prefix := items[..|items| - 1];
      var p := Chains(prefix);
      var r := Chains(items);
      ChainsCountRuns(prefix);
      var n := |items|;
      if n > 1 {
        assert prefix[|prefix| - 1] == items[n - 2];
      }
      if IsFrequency(items[n - 1]) {
        assert r[..|r| - 1] == p[..|p| - 1];
        assert NonEmptyCount(p) == NonEmptyCount(p[..|p| - 1]) + (if |p[|p| - 1]| > 0 then 1 else 0);
      } else if |p[|p| - 1]| > 0 {
        assert r[..|r| - 1] == p;
      }
    }
  }

  /** `frequency_text`: each chain joined by single spaces. */
  function FrequencyText(items: seq<PosItem>): (r: seq<string>)
    ensures |r| > 0
    ensures items == [] ==> r == [""]
    ensures |r| == |Chains(items)|
    ensures forall k :: 0 <= k < |r| ==> r[k] == JoinSpace(Chains(items)[k])
  {
    var chains := Chains(items);
    seq(|chains|, k requires 0 <= k < |chains| => JoinSpace(chains[k]))
  }

  /** Each item extends the chains built for the items before it by one `Step`. */
  lemma ChainsStep(items: seq<PosItem>, i: nat)
    requires i < |items|
    ensures Chains(items[..i + 1]) == Step(Chains(items[..i]), items[i])
  {
    assert items[..i + 1][..i] == items[..i];
  }

  /** The loop of parse.py:108-114: `all_chains` built item by item. */
  method BuildChains(items: seq<PosItem>) returns (chains: seq<seq<string>>)
    ensures chains == Chains(items)
  {
    chains := [[]];
    for i := 0 to |items|
      invariant chains == Chains(items[..i])
    {
      ChainsStep(items, i);
      var last := chains[|chains| - 1];
      if items[i].parent == FREQUENCY {
        chains := chains[..|chains| - 1] + [last + [items[i].word]];
      } else if |last| > 0 {
        chains := chains + [[]];
      }
    }
    assert items[..|items|] == items;
  }

  /** The list comprehension of parse.py:115: every chain joined by single spaces. */
  method JoinChains(chains: seq<seq<string>>) returns (texts: seq<string>)
    ensures |texts| == |chains|
    ensures forall j :: 0 <= j < |texts| ==> texts[j] == JoinSpace(chains[j])
  {
    texts := [];
    for k := 0 to |chains|
      invariant |texts| == k
      invariant forall j :: 0 <= j < k ==> texts[j] == JoinSpace(chains[j])
    {
      texts := texts + [JoinSpace(chains[k])];
    }
  }

  /** `frequency_text`, step by step: the chains, then each joined (parse.py:108-115). */
  method FrequencyTextLoop(items: seq<PosItem>) returns (texts: seq<string>)
    ensures texts == FrequencyText(items)
  {
    var chains := BuildChains(items);
    texts := JoinChains(chains);
  }
}
