/**
 * The chunk tree NLTK's `RegexpParser` returns (parse.py:180-189) and the
 * three operations the extractor uses on it: `pos()`, `subtrees()` and
 * `flatten_regimen` (parse.py:163-164).
 */
module ChunkTree {
  import opened Text

  /** A leaf is a tagged word `(word, tag)`; a node is a chunk with its label. */
  datatype Tree = Leaf(word: string, tag: string) | Node(node: string, children: seq<Tree>)

  /** One element of `Tree.pos()`: a leaf's `(word, tag)` and the label of the node directly above it. */
  datatype PosItem = PosItem(word: string, tag: string, parent: string)

  /** The words of the leaves under `t`, left to right, at any depth. */
  function Leaves(t: Tree): seq<string>
    decreases t, 1
  {
    match t
    case Leaf(w, _) => [w]
    case Node(_, cs) => LeavesOf(cs)
  }

  function LeavesOf(cs: seq<Tree>): seq<string>
    decreases cs, 0
  {
    if |cs| == 0 then [] else Leaves(cs[0]) + LeavesOf(cs[1..])
  }

  /** `pos()` of a node labelled `parent` with children `cs`. */
  function PosOf(parent: string, cs: seq<Tree>): seq<PosItem>
    decreases cs
  {
    if |cs| == 0 then []
    else
      var head := match cs[0]
        case Leaf(w, g) => [PosItem(w, g, parent)]
        case Node(l, gs) => PosOf(l, gs);
      head + PosOf(parent, cs[1..])
  }

  /** `Tree.pos()`, defined for chunks (a bare token has no `pos()`). */
  function Pos(t: Tree): seq<PosItem>
    requires t.Node?
  {
    PosOf(t.node, t.children)
  }

  function Words(items: seq<PosItem>): (r: seq<string>)
    ensures |r| == |items|
    ensures forall k :: 0 <= k < |r| ==> r[k] == items[k].word
  {
    if |items| == 0 then [] else [items[0].word] + Words(items[1..])
  }

  /** `flatten_regimen`: the words of `pos()` joined by single spaces. */
  function Flatten(t: Tree): string
    requires t.Node?
  {
    JoinSpace(Words(Pos(t)))
  }

  /** `subtrees()`: every chunk under `t` in pre-order, `t` itself first. */
  function Subtrees(t: Tree): seq<Tree>
    decreases t, 1
  {
    match t
    case Leaf(_, _) => []
    case Node(_, cs) => [t] + SubtreesOf(cs)
  }

  function SubtreesOf(cs: seq<Tree>): seq<Tree>
    decreases cs, 0
  {
    if |cs| == 0 then [] else Subtrees(cs[0]) + SubtreesOf(cs[1..])
  }

  /** Number of chunks labelled `l` at or below `t`, counted directly on the tree. */
  function CountLabel(t: Tree, l: string): nat
    decreases t, 1
  {
    match t
    case Leaf(_, _) => 0
    case Node(m, cs) => (if m == l then 1 else 0) + CountLabelOf(cs, l)
  }

  function CountLabelOf(cs: seq<Tree>, l: string): nat
    decreases cs, 0
  {
    if |cs| == 0 then 0 else CountLabel(cs[0], l) + CountLabelOf(cs[1..], l)
  }

  /** The chunks of `ts` labelled `l`, in order. */
  function Labelled(ts: seq<Tree>, l: string): (r: seq<Tree>)
    ensures |r| <= |ts|
    ensures forall k :: 0 <= k < |r| ==> r[k] in ts && r[k].Node? && r[k].node == l
  {
    if |ts| == 0 then []
    else (if ts[0].Node? && ts[0].node == l then [ts[0]] else []) + Labelled(ts[1..], l)
  }

  lemma {:induction false} LabelledAppend(a: seq<Tree>, b: seq<Tree>, l: string)
    ensures Labelled(a + b, l) == Labelled(a, l) + Labelled(b, l)
  {
    if |a| == 0 {
      assert a + b == b;
    } else {
      assert (a + b)[1..] == a[1..] + b;
      LabelledAppend(a[1..], b, l);
    }
  }

  /** `subtrees()` visits exactly the chunks of each label that the tree holds. */
  lemma {:induction false} SubtreesCountLabel(t: Tree, l: string)
    ensures |Labelled(Subtrees(t), l)| == CountLabel(t, l)
    decreases t, 1
  {
    match t
    case Leaf(_, _) =>
    case Node(m, cs) =>
      LabelledAppend([t], SubtreesOf(cs), l);
      SubtreesOfCountLabel(cs, l);
  }

  lemma {:induction false} SubtreesOfCountLabel(cs: seq<Tree>, l: string)
    ensures |Labelled(SubtreesOf(cs), l)| == CountLabelOf(cs, l)
    decreases cs, 0
  {
    if |cs| > 0 {
      LabelledAppend(Subtrees(cs[0]), SubtreesOf(cs[1..]), l);
      SubtreesCountLabel(cs[0], l);
      SubtreesOfCountLabel(cs[1..], l);
    }
  }

  /** `subtrees()` starts at the root and yields chunks only, never bare tokens. */
  lemma {:induction false} SubtreesAreChunks(t: Tree)
    ensures t.Node? ==> |Subtrees(t)| > 0 && Subtrees(t)[0] == t
    ensures forall k :: 0 <= k < |Subtrees(t)| ==> Subtrees(t)[k].Node?
    decreases t, 1
  {
    match t
    case Leaf(_, _) =>
    case Node(_, cs) => SubtreesOfAreChunks(cs);
  }

  lemma {:induction false} SubtreesOfAreChunks(cs: seq<Tree>)
    ensures forall k :: 0 <= k < |SubtreesOf(cs)| ==> SubtreesOf(cs)[k].Node?
    decreases cs, 0
  {
    if |cs| > 0 {
      SubtreesAreChunks(cs[0]);
      SubtreesOfAreChunks(cs[1..]);
    }
  }

  lemma {:induction false} WordsAppend(a: seq<PosItem>, b: seq<PosItem>)
    ensures Words(a + b) == Words(a) + Words(b)
  {
  }

  /** The words of `pos()` are the tree's leaves, left to right, whatever the nesting. */
  lemma {:induction false} PosWordsAreLeaves(t: Tree)
    requires t.Node?
    ensures Words(Pos(t)) == Leaves(t)
  {
    PosOfWords(t.node, t.children);
  }

  lemma {:induction false} PosOfWords(parent: string, cs: seq<Tree>)
    ensures Words(PosOf(parent, cs)) == LeavesOf(cs)
    decreases cs
  {
    if |cs| > 0 {
      var head := match cs[0]
        case Leaf(w, g) => [PosItem(w, g, parent)]
        case Node(l, gs) => PosOf(l, gs);
      WordsAppend(head, PosOf(parent, cs[1..]));
      match cs[0] {
        case Leaf(w, g) =>
        case Node(l, gs) => PosOfWords(l, gs);
      }
      PosOfWords(parent, cs[1..]);
    }
  }

  /** `flatten_regimen` is the leaves joined by single spaces. */
  lemma FlattenIsJoinedLeaves(t: Tree)
    requires t.Node?
    ensures Flatten(t) == JoinSpace(Leaves(t))
  {
    PosWordsAreLeaves(t);
  }

  /**
   * Re-splitting a flattening on spaces gives back the leaf words, provided
   * the chunk has a leaf and no word contains a space (which holds for the
   * output of a word tokenizer).
   */
  lemma FlattenRoundTrip(t: Tree)
    requires t.Node? && |Leaves(t)| > 0
    requires forall k :: 0 <= k < |Leaves(t)| ==> ' ' !in Leaves(t)[k]
    ensures Split(Flatten(t), ' ') == Leaves(t)
  {
    FlattenIsJoinedLeaves(t);
    SplitJoin(' ', Leaves(t));
  }

  /** The text a child contributes: its word, or its flattening. */
  function ChildText(c: Tree): string
  {
    match c
    case Leaf(w, _) => w
    case Node(_, _) => Flatten(c)
  }

  /**
   * A chunk whose children each hold a leaf flattens to its children's texts
   * joined by single spaces.
   */
  lemma {:induction false} FlattenChildren(l: string, cs: seq<Tree>)
    requires |cs| > 0
    requires forall k :: 0 <= k < |cs| ==> |Leaves(cs[k])| > 0
    ensures Flatten(Node(l, cs)) == JoinSpace(seq(|cs|, k requires 0 <= k < |cs| => ChildText(cs[k])))
  {
    FlattenIsJoinedLeaves(Node(l, cs));
    JoinLeavesOf(cs);
  }

  lemma {:induction false} JoinLeavesOf(cs: seq<Tree>)
    requires |cs| > 0
    requires forall k :: 0 <= k < |cs| ==> |Leaves(cs[k])| > 0
    ensures JoinSpace(LeavesOf(cs)) == JoinSpace(seq(|cs|, k requires 0 <= k < |cs| => ChildText(cs[k])))
  {
    var texts := seq(|cs|, k requires 0 <= k < |cs| => ChildText(cs[k]));
    assert texts[0] == JoinSpace(Leaves(cs[0])) by {
      match cs[0]
      case Leaf(w, _) =>
      case Node(_, _) => FlattenIsJoinedLeaves(cs[0]);
    }
    if |cs| == 1 {
      assert LeavesOf(cs) == Leaves(cs[0]);
    } else {
      JoinLeavesOf(cs[1..]);
      assert texts[1..] == seq(|cs[1..]|, k requires 0 <= k < |cs[1..]| => ChildText(cs[1..][k]));
      LeavesOfNonEmpty(cs[1..]);
      JoinAppend(' ', Leaves(cs[0]), LeavesOf(cs[1..]));
    }
  }

  lemma {:induction false} LeavesOfNonEmpty(cs: seq<Tree>)
    requires |cs| > 0 && |Leaves(cs[0])| > 0
    ensures |LeavesOf(cs)| > 0
  {
  }
}
