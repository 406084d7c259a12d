/**
 * Worked examples of `anything_useful` on chunks of the shapes the chunk
 * grammar (parse.py:65-99) produces, one per kind of record.
 */
module ExtractorScenarios {
  import opened Text
  import opened ChunkTree
  import opened Extractor

  /** A chunk of three leaves flattens to its three words with single spaces. */
  lemma {:induction false} ThreeLeafFlatten(t: Tree, a: string, b: string, c: string)
    requires t.Node? && |t.children| == 3
    requires t.children[0].Leaf? && t.children[0].word == a
    requires t.children[1].Leaf? && t.children[1].word == b
    requires t.children[2].Leaf? && t.children[2].word == c
    ensures Flatten(t) == a + " " + b + " " + c
  {
    var cs := t.children;
    FlattenIsJoinedLeaves(t);
    assert cs[1..][1..] == [cs[2]] && [cs[2]][1..] == [];
    assert LeavesOf([cs[2]]) == Leaves(cs[2]) + LeavesOf([]) == [c];
    assert LeavesOf(cs[1..]) == Leaves(cs[1..][0]) + LeavesOf([cs[2]]) == [b, c];
    assert Leaves(t) == LeavesOf(cs) == Leaves(cs[0]) + LeavesOf(cs[1..]) == [a, b, c];
    assert [a, b, c][1..] == [b, c] && [b, c][1..] == [c];
    assert Join(' ', [b, c]) == b + [' '] + Join(' ', [c]) == b + [' '] + c;
    assert JoinSpace([a, b, c]) == a + [' '] + Join(' ', [b, c]);
  }

  /** `CLASSIFICATION` holds one key and not the other. */
  lemma ClassificationKeyOnly(name: string)
    requires name == "CLASSIFICATION"
    ensures Contains(name, CLASSIFICATION) && !Contains(name, HISTORY)
  {
    assert OccursAt(name, CLASSIFICATION, 0);
    MissingCharNotContained(name, HISTORY, 0);
  }

  /** A prescription chunk gives one medication record of its words. */
  lemma PrescriptionScenario(name: string, item: Tree)
    requires name == "CLASSIFICATION"
    requires item.Node? && item.node == PRESCRIPTION && |item.children| == 3
    requires item.children[0] == Leaf("100mg", "DOSAGE") && item.children[1] == Leaf("Topamax", "DRUG")
    requires item.children[2] == Leaf("BID", "FRB")
    ensures Records(name, item) == [Record(Medication, "100mg Topamax BID")]
  {
    ClassificationKeyOnly(name);
    ThreeLeafFlatten(item, "100mg", "Topamax", "BID");
    assert "100mg" + " " + "Topamax" + " " + "BID" == "100mg Topamax BID";
  }

  /** An `FRBP` chunk gives a seizure-frequency record. */
  lemma FrequencyPhraseScenario(name: string, item: Tree)
    requires name == "CLASSIFICATION"
    requires item.Node? && item.node == FRBP && |item.children| == 3
    requires item.children[0] == Leaf("Daily", "FRB") && item.children[1] == Leaf("while", "IN")
    requires item.children[2] == Leaf("hospitalized", "JJ")
    ensures Records(name, item) == [Record(SeizureFrequency, "Daily while hospitalized")]
  {
    ClassificationKeyOnly(name);
    ThreeLeafFlatten(item, "Daily", "while", "hospitalized");
    assert "Daily" + " " + "while" + " " + "hospitalized" == "Daily while hospitalized";
  }

  /**
   * A section name with neither key prints nothing, and neither does one
   * that writes a key in lower case: the keys are case-sensitive.
   */
  lemma UnkeyedScenario(name: string, item: Tree)
    requires name == "SUMMARY" || name == "Classification of episodes"
    ensures AnythingUseful(name, item) == []
  {
    MissingCharNotContained(name, CLASSIFICATION, 1);
    MissingCharNotContained(name, HISTORY, 0);
  }
}
