/** What `anything_useful` and the per-sentence loop promise, stated over the model in `Extractor`. */
module ExtractorProperties {
  import opened Wrappers
  import opened Text
  import opened ChunkTree
  import opened Extractor
  import opened Seqs

  /** The records of kind `k`, in order. */
  function OfKind(rs: seq<Record>, k: Kind): (r: seq<Record>)
    ensures forall i :: 0 <= i < |r| ==> r[i].kind == k
  {
    if |rs| == 0 then []
    else (if rs[0].kind == k then [rs[0]] else []) + OfKind(rs[1..], k)
  }

  lemma {:induction false} OfKindAll(rs: seq<Record>, k: Kind)
    requires forall i :: 0 <= i < |rs| ==> rs[i].kind == k
    ensures OfKind(rs, k) == rs
  {
    if |rs| > 0 {
      OfKindAll(rs[1..], k);
    }
  }

  lemma {:induction false} OfKindNone(rs: seq<Record>, k: Kind)
    requires forall i :: 0 <= i < |rs| ==> rs[i].kind != k
    ensures OfKind(rs, k) == []
  {
    if |rs| > 0 {
      OfKindNone(rs[1..], k);
    }
  }

  /**
   * A `HISTORY` section prints, for every child, exactly the medication
   * lines a `CLASSIFICATION` section prints for it, and nothing else.
   */
  lemma HistoryIsClassificationMedication(item: Tree)
    ensures HistoryRecords(item) == OfKind(ClassificationRecords(item), Medication)
    ensures forall i :: 0 <= i < |HistoryRecords(item)| ==> HistoryRecords(item)[i].kind == Medication
  {
    match item
    case Leaf(_, _) =>
    case Node(l, _) =>
      var c := ClassificationRecords(item);
      if l == PRESCRIPTION || l == REGIMEN || l == PRESCRIPTIONLIST {
        OfKindAll(c, Medication);
      } else {
        OfKindNone(c, Medication);
      }
  }

  /**
   * A section whose name holds both keys runs both branches, so each
   * medication chunk is printed twice, first by the `CLASSIFICATION`
   * branch and then by the `HISTORY` branch.
   */
  lemma BothKeysPrintMedicationTwice(name: string, item: Tree)
    requires Contains(name, CLASSIFICATION) && Contains(name, HISTORY)
    requires item.Node? && item.node in {PRESCRIPTION, REGIMEN, PRESCRIPTIONLIST}
    ensures Records(name, item) == HistoryRecords(item) + HistoryRecords(item)
    ensures |HistoryRecords(item)| > 0 ==> |Records(name, item)| == 2 * |HistoryRecords(item)|
  {
  }

  /** A `HISTORY`-only section never prints frequency, semiology, comorbidity or zone lines. */
  lemma HistoryOnlyPrintsMedication(name: string, item: Tree)
    requires !Contains(name, CLASSIFICATION)
    ensures forall i :: 0 <= i < |AnythingUseful(name, item)| ==>
      StartsWith(AnythingUseful(name, item)[i], "Medication: ")
  {
    var r := AnythingUseful(name, item);
    forall i | 0 <= i < |r|
      ensures StartsWith(r[i], "Medication: ")
    {
      var rec := Records(name, item)[i];
      assert rec.kind == Medication;
      assert r[i] == Render(rec);
      assert r[i][..|"Medication: "|] == "Medication: ";
    }
  }

  /**
   * A `PRESCRIPTIONLIST` prints one medication line per `PRESCRIPTION` chunk
   * inside it (at any depth), each the flattening of that chunk.
   */
  lemma PrescriptionListRecords(item: Tree)
    requires item.Node? && item.node == PRESCRIPTIONLIST
    ensures |ClassificationRecords(item)| == CountLabel(item, PRESCRIPTION)
    ensures forall i :: 0 <= i < |ClassificationRecords(item)| ==>
      exists s :: s in Subtrees(item) && s.Node? && s.node == PRESCRIPTION
        && ClassificationRecords(item)[i] == Record(Medication, Flatten(s))
  {
    SubtreesCountLabel(item, PRESCRIPTION);
    var r := ClassificationRecords(item);
    var ps := Labelled(Subtrees(item), PRESCRIPTION);
    forall i | 0 <= i < |r|
      ensures exists s ::
                s in Subtrees(item) && s.Node? && s.node == PRESCRIPTION && r[i] == Record(Medication, Flatten(s))
    {
      assert ps[i] in Subtrees(item);
    }
  }

  /**
   * A `SEMIOLOGY` chunk prints one semiology line per `SEMITEM` chunk inside
   * it (at any depth), each the flattening of that chunk.
   */
  lemma SemiologyRecords(item: Tree)
    requires item.Node? && item.node == SEMIOLOGY
    ensures |ClassificationRecords(item)| == CountLabel(item, SEMITEM)
    ensures forall i :: 0 <= i < |ClassificationRecords(item)| ==>
      exists s :: s in Subtrees(item) && s.Node? && s.node == SEMITEM
        && ClassificationRecords(item)[i] == Record(Semiology, Flatten(s))
  {
    SubtreesCountLabel(item, SEMITEM);
    var r := ClassificationRecords(item);
    var ps := Labelled(Subtrees(item), SEMITEM);
    forall i | 0 <= i < |r|
      ensures exists s ::
                s in Subtrees(item) && s.Node? && s.node == SEMITEM && r[i] == Record(Semiology, Flatten(s))
    {
      assert ps[i] in Subtrees(item);
    }
  }

  /**
   * A `COMORBIDITY` chunk prints one line per comma-separated piece of its
   * flattening, empty pieces included: one more line than there are commas,
   * each piece stripped, and the pieces joined back with commas give the
   * flattening up to whitespace at the piece ends.
   */
  lemma ComorbidityRecords(item: Tree)
    requires item.Node? && item.node == COMORBIDITY
    ensures |ClassificationRecords(item)| == Count(Flatten(item), ',') + 1
    ensures forall i :: 0 <= i < |ClassificationRecords(item)| ==>
      ClassificationRecords(item)[i] == Record(Comorbidity, Strip(Split(Flatten(item), ',')[i]))
  {
  }

  /**
   * A comma at the very start of a `COMORBIDITY` chunk's text is not
   * skipped: the empty piece before it becomes an empty comorbidity record.
   */
  lemma LeadingCommaGivesEmptyRecord(item: Tree)
    requires item.Node? && item.node == COMORBIDITY
    requires |Flatten(item)| > 0 && Flatten(item)[0] == ','
    ensures |ClassificationRecords(item)| >= 2
    ensures ClassificationRecords(item)[0] == Record(Comorbidity, "")
  {
  }

  /**
   * What one sentence prints: lines that read back as records, none at all
   * when the section name holds neither key, and only medication lines when
   * it does not hold `CLASSIFICATION`.
   */
  lemma SentenceLinesFacts(name: string, sentence: Tree)
    ensures forall i :: 0 <= i < |SentenceLines(name, sentence)| ==> ParseLine(SentenceLines(name, sentence)[i]).Some?
    ensures !Contains(name, CLASSIFICATION) && !Contains(name, HISTORY) ==> SentenceLines(name, sentence) == []
    ensures !Contains(name, CLASSIFICATION) ==>
      forall i :: 0 <= i < |SentenceLines(name, sentence)| ==> StartsWith(SentenceLines(name, sentence)[i], "Medication: ")
  {
    if sentence.Node? {
      var f, cs := ChildPrinter(name), sentence.children;
      ConcatMapAll(f, cs, line => ParseLine(line).Some?);
      if !Contains(name, CLASSIFICATION) {
        forall i | 0 <= i < |cs|
          ensures forall j :: 0 <= j < |f(cs[i])| ==> StartsWith(f(cs[i])[j], "Medication: ")
        {
          HistoryOnlyPrintsMedication(name, cs[i]);
        }
        ConcatMapAll(f, cs, line => StartsWith(line, "Medication: "));
        if !Contains(name, HISTORY) {
          ConcatMapEmpty(f, cs);
        }
      }
    }
  }
}
