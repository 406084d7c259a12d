/**
 * `anything_useful` (parse.py:117-161): what the extractor prints for one
 * top-level child of a sentence's chunk tree, decided by the section name
 * and the chunk label. Printing is modelled as returning records, each
 * rendered as one `"<kind>: <value>"` line.
 */
module Extractor {
  import opened Wrappers
  import opened Text
  import opened ChunkTree
  import opened Seqs

  // Chunk labels the extractor dispatches on.
  const FREQUENCY := "FREQUENCY"
  const FRBP := "FRBP"
  const PRESCRIPTION := "PRESCRIPTION"
  const PRESCRIPTIONLIST := "PRESCRIPTIONLIST"
  const REGIMEN := "REGIMEN"
  const SEMIOLOGY := "SEMIOLOGY"
  const SEMITEM := "SEMITEM"
  const COMORBIDITY := "COMORBIDITY"
  const EPILEPTOGENIC := "EPILEPTOGENIC"

  // The two section-name keys.
  const CLASSIFICATION := "CLASSIFICATION"
  const HISTORY := "HISTORY"

  datatype Kind = SeizureFrequency | Medication | Semiology | Comorbidity | EpileptogenicZone

  datatype Record = Record(kind: Kind, value: string)

  /** The text printed in front of each kind's value. */
  function KindLabel(k: Kind): string
  {
    match k
    case SeizureFrequency => "Seizure Frequency"
    case Medication => "Medication"
    case Semiology => "Epileptic Semiology"
    case Comorbidity => "Comorbidity"
    case EpileptogenicZone => "Epileptogenic Zone"
  }

  function Prefix(k: Kind): string
  {
    KindLabel(k) + ": "
  }

  /** The line `print` writes for a record (without its newline). */
  function Render(r: Record): string
  {
    Prefix(r.kind) + r.value
  }

  const Kinds: seq<Kind> := [SeizureFrequency, Medication, Semiology, Comorbidity, EpileptogenicZone]

  /** Reads a printed line back: the kind whose prefix the line starts with. */
  function ParseLine(line: string): (r: Option<Record>)
    ensures r.Some? ==> StartsWith(line, Prefix(r.value.kind))
  {
    ParseFrom(line, 0)
  }

  function ParseFrom(line: string, i: nat): (r: Option<Record>)
    requires i <= |Kinds|
    ensures r.Some? ==> StartsWith(line, Prefix(r.value.kind))
    decreases |Kinds| - i
  {
    if i == |Kinds| then None
    else if StartsWith(line, Prefix(Kinds[i])) then
      Some(Record(Kinds[i], line[|Prefix(Kinds[i])|..]))
    else ParseFrom(line, i + 1)
  }

  /** No kind's prefix is a prefix of another kind's line. */
  lemma PrefixesDistinct(k: Kind, j: Kind, v: string)
    requires k != j
    ensures !StartsWith(Prefix(k) + v, Prefix(j))
  {
    var line := Prefix(k) + v;
    // The prefixes differ at their first letter, or, for the two
    // "Epilept..." labels, at their eighth.
    var d := if Prefix(k)[0] != Prefix(j)[0] then 0 else 7;
    assert Prefix(k)[d] != Prefix(j)[d];
    assert line[d] == Prefix(k)[d];
  }

  /** A printed line reads back as the record that produced it. */
  lemma {:induction false} ParseRender(r: Record)
    ensures ParseLine(Render(r)) == Some(r)
  {
    var line := Render(r);
    assert line[..|Prefix(r.kind)|] == Prefix(r.kind);
    assert line[|Prefix(r.kind)|..] == r.value;
    forall j | j != r.kind
      ensures !StartsWith(line, Prefix(j))
    {
      PrefixesDistinct(r.kind, j, r.value);
    }
  }

  /** A line that reads back as a record is exactly that record's rendering. */
  lemma RenderParse(line: string)
    requires ParseLine(line).Some?
    ensures Render(ParseLine(line).value) == line
  {
    var r := ParseLine(line).value;
    assert line == line[..|Prefix(r.kind)|] + line[|Prefix(r.kind)|..];
    RenderParseFrom(line, 0);
  }

  lemma {:induction false} RenderParseFrom(line: string, i: nat)
    requires i <= |Kinds|
    requires ParseFrom(line, i).Some?
    ensures ParseFrom(line, i).value.value == line[|Prefix(ParseFrom(line, i).value.kind)|..]
    decreases |Kinds| - i
  {
    if !StartsWith(line, Prefix(Kinds[i])) {
      RenderParseFrom(line, i + 1);
    }
  }

  /** One record per chunk of `ts` labelled `l`, valued by its flattening. */
  function LabelledRecords(ts: seq<Tree>, l: string, k: Kind): (r: seq<Record>)
    ensures |r| == |Labelled(ts, l)|
    ensures forall i :: 0 <= i < |r| ==> r[i] == Record(k, Flatten(Labelled(ts, l)[i]))
  {
    if |ts| == 0 then []
    else if ts[0].Node? && ts[0].node == l then [Record(k, Flatten(ts[0]))] + LabelledRecords(ts[1..], l, k)
    else LabelledRecords(ts[1..], l, k)
  }

  /** The comorbidity records: the text split at every comma, each piece stripped. */
  function CommaRecords(text: string): (r: seq<Record>)
    ensures |r| == Count(text, ',') + 1
    ensures forall i :: 0 <= i < |r| ==> r[i].kind == Comorbidity
    ensures forall i :: 0 <= i < |r| ==> ',' !in r[i].value
    ensures forall i :: 0 <= i < |r| ==>
      r[i].value == [] || (!IsSpace(r[i].value[0]) && !IsSpace(r[i].value[|r[i].value| - 1]))
  {
    var pieces := Split(text, ',');
    seq(|pieces|, i requires 0 <= i < |pieces| => Record(Comorbidity, StripPiece(pieces[i])))
  }

  /** `Strip` of a comma-free piece stays comma-free. */
  function StripPiece(p: string): (r: string)
    requires ',' !in p
    ensures ',' !in r
    ensures r == Strip(p)
  {
    var r := Strip(p);
    assert forall c :: c in r ==> c in p;
    r
  }

  /** The medication records both section keys produce (parse.py:130-137, 154-161). */
  function MedicationRecords(item: Tree): seq<Record>
  {
    match item
    case Leaf(_, _) => []
    case Node(l, _) =>
      if l == PRESCRIPTION || l == REGIMEN then [Record(Medication, Flatten(item))]
      else if l == PRESCRIPTIONLIST then LabelledRecords(Subtrees(item), PRESCRIPTION, Medication)
      else []
  }

  /** What a `CLASSIFICATION` section prints for one child (parse.py:125-147). */
  function ClassificationRecords(item: Tree): seq<Record>
  {
    match item
    case Leaf(_, _) => []
    case Node(l, _) =>
      if l == FREQUENCY || l == FRBP then [Record(SeizureFrequency, Flatten(item))]
      else if l == PRESCRIPTION then [Record(Medication, Flatten(item))]
      else if l == PRESCRIPTIONLIST then LabelledRecords(Subtrees(item), PRESCRIPTION, Medication)
      else if l == REGIMEN then [Record(Medication, Flatten(item))]
      else if l == SEMIOLOGY then LabelledRecords(Subtrees(item), SEMITEM, Semiology)
      else if l == COMORBIDITY then CommaRecords(Flatten(item))
      else if l == EPILEPTOGENIC then [Record(EpileptogenicZone, Flatten(item))]
      else []
  }

  /** What a `HISTORY` section prints for one child (parse.py:151-161). */
  function HistoryRecords(item: Tree): seq<Record>
  {
    match item
    case Leaf(_, _) => []
    case Node(l, _) =>
      if l == REGIMEN then [Record(Medication, Flatten(item))]
      else if l == PRESCRIPTION then [Record(Medication, Flatten(item))]
      else if l == PRESCRIPTIONLIST then LabelledRecords(Subtrees(item), PRESCRIPTION, Medication)
      else []
  }

  /** The labels some section key reacts to. */
  predicate Handled(l: string) {
    l in {FREQUENCY, FRBP, PRESCRIPTION, PRESCRIPTIONLIST, REGIMEN, SEMIOLOGY, COMORBIDITY, EPILEPTOGENIC}
  }

  /**
   * `anything_useful` as records: the `CLASSIFICATION` branch, then,
   * independently, the `HISTORY` branch. Both keys are case-sensitive
   * substring tests on the section name.
   */
  function Records(name: string, item: Tree): (r: seq<Record>)
    ensures !Contains(name, CLASSIFICATION) && !Contains(name, HISTORY) ==> r == []
    ensures item.Leaf? ==> r == []
    ensures item.Node? && !Handled(item.node) ==> r == []
    ensures !Contains(name, CLASSIFICATION) ==> forall i :: 0 <= i < |r| ==> r[i].kind == Medication
  {
    (if Contains(name, CLASSIFICATION) then ClassificationRecords(item) else [])
    + (if Contains(name, HISTORY) then HistoryRecords(item) else [])
  }

  /** `anything_useful`: the printed lines, in print order. */
  function AnythingUseful(name: string, item: Tree): (r: seq<string>)
    ensures |r| == |Records(name, item)|
    ensures forall i :: 0 <= i < |r| ==> ParseLine(r[i]) == Some(Records(name, item)[i])
  {
    var recs := Records(name, item);
    forall i | 0 <= i < |recs|
      ensures ParseLine(Render(recs[i])) == Some(recs[i])
    {
      ParseRender(recs[i]);
    }
    seq(|recs|, i requires 0 <= i < |recs| => Render(recs[i]))
  }

  /** `anything_useful` for a fixed section name, as a function of the child. */
  function ChildPrinter(name: string): Tree -> seq<string>
  {
    item => AnythingUseful(name, item)
  }

  /** The loop at parse.py:186-189: every top-level child of a sentence's tree, in order. */
  function SentenceLines(name: string, sentence: Tree): seq<string>
  {
    match sentence
    case Leaf(_, _) => []
    case Node(_, cs) => ConcatMap(ChildPrinter(name), cs)
  }
}
