/**
 * The word tagger of the clinical-note extractor (parse.py:11-63, 168-173):
 * an ordered table of anchored regular expressions (first match wins), then
 * a drug-vocabulary lookup of the lower-cased word among the stripped lines
 * of the drug file (the lines are not lower-cased), then a statistical tagger
 * that always answers. The statistical tagger is not modelled; it is a total
 * function passed in by the caller.
 */
module Tagger {
  import opened Wrappers
  import opened Text

  // The tags the table and the vocabulary assign.
  const NUM := "NUM"
  const UNITS := "UNITS"
  const DOSAGE := "DOSAGE"
  const VBB := "VBB"
  const FLB := "FLB"
  const FRB := "FRB"
  const PER := "PER"
  const SEMLB := "SEMLB"
  const JJ := "JJ"
  const SEMEV := "SEMEV"
  const BODP := "BODP"
  const COMLB := "COMLB"
  const HEADER := "HEADER"
  const EPZLB := "EPZLB"
  const DRUG := "DRUG"

  /**
   * What `$` sees: in Python's `re`, `$` matches at the end of the word or
   * just before a single final newline, so `^X$` accepts `w` exactly when
   * `X` accepts `Anchor(w)` (no pattern of the table accepts a newline).
   */
  function Anchor(w: string): (r: string)
    ensures |w| > 0 && w[|w| - 1] == '\n' ==> w == r + "\n"
    ensures !(|w| > 0 && w[|w| - 1] == '\n') ==> r == w
  {
    if |w| > 0 && w[|w| - 1] == '\n' then w[..|w| - 1] else w
  }

  /**
   * What `^X$` accepts under `re.match`, stated without `Anchor`: the word
   * itself, or the word less one final newline, is accepted by `X`.
   */
  ghost predicate DollarMatch(accepts: string -> bool, w: string) {
    accepts(w) || exists v :: w == v + "\n" && accepts(v)
  }

  /**
   * For a pattern that never accepts a newline (true of every row of the
   * table), testing `Anchor(w)` is exactly Python's `$`.
   */
  lemma AnchorIsDollar(accepts: string -> bool, w: string)
    requires forall v :: accepts(v) ==> '\n' !in v
    ensures accepts(Anchor(w)) <==> DollarMatch(accepts, w)
  {
    if |w| > 0 && w[|w| - 1] == '\n' {
      var v := w[..|w| - 1];
      assert w == v + "\n";
      assert w[|w| - 1] in w;
      if exists u :: w == u + "\n" && accepts(u) {
        var u :| w == u + "\n" && accepts(u);
        assert u == v;
      }
    }
  }

  predicate IsDigit(c: char) {
    '0' <= c <= '9'
  }

  /** `[0-9]+` */
  predicate AllDigits(s: string) {
    |s| > 0 && forall i :: 0 <= i < |s| ==> IsDigit(s[i])
  }

  /** `[0-9\.]+` */
  predicate DigitsOrDots(s: string) {
    |s| > 0 && forall i :: 0 <= i < |s| ==> IsDigit(s[i]) || s[i] == '.'
  }

  /** `^[0-9]+$` */
  predicate IsNumber(w: string) {
    AllDigits(Anchor(w))
  }

  /** `^(mg|ml|meg)$` */
  predicate IsUnitWord(w: string) {
    Anchor(w) in {"mg", "ml", "meg"}
  }

  /** `^[0-9\.]+(mg|meq|ml)$`: digits and dots, then a unit, then the end. */
  predicate IsFusedDose(w: string) {
    var s := Anchor(w);
    || (|s| >= 2 && s[|s| - 2..] in {"mg", "ml"} && DigitsOrDots(s[..|s| - 2]))
    || (|s| >= 3 && s[|s| - 3..] == "meq" && DigitsOrDots(s[..|s| - 3]))
  }

  // The word rows: each `[Xx]` class is written out as the two spellings it allows.

  /** `^([Ss]tart|[Bb]egin|[Ii]ncrease)$` */
  predicate IsChangeVerb(w: string) {
    Anchor(w) in {"Start", "start", "Begin", "begin", "Increase", "increase"}
  }

  /** `^([fF]requency)$` */
  predicate IsFrequencyLabel(w: string) {
    Anchor(w) in {"Frequency", "frequency"}
  }

  /** `^([Dd]aily|[Ww]eekly|[Mm]onthly|[Rr]arely|[Oo]ccasionally)$` */
  predicate IsFrequencyAdverb(w: string) {
    Anchor(w) in {"Daily", "daily", "Weekly", "weekly", "Monthly", "monthly",
                  "Rarely", "rarely", "Occasionally", "occasionally"}
  }

  /** `^([Oo]nce|[Tt]wice)$` */
  predicate IsMultiplier(w: string) {
    Anchor(w) in {"Once", "once", "Twice", "twice"}
  }

  /** `^([Ee]very)$` */
  predicate IsEvery(w: string) {
    Anchor(w) in {"Every", "every"}
  }

  /** `^(QHS|TID|BID|b\.i\.d(\.)?)$`: the abbreviations are upper case only. */
  predicate IsAbbreviation(w: string) {
    Anchor(w) in {"QHS", "TID", "BID", "b.i.d", "b.i.d."}
  }

  /** `^([Ss]econd(s)?|[Mm]inute(s)?|[Hh]our(s)?)$` */
  predicate IsShortPeriod(w: string) {
    Anchor(w) in {"Second", "second", "Seconds", "seconds", "Minute", "minute",
                  "Minutes", "minutes", "Hour", "hour", "Hours", "hours"}
  }

  /** `^([Dd]ay(s)?|[Ww]eek(s)?)$` */
  predicate IsLongPeriod(w: string) {
    Anchor(w) in {"Day", "day", "Days", "days", "Week", "week", "Weeks", "weeks"}
  }

  /** `^([Ss]emiology)$` */
  predicate IsSemiologyLabel(w: string) {
    Anchor(w) in {"Semiology", "semiology"}
  }

  /** `^([Rr]ight|[Ll]eft)$` */
  predicate IsSide(w: string) {
    Anchor(w) in {"Right", "right", "Left", "left"}
  }

  /**
   * `^([Ee]pisode(s)?)|([Ss]pasm(s)?)$` as written: the alternation splits
   * the anchors, so the first alternative is `^[Ee]pisode` with no end anchor
   * (any word beginning with it matches) and the second is `[Ss]pasm(s)?$`.
   */
  predicate IsEventAsWritten(w: string) {
    || EpisodePrefix(w)
    || Anchor(w) in {"Spasm", "spasm", "Spasms", "spasms"}
  }

  /** `w` begins with `Episode` or `episode`. */
  predicate EpisodePrefix(w: string) {
    StartsWith(w, "Episode") || StartsWith(w, "episode")
  }

  /** `^(([Ee]pisode(s)?)|([Ss]pasm(s)?))$`: the event row anchored at both ends. */
  predicate IsEvent(w: string) {
    Anchor(w) in {"Episode", "episode", "Episodes", "episodes", "Spasm", "spasm", "Spasms", "spasms"}
  }

  /** `^([Ff]ace|[Aa]rm|[Ll]eg|[Mm]otor)$` */
  predicate IsBodyPart(w: string) {
    Anchor(w) in {"Face", "face", "Arm", "arm", "Leg", "leg", "Motor", "motor"}
  }

  /** `^(([Cc]omorbidit(y|ies))|[Cc]ondition(s)?)$` */
  predicate IsComorbidityLabel(w: string) {
    Anchor(w) in {"Comorbidity", "comorbidity", "Comorbidities", "comorbidities",
                  "Condition", "condition", "Conditions", "conditions"}
  }

  /** `^Types/Evolution/Frequency/Age$` */
  predicate IsHeader(w: string) {
    Anchor(w) == "Types/Evolution/Frequency/Age"
  }

  /** `^Epileptogenic$` */
  predicate IsZoneLabel(w: string) {
    Anchor(w) == "Epileptogenic"
  }

  /** A row of the table: whether Python's `re.match` of its pattern accepts a word, and its tag. */
  datatype Row = Row(accepts: string -> bool, tag: string)

  /** The tag table `tokens` of parse.py:29-63, in declared order and exactly as written. */
  const TokenTable: seq<Row> := [
    Row(IsNumber, NUM), Row(IsUnitWord, UNITS), Row(IsFusedDose, DOSAGE),
    Row(IsChangeVerb, VBB), Row(IsFrequencyLabel, FLB),
    Row(IsFrequencyAdverb, FRB), Row(IsMultiplier, FRB), Row(IsEvery, FRB),
    Row(IsAbbreviation, FRB), Row(IsShortPeriod, PER), Row(IsLongPeriod, PER),
    Row(IsSemiologyLabel, SEMLB), Row(IsSide, JJ), Row(IsEventAsWritten, SEMEV),
    Row(IsBodyPart, BODP), Row(IsComorbidityLabel, COMLB), Row(IsHeader, HEADER),
    Row(IsZoneLabel, EPZLB)
  ]

  /** The same table with the seizure-event row (index 13) anchored at both ends. */
  const CorrectedTable: seq<Row> := TokenTable[13 := Row(IsEvent, SEMEV)]

  /** Index of the first row at or after `from` whose pattern matches `w`. */
  function FirstMatch(table: seq<Row>, w: string, from: nat): (r: Option<nat>)
    requires from <= |table|
    ensures r.Some? ==> from <= r.value < |table| && table[r.value].accepts(w)
    ensures r.Some? ==> forall j :: from <= j < r.value ==> !table[j].accepts(w)
    ensures r.None? <==> forall j :: from <= j < |table| ==> !table[j].accepts(w)
    decreases |table| - from
  {
    if from == |table| then None
    else if table[from].accepts(w) then Some(from)
    else FirstMatch(table, w, from + 1)
  }

  /** NLTK's `RegexpTagger.choose_tag`: the tag of the first matching row, if any. */
  function RegexpTag(table: seq<Row>, w: string): (r: Option<string>)
    ensures r.None? <==> forall j :: 0 <= j < |table| ==> !table[j].accepts(w)
    ensures r.Some? ==>
              exists i :: 0 <= i < |table| && table[i].accepts(w) && table[i].tag == r.value
                && forall j :: 0 <= j < i ==> !table[j].accepts(w)
  {
    match FirstMatch(table, w, 0)
    case Some(i) => Some(table[i].tag)
    case None => None
  }

  /** The vocabulary of `MedicineTagger.__init__`: every line with surrounding whitespace removed. */
  function DrugSet(lines: seq<string>): (r: set<string>)
    ensures forall k :: 0 <= k < |lines| ==> Strip(lines[k]) in r
    ensures forall d :: d in r ==> exists k :: 0 <= k < |lines| && d == Strip(lines[k])
  {
    set k | 0 <= k < |lines| :: Strip(lines[k])
  }

  /** `MedicineTagger.choose_tag`: `DRUG` when the lower-cased word is in the vocabulary. */
  function ChooseDrug(drugs: set<string>, w: string): (r: Option<string>)
    ensures r.Some? <==> Lower(w) in drugs
    ensures r.Some? ==> r.value == DRUG
  {
    if Lower(w) in drugs then Some(DRUG) else None
  }

  /**
   * The statistical tagger at the end of the chain: given the words, the
   * position and the tags chosen so far, it always returns a tag.
   */
  type Fallback = (seq<string>, nat, seq<string>) -> string

  /** NLTK's `tag_one` over the chain table, vocabulary, statistical tagger. */
  function TagOne(table: seq<Row>, drugs: set<string>, fallback: Fallback,
                  words: seq<string>, i: nat, history: seq<string>): string
    requires i < |words|
  {
    match RegexpTag(table, words[i])
    case Some(t) => t
    case None =>
      match ChooseDrug(drugs, words[i])
      case Some(t) => t
      case None => fallback(words, i, history)
  }

  function Tags(tagged: seq<(string, string)>): (r: seq<string>)
    ensures |r| == |tagged|
    ensures forall k :: 0 <= k < |r| ==> r[k] == tagged[k].1
  {
    seq(|tagged|, k requires 0 <= k < |tagged| => tagged[k].1)
  }

  /** The first `n` words tagged left to right, each seeing the tags before it. */
  function TagPrefix(table: seq<Row>, drugs: set<string>, fallback: Fallback,
                     words: seq<string>, n: nat): (r: seq<(string, string)>)
    requires n <= |words|
    ensures |r| == n
    ensures forall k :: 0 <= k < n ==> r[k].0 == words[k]
    ensures forall k :: 0 <= k < n ==>
      r[k].1 == TagOne(table, drugs, fallback, words, k, Tags(r[..k]))
  {
    if n == 0 then []
    else
      var p := TagPrefix(table, drugs, fallback, words, n - 1);
      var r := p + [(words[n - 1], TagOne(table, drugs, fallback, words, n - 1, Tags(p)))];
      assert r[..n - 1] == p;
      forall k | 0 <= k < n - 1
        ensures r[k].1 == TagOne(table, drugs, fallback, words, k, Tags(r[..k]))
      {
        assert r[..k] == p[..k];
      }
      r
  }

  /** `tagger.tag(words)`: every word tagged, left to right. */
  function TagWords(table: seq<Row>, drugs: set<string>, fallback: Fallback, words: seq<string>): seq<(string, string)>
  {
    TagPrefix(table, drugs, fallback, words, |words|)
  }

  /**
   * Every word keeps its place, a word some row matches gets that row's tag,
   * and a word no row matches but the vocabulary holds gets `DRUG`.
   */
  lemma TagWordsFacts(table: seq<Row>, drugs: set<string>, fallback: Fallback, words: seq<string>)
    ensures |TagWords(table, drugs, fallback, words)| == |words|
    ensures forall k :: 0 <= k < |words| ==> TagWords(table, drugs, fallback, words)[k].0 == words[k]
    ensures forall k :: 0 <= k < |words| && RegexpTag(table, words[k]).Some? ==>
      TagWords(table, drugs, fallback, words)[k].1 == RegexpTag(table, words[k]).value
    ensures forall k :: 0 <= k < |words| && RegexpTag(table, words[k]).None? && Lower(words[k]) in drugs ==>
      TagWords(table, drugs, fallback, words)[k].1 == DRUG
  {
    var r := TagWords(table, drugs, fallback, words);
    forall k | 0 <= k < |words|
      ensures r[k].1 == TagOne(table, drugs, fallback, words, k, Tags(r[..k]))
    {
    }
  }

  /**
   * NLTK's `SequentialBackoffTagger.tag`: one left-to-right pass that asks
   * the chain for each word, handing it the tags chosen so far.
   */
  method TagSentence(table: seq<Row>, drugs: set<string>, fallback: Fallback, words: seq<string>)
    returns (tagged: seq<(string, string)>)
    ensures tagged == TagWords(table, drugs, fallback, words)
    ensures |tagged| == |words|
    ensures forall k :: 0 <= k < |words| ==> tagged[k].0 == words[k]
    ensures forall k :: 0 <= k < |words| && RegexpTag(table, words[k]).Some? ==>
      tagged[k].1 == RegexpTag(table, words[k]).value
    ensures forall k :: 0 <= k < |words| && RegexpTag(table, words[k]).None? && Lower(words[k]) in drugs ==>
      tagged[k].1 == DRUG
  {
    tagged := [];
    var history: seq<string> := [];
    for i := 0 to |words|
      invariant tagged == TagPrefix(table, drugs, fallback, words, i)
      invariant history == Tags(tagged)
    {
      var t := TagOne(table, drugs, fallback, words, i, history);
      tagged := tagged + [(words[i], t)];
      history := history + [t];
    }
    TagWordsFacts(table, drugs, fallback, words);
  }
}
