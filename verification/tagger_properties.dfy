/** What the tag table, the vocabulary lookup and the backoff chain promise. */
module TaggerProperties {
  import opened Wrappers
  import opened Text
  import opened Tagger

  /** Every row other than the seizure-event row fails on `w`. */
  predicate OtherRowsReject(w: string) {
    && !IsNumber(w) && !IsUnitWord(w) && !IsFusedDose(w)
    && !IsChangeVerb(w) && !IsFrequencyLabel(w) && !IsFrequencyAdverb(w)
    && !IsMultiplier(w) && !IsEvery(w) && !IsAbbreviation(w)
    && !IsShortPeriod(w) && !IsLongPeriod(w) && !IsSemiologyLabel(w)
    && !IsSide(w) && !IsBodyPart(w)
    && !IsComorbidityLabel(w) && !IsHeader(w) && !IsZoneLabel(w)
  }

  /** Every pattern of parse.py:32-62, as written, fails on `w`. */
  predicate NoPattern(w: string) {
    OtherRowsReject(w) && !IsEventAsWritten(w)
  }

  /** The table leaves a word to the vocabulary exactly when none of its 18 patterns accepts it. */
  lemma NoneWhenNoPattern(w: string)
    ensures RegexpTag(TokenTable, w).None? <==> NoPattern(w)
  {
    if RegexpTag(TokenTable, w).None? {
      assert !TokenTable[0].accepts(w)
        && !TokenTable[1].accepts(w)
        && !TokenTable[2].accepts(w)
        && !TokenTable[3].accepts(w)
        && !TokenTable[4].accepts(w)
        && !TokenTable[5].accepts(w)
        && !TokenTable[6].accepts(w)
        && !TokenTable[7].accepts(w)
        && !TokenTable[8].accepts(w)
        && !TokenTable[9].accepts(w)
        && !TokenTable[10].accepts(w)
        && !TokenTable[11].accepts(w)
        && !TokenTable[12].accepts(w)
        && !TokenTable[13].accepts(w)
        && !TokenTable[14].accepts(w)
        && !TokenTable[15].accepts(w)
        && !TokenTable[16].accepts(w)
        && !TokenTable[17].accepts(w);
    }
  }

  /** The corrected table leaves a word to the vocabulary when no row, the anchored event row included, accepts it. */
  lemma CorrectedNoneWhenNoPattern(w: string)
    requires OtherRowsReject(w) && !IsEvent(w)
    ensures RegexpTag(CorrectedTable, w) == None
  {
    forall j | 0 <= j < |CorrectedTable|
      ensures !CorrectedTable[j].accepts(w)
    {
      if j != 13 {
        assert CorrectedTable[j] == TokenTable[j];
      }
    }
  }

  /** The rows for frequencies and periods accept only words of at most 12 characters. */
  lemma LongWordMissesFrequencyRows(w: string)
    requires 13 < |Anchor(w)|
    ensures !IsUnitWord(w) && !IsChangeVerb(w) && !IsFrequencyLabel(w) && !IsFrequencyAdverb(w)
    ensures !IsMultiplier(w) && !IsEvery(w) && !IsAbbreviation(w)
  {
  }

  /** The rows for periods, semiology and comorbidity accept only words of at most 13 characters. */
  lemma LongWordMissesWordRows(w: string)
    requires 13 < |Anchor(w)|
    ensures !IsShortPeriod(w) && !IsLongPeriod(w) && !IsSemiologyLabel(w) && !IsSide(w)
    ensures !IsEvent(w) && !IsBodyPart(w) && !IsComorbidityLabel(w) && !IsZoneLabel(w)
  {
  }

  /**
   * Apart from the header, no row of the corrected table accepts a word of
   * more than 13 characters that does not start with a digit or a dot; as
   * written, such a word is `SEMEV` when it begins with `episode`/`Episode`
   * and untagged otherwise.
   */
  lemma LongWordsAreUntagged(w: string)
    requires 13 < |Anchor(w)| && Anchor(w) != "Types/Evolution/Frequency/Age"
    requires !IsDigit(Anchor(w)[0]) && Anchor(w)[0] != '.'
    ensures RegexpTag(CorrectedTable, w) == None
    ensures RegexpTag(TokenTable, w) == if EpisodePrefix(w) then Some(SEMEV) else None
  {
    var s := Anchor(w);
    assert !IsNumber(w) && !IsFusedDose(w) by {
      assert !IsDigit(s[0]) && s[0] != '.';
    }
    LongWordMissesFrequencyRows(w);
    LongWordMissesWordRows(w);
    assert OtherRowsReject(w);
    CorrectedNoneWhenNoPattern(w);
    if EpisodePrefix(w) {
      EpisodePrefixIsEvent(w);
    } else {
      NoneWhenNoPattern(w);
    }
  }

  /** The tag of the first matching row is the answer, whatever rows match later. */
  lemma {:induction false} FirstRow(table: seq<Row>, w: string, i: nat)
    requires i < |table| && table[i].accepts(w)
    requires forall j :: 0 <= j < i ==> !table[j].accepts(w)
    ensures RegexpTag(table, w) == Some(table[i].tag)
  {
    var k := FirstMatch(table, w, 0);
    assert k.Some?;
  }

  /** A bare number is `NUM`, and so is one followed by a single newline (`$`). */
  lemma NumberIsNum(w: string)
    requires w == "50" || w == "50\n"
    ensures RegexpTag(TokenTable, w) == Some(NUM)
  {
    assert Anchor(w) == "50";
    FirstRow(TokenTable, w, 0);
  }

  /** A word that still ends in a newline once `$` has skipped one matches none of the word rows. */
  lemma NewlineWordMissesFrequencyRows(w: string)
    requires |Anchor(w)| > 0 && Anchor(w)[|Anchor(w)| - 1] == '\n'
    ensures !IsUnitWord(w) && !IsChangeVerb(w) && !IsFrequencyLabel(w) && !IsFrequencyAdverb(w)
    ensures !IsMultiplier(w) && !IsEvery(w) && !IsAbbreviation(w) && !IsHeader(w) && !IsZoneLabel(w)
  {
  }

  lemma NewlineWordMissesNumberRows(w: string)
    requires |Anchor(w)| > 0 && Anchor(w)[|Anchor(w)| - 1] == '\n'
    ensures !IsNumber(w) && !IsFusedDose(w)
  {
    var s := Anchor(w);
    assert !IsDigit(s[|s| - 1]);
    if |s| >= 2 {
      assert s[|s| - 2..][1] == '\n';
    }
    if |s| >= 3 {
      assert s[|s| - 3..][2] == '\n';
    }
  }

  lemma NewlineWordMissesWordRows(w: string)
    requires |Anchor(w)| > 0 && Anchor(w)[|Anchor(w)| - 1] == '\n'
    ensures !IsShortPeriod(w) && !IsLongPeriod(w) && !IsSemiologyLabel(w) && !IsSide(w)
    ensures !IsBodyPart(w) && !IsComorbidityLabel(w)
  {
  }

  /** Only one final newline is allowed before the end: a number followed by two matches no row. */
  lemma TwoNewlinesAreNotNum(v: string)
    requires AllDigits(v)
    ensures !IsNumber(v + "\n\n") && !IsFusedDose(v + "\n\n")
    ensures RegexpTag(TokenTable, v + "\n\n") == None
  {
    var w := v + "\n\n";
    assert Anchor(w) == v + "\n";
    NewlineWordMissesNumberRows(w);
    NewlineWordMissesFrequencyRows(w);
    NewlineWordMissesWordRows(w);
    assert !EpisodePrefix(w) by {
      assert w[0] == v[0] && IsDigit(v[0]);
      if |w| >= 7 {
        assert w[..7][0] == w[0];
      }
    }
    NoneWhenNoPattern(w);
  }

  /** Every word the fused-dose row accepts is `DOSAGE`: the two rows before it never accept it. */
  lemma FusedDoseRowWins(w: string)
    requires IsFusedDose(w)
    ensures RegexpTag(TokenTable, w) == Some(DOSAGE)
  {
    var s := Anchor(w);
    assert !IsNumber(w) by {
      assert !IsDigit(s[|s| - 1]);
    }
    FirstRow(TokenTable, w, 2);
  }

  /** A fused dose is `DOSAGE`, not `NUM`. */
  lemma FusedDoseIsDosage(w: string)
    requires w == "50mg" || w == "5meq" || w == "2.5ml"
    ensures RegexpTag(TokenTable, w) == Some(DOSAGE)
  {
    assert Anchor(w) == w;
    if w == "5meq" {
      assert w[|w| - 3..] == "meq" && DigitsOrDots(w[..1]);
    } else {
      assert w[|w| - 2..] in {"mg", "ml"} && DigitsOrDots(w[..|w| - 2]);
    }
    FusedDoseRowWins(w);
  }

  /** A bare unit word is `UNITS`. */
  lemma UnitIsUnits(w: string)
    requires w == "mg"
    ensures RegexpTag(TokenTable, w) == Some(UNITS)
  {
    assert Anchor(w) == w;
    assert !IsDigit(w[0]);
    FirstRow(TokenTable, w, 1);
  }

  /** `meq` is a unit only when fused to a number: bare, it matches no row. */
  lemma BareMeqIsUntagged(w: string)
    requires w == "meq"
    ensures RegexpTag(TokenTable, w) == None
  {
    assert Anchor(w) == w;
    assert !IsDigit(w[0]);
    assert !IsFusedDose(w) by {
      assert w[1..] !in {"mg", "ml"} && w[..0] == [];
    }
    assert !EpisodePrefix(w);
    assert OtherRowsReject(w);
    NoneWhenNoPattern(w);
  }

  /** A frequency adverb is `FRB` with either case of its first letter. */
  lemma DailyIsFrb(w: string)
    requires w == "Daily"
    ensures RegexpTag(TokenTable, w) == Some(FRB)
  {
    assert !IsDigit(w[0]);
    FirstRow(TokenTable, w, 5);
  }

  /** The clinical abbreviations are `FRB`, and `b.i.d` may end with a dot. */
  lemma AbbreviationIsFrb(w: string)
    requires w == "QHS" || w == "b.i.d."
    ensures RegexpTag(TokenTable, w) == Some(FRB)
  {
    assert Anchor(w) == w;
    assert !IsDigit(w[0]);
    FirstRow(TokenTable, w, 8);
  }

  /** Only the first letter's case may vary: an all-capitals adverb matches no row. */
  lemma CapitalsAreNotFrb(w: string)
    requires w == "DAILY"
    ensures RegexpTag(TokenTable, w) == None
  {
    assert OtherRowsReject(w) by {
      assert w[1] == 'A';
    }
    assert !EpisodePrefix(w);
    NoneWhenNoPattern(w);
  }

  /** The clinical abbreviations are upper-case only. */
  lemma LowerAbbreviationIsNotFrb(w: string)
    requires w == "qhs"
    ensures RegexpTag(TokenTable, w) == None
  {
    assert OtherRowsReject(w) by {
      assert Anchor(w) == w;
    }
    assert !EpisodePrefix(w);
    NoneWhenNoPattern(w);
  }

  /** The zone label is `EPZLB` spelled exactly so... */
  lemma ZoneLabelIsEpzlb(w: string)
    requires w == "Epileptogenic"
    ensures RegexpTag(TokenTable, w) == Some(EPZLB)
  {
    assert Anchor(w) == w;
    assert w[..7][3] != "Episode"[3];
    assert !IsDigit(w[0]);
    FirstRow(TokenTable, w, 17);
  }

  /** ...and not with a lower-case first letter. */
  lemma LowerZoneLabelIsUntagged(w: string)
    requires w == "epileptogenic"
    ensures RegexpTag(TokenTable, w) == None
  {
    assert OtherRowsReject(w) by {
      assert Anchor(w) == w;
    }
    assert !EpisodePrefix(w) by {
      assert w[..7][3] != "episode"[3];
    }
    NoneWhenNoPattern(w);
  }

  /**
   * A word some row matches gets that row's tag whatever the vocabulary,
   * the statistical tagger and the tags before it.
   */
  lemma TableBeatsVocabulary(table: seq<Row>, d1: set<string>, d2: set<string>, f1: Fallback, f2: Fallback,
                             words: seq<string>, i: nat, h1: seq<string>, h2: seq<string>)
    requires i < |words| && RegexpTag(table, words[i]).Some?
    ensures TagOne(table, d1, f1, words, i, h1) == RegexpTag(table, words[i]).value
    ensures TagOne(table, d1, f1, words, i, h1) == TagOne(table, d2, f2, words, i, h2)
  {
  }

  /** `Daily` is `FRB` even when `daily` is a listed drug. */
  lemma DailyBeatsDrugList(drugs: set<string>, fallback: Fallback, words: seq<string>,
                           i: nat, history: seq<string>)
    requires i < |words| && words[i] == "Daily"
    ensures TagOne(TokenTable, drugs, fallback, words, i, history) == FRB
  {
    DailyIsFrb(words[i]);
  }

  /** No row of either table assigns `DRUG`. */
  lemma NoRowTagsDrug(w: string)
    ensures RegexpTag(CorrectedTable, w) != Some(DRUG)
    ensures RegexpTag(TokenTable, w) != Some(DRUG)
  {
    assert DRUG !in RowTags by {
      assert DRUG[0] == 'D' && |DRUG| == 4;
    }
    forall j | 0 <= j < |CorrectedTable|
      ensures CorrectedTable[j].tag in RowTags && TokenTable[j].tag in RowTags
    {
    }
  }

  /** The tags the rows assign. */
  const RowTags: set<string> :=
    {NUM, UNITS, DOSAGE, VBB, FLB, FRB, PER, SEMLB, JJ, SEMEV, BODP, COMLB, HEADER, EPZLB}

  /**
   * The chain says `DRUG` exactly for words no row matches that are either
   * in the vocabulary (lower-cased) or that the statistical tagger calls `DRUG`.
   */
  lemma DrugOnlyAfterTable(table: seq<Row>, drugs: set<string>, fallback: Fallback, words: seq<string>,
                           i: nat, history: seq<string>)
    requires table == TokenTable || table == CorrectedTable
    requires i < |words|
    ensures TagOne(table, drugs, fallback, words, i, history) == DRUG <==>
      RegexpTag(table, words[i]).None?
      && (Lower(words[i]) in drugs || fallback(words, i, history) == DRUG)
  {
    NoRowTagsDrug(words[i]);
  }

  /**
   * The statistical tagger is consulted exactly for the words neither the
   * table nor the vocabulary claims.
   */
  lemma FallbackOnlyForUnclaimed(table: seq<Row>, drugs: set<string>, f1: Fallback, f2: Fallback,
                                 words: seq<string>, i: nat, history: seq<string>)
    requires i < |words|
    ensures RegexpTag(table, words[i]).None? && Lower(words[i]) !in drugs ==>
      TagOne(table, drugs, f1, words, i, history) == f1(words, i, history)
    ensures RegexpTag(table, words[i]).Some? || Lower(words[i]) in drugs ==>
      TagOne(table, drugs, f1, words, i, history) == TagOne(table, drugs, f2, words, i, history)
  {
  }

  /** A vocabulary line with an upper-case letter after stripping matches no word. */
  lemma UpperCaseEntryNeverMatches(lines: seq<string>, k: nat, w: string)
    requires k < |lines| && HasUpper(Strip(lines[k]))
    requires forall j :: 0 <= j < |lines| && j != k ==> Strip(lines[j]) != Lower(w)
    ensures ChooseDrug(DrugSet(lines), w) == None
  {
    LowerNeverHasUpper(w, Strip(lines[k]));
  }

  /** The lookup ignores the case of the word and the whitespace around each line. */
  lemma LookupNormalisation(lines: seq<string>, k: nat, w: string)
    requires k < |lines| && Lower(w) == Strip(lines[k])
    ensures ChooseDrug(DrugSet(lines), w) == Some(DRUG)
    ensures forall v :: Lower(v) == Lower(w) ==> ChooseDrug(DrugSet(lines), v) == Some(DRUG)
  {
  }

  // The seizure-event row as written (parse.py:54) against its anchored correction.

  /** As written, every word that begins with `episode`/`Episode` is a seizure event. */
  lemma EventAsWrittenAcceptsAnyEpisodePrefix(y: string)
    ensures IsEventAsWritten("episode" + y)
    ensures IsEventAsWritten("Episode" + y)
  {
    assert ("episode" + y)[..7] == "episode";
    assert ("Episode" + y)[..7] == "Episode";
  }

  /** A word whose second letter is `p` after an `e`/`E` misses the dosage and frequency word rows. */
  lemma EpWordMissesFrequencyRows(w: string)
    requires |Anchor(w)| >= 7 && (Anchor(w)[0] == 'e' || Anchor(w)[0] == 'E') && Anchor(w)[1] == 'p'
    ensures !IsUnitWord(w) && !IsChangeVerb(w) && !IsFrequencyLabel(w) && !IsFrequencyAdverb(w)
    ensures !IsMultiplier(w) && !IsEvery(w)
  {
  }

  /** ...and the abbreviation, period, semiology and side rows. */
  lemma EpWordMissesPeriodRows(w: string)
    requires |Anchor(w)| >= 7 && (Anchor(w)[0] == 'e' || Anchor(w)[0] == 'E') && Anchor(w)[1] == 'p'
    ensures !IsAbbreviation(w) && !IsShortPeriod(w) && !IsLongPeriod(w)
    ensures !IsSemiologyLabel(w) && !IsSide(w)
  {
  }

  /** No row before the event row accepts a word that begins with `episode`/`Episode`. */
  lemma EpisodePrefixMissesEarlierRows(w: string)
    requires EpisodePrefix(w)
    ensures !IsNumber(w) && !IsUnitWord(w) && !IsFusedDose(w) && !IsChangeVerb(w)
    ensures !IsFrequencyLabel(w) && !IsFrequencyAdverb(w) && !IsMultiplier(w) && !IsEvery(w)
    ensures !IsAbbreviation(w) && !IsShortPeriod(w) && !IsLongPeriod(w)
    ensures !IsSemiologyLabel(w) && !IsSide(w)
  {
    var s := Anchor(w);
    assert s[..7] == w[..7] by {
      if s != w {
        assert w == s + "\n";
        assert |s| >= 7 by {
          assert w[6] != '\n';
        }
      }
    }
    assert (s[0] == 'e' || s[0] == 'E') && s[1] == 'p' by {
      assert s[0] == s[..7][0] && s[1] == s[..7][1];
    }
    assert !IsNumber(w) && !IsFusedDose(w) by {
      assert !IsDigit(s[0]) && s[0] != '.';
      assert s[..|s| - 2][0] == s[0] && s[..|s| - 3][0] == s[0];
    }
    EpWordMissesFrequencyRows(w);
    EpWordMissesPeriodRows(w);
  }

  /** As written, every word that begins with `episode`/`Episode` is tagged `SEMEV`. */
  lemma EpisodePrefixIsEvent(w: string)
    requires EpisodePrefix(w)
    ensures RegexpTag(TokenTable, w) == Some(SEMEV)
  {
    EpisodePrefixMissesEarlierRows(w);
    FirstRow(TokenTable, w, 13);
  }

  /** The input that shows it: `episode-related` is `SEMEV` as written, untagged once anchored. */
  lemma EpisodeRelatedCounterexample(w: string)
    requires w == "episode-related"
    ensures RegexpTag(TokenTable, w) == Some(SEMEV)
    ensures RegexpTag(CorrectedTable, w) == None
  {
    assert Anchor(w) == w;
    assert w[..7] == "episode";
    assert !IsDigit(w[0]);
    LongWordsAreUntagged(w);
  }

  lemma EpisodeRelatedAsWritten(w: string)
    requires w == "episode-related"
    ensures RegexpTag(TokenTable, w) == Some(SEMEV)
  {
    assert Anchor(w) == w;
    assert w[..7] == "episode";
    assert !IsDigit(w[0]);
    FirstRow(TokenTable, w, 13);
  }

  /**
   * The anchored event row accepts only what the row as written accepts, and
   * the two differ only on `episode`/`Episode` words other than the four
   * spellings of `Episode(s)`.
   */
  lemma EventRows(w: string)
    ensures IsEvent(w) ==> IsEventAsWritten(w)
    ensures IsEventAsWritten(w) && !EpisodePrefix(w) ==> IsEvent(w)
    ensures EpisodePrefix(w) ==> (IsEvent(w) <==> Anchor(w) in {"Episode", "episode", "Episodes", "episodes"})
  {
    var s := Anchor(w);
    assert w[..|s|] == s by {
      if s != w {
        assert w == s + "\n";
      }
    }
    if s in {"Episode", "episode", "Episodes", "episodes"} {
      assert w[..7] == s[..7];
    }
  }

  lemma {:induction false} SameRows(t1: seq<Row>, t2: seq<Row>, w: string, from: nat)
    requires |t1| == |t2| && from <= |t1|
    requires forall j :: from <= j < |t1| ==>
      t1[j].tag == t2[j].tag && (t1[j].accepts(w) <==> t2[j].accepts(w))
    ensures FirstMatch(t1, w, from) == FirstMatch(t2, w, from)
    decreases |t1| - from
  {
    if from < |t1| {
      SameRows(t1, t2, w, from + 1);
    }
  }

  /** The correction changes the tag of no word outside the `episode...` prefix family. */
  lemma TablesAgreeOutsideEpisodePrefix(w: string)
    requires !EpisodePrefix(w) || IsEvent(w)
    ensures RegexpTag(TokenTable, w) == RegexpTag(CorrectedTable, w)
  {
    EventRows(w);
    SameRows(TokenTable, CorrectedTable, w, 0);
  }

  /**
   * The table as written, in terms of the corrected one: every
   * `episode`/`Episode` word is `SEMEV`, every other word gets the corrected
   * table's answer.
   */
  lemma AsWrittenTagging(w: string)
    ensures RegexpTag(TokenTable, w) == if EpisodePrefix(w) then Some(SEMEV) else RegexpTag(CorrectedTable, w)
  {
    if EpisodePrefix(w) {
      EpisodePrefixIsEvent(w);
    } else {
      TablesAgreeOutsideEpisodePrefix(w);
    }
  }

  /** A word whose tag the correction leaves alone. */
  predicate Unaffected(w: string) {
    !EpisodePrefix(w) || IsEvent(w)
  }

  /**
   * Through the backoff chain: an `episode`/`Episode` word is `SEMEV` under
   * the table as written, and a word the correction leaves alone is tagged
   * alike under both tables, whatever the vocabulary, fallback and history.
   */
  lemma TagOneAsWritten(drugs: set<string>, fallback: Fallback, words: seq<string>, i: nat, history: seq<string>)
    requires i < |words|
    ensures EpisodePrefix(words[i]) ==> TagOne(TokenTable, drugs, fallback, words, i, history) == SEMEV
    ensures Unaffected(words[i]) ==>
      TagOne(TokenTable, drugs, fallback, words, i, history) == TagOne(CorrectedTable, drugs, fallback, words, i, history)
  {
    AsWrittenTagging(words[i]);
    if Unaffected(words[i]) {
      TablesAgreeOutsideEpisodePrefix(words[i]);
    }
  }

  /** Two tables that give every word of a sentence the same tag tag the sentence alike. */
  lemma {:induction false} TagPrefixSameTags(t1: seq<Row>, t2: seq<Row>, drugs: set<string>, fallback: Fallback,
                                             words: seq<string>, n: nat)
    requires n <= |words|
    requires forall k :: 0 <= k < n ==> RegexpTag(t1, words[k]) == RegexpTag(t2, words[k])
    ensures TagPrefix(t1, drugs, fallback, words, n) == TagPrefix(t2, drugs, fallback, words, n)
  {
    if n > 0 {
      var p := TagPrefix(t2, drugs, fallback, words, n - 1);
      TagPrefixSameTags(t1, t2, drugs, fallback, words, n - 1);
      var t := TagOne(t2, drugs, fallback, words, n - 1, Tags(p));
      assert TagOne(t1, drugs, fallback, words, n - 1, Tags(p)) == t by {
        assert RegexpTag(t1, words[n - 1]) == RegexpTag(t2, words[n - 1]);
      }
      assert TagPrefix(t1, drugs, fallback, words, n) == p + [(words[n - 1], t)];
    }
  }

  /**
   * Tagging a sentence with the table as written: every `episode`/`Episode`
   * word is `SEMEV`, and a sentence none of whose words the correction
   * affects is tagged exactly as with the corrected table.
   */
  lemma TagWordsAsWritten(drugs: set<string>, fallback: Fallback, words: seq<string>)
    ensures forall k :: 0 <= k < |words| && EpisodePrefix(words[k]) ==>
      TagWords(TokenTable, drugs, fallback, words)[k].1 == SEMEV
    ensures (forall k :: 0 <= k < |words| ==> Unaffected(words[k])) ==>
      TagWords(TokenTable, drugs, fallback, words) == TagWords(CorrectedTable, drugs, fallback, words)
  {
    forall k | 0 <= k < |words| && EpisodePrefix(words[k])
      ensures RegexpTag(TokenTable, words[k]) == Some(SEMEV)
    {
      EpisodePrefixIsEvent(words[k]);
    }
    TagWordsFacts(TokenTable, drugs, fallback, words);
    if forall k :: 0 <= k < |words| ==> Unaffected(words[k]) {
      forall k | 0 <= k < |words|
        ensures RegexpTag(TokenTable, words[k]) == RegexpTag(CorrectedTable, words[k])
      {
        TablesAgreeOutsideEpisodePrefix(words[k]);
      }
      TagPrefixSameTags(TokenTable, CorrectedTable, drugs, fallback, words, |words|);
    }
  }
}
