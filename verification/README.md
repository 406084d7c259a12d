# Clinical-note extractor core, modelled in Dafny

`parse.py` reads a clinical note as named sections of text. For each section
it does the following:

1. It splits the text into sentences and words.
2. It tags every word with a backoff chain. An ordered table of anchored
   regular expressions comes first (the first match wins). Then the
   lower-cased word is looked up among the stripped lines of the drug file;
   the entries are not lower-cased. Last comes a statistical tagger.
3. It chunks the tagged words into a tree.
4. It hands every top-level child of that tree to `anything_useful`.

Depending on the section name (`CLASSIFICATION`, `HISTORY`) and on the chunk
label, `anything_useful` prints seizure-frequency, medication, semiology,
comorbidity and epileptogenic-zone lines. Each line holds the chunk's words
joined by spaces (`flatten_regimen`).

The model turns printing into returned lines, and every line into a `Record`
that renders and parses back. The files follow the program's structure:

| file | module | what it holds |
|---|---|---|
| `wrappers.dfy` | `Wrappers` | `Option` |
| `seqs.dfy` | `Seqs` | concatenating the output of a function over a sequence, and filtering |
| `text.dfy` | `Text` | `lower`, `strip`, `" ".join`, `split(",")`, and the substring test used for the section keys |
| `tagger.dfy` | `Tagger` | the tag table (one predicate per regular expression), `MedicineTagger`, and the backoff chain over a sentence |
| `tagger_properties.dfy` | `TaggerProperties` | first-match order, literal case and anchoring, the vocabulary lookup, and the event-row finding |
| `tree.dfy` | `ChunkTree` | the chunk tree, `pos()`, `subtrees()` and `flatten_regimen` |
| `frequency.dfy` | `FrequencyText` | `frequency_text`, as a function and as the loop |
| `extract.dfy` | `Extractor` | `anything_useful` as records and printed lines, and the per-sentence loop |
| `extract_properties.dfy` | `ExtractorProperties` | per-label record counts and what each section key prints |
| `pipeline.dfy` | `Pipeline` | `parse_sections`: the sections, in order, through tagging, chunking and extraction |
| `scenarios.dfy` | `ExtractorScenarios` | worked examples on concrete chunks |

Behaviour of the code that is easy to miss, which the model keeps:

- **Section keys are case-sensitive.** The test is a substring search on
  the section name (`re.search("CLASSIFICATION", ...)`). So
  `Classification of episodes` prints nothing.
- **Empty comorbidity pieces are kept.** `split(",")` keeps empty pieces, and
  each one is printed after `strip()` as an empty `Comorbidity:` line.
- **`pos()` pairs each word with its immediate parent's label.** This is
  NLTK's `Tree.pos()`.
- **`frequency_text` has no caller.** Its only caller is commented out
  (parse.py:148-150). It is modelled on its own.
- **Renamed fields.** `label` is a Dafny keyword, so a node's label is the
  field `node`, matching NLTK 2's `Tree.node`. The chunk label of a `pos()`
  item is the field `parent`.

## Model

| member | source | states |
|---|---|---|
| Tagger.Anchor | parse.py:32-62 | `$` in Python's `re` accepts the end of the word or a position just before one final newline: a word ending in a newline is seen without that one newline, any other word as it is |
| Tagger.AnchorIsDollar | parse.py:32-62 | for a pattern that never accepts a newline, testing the anchored word accepts exactly the words `^X$` accepts: the word itself, or a word `v` plus one newline where `X` accepts `v` |
| Tagger.FirstMatch | parse.py:29-63 | the index found is the first row at or after the start whose pattern accepts the word; no earlier row accepts it; none is found exactly when no row accepts it |
| Tagger.RegexpTag | parse.py:29-63 | `RegexpTagger.choose_tag`: no tag exactly when no row of the table matches, else the tag of the first matching row |
| Tagger.DrugSet | parse.py:15-21 | the vocabulary is exactly the set of drug-file lines with surrounding whitespace stripped: every stripped line is in it, and everything in it is some stripped line |
| Tagger.ChooseDrug | parse.py:23-27 | `DRUG` exactly when the lower-cased word is in the vocabulary, `None` otherwise |
| Tagger.TagPrefix | parse.py:170-173 | the first `n` words are tagged left to right; every word keeps its place, and every tag is what the chain answers given the tags before it |
| Tagger.TagWordsFacts | parse.py:170-173 | `tagger.tag`: the words keep their order; a word some row matches gets that row's tag; a word no row matches but the vocabulary holds gets `DRUG` |
| Tagger.TagSentence | parse.py:173 | the left-to-right tagging loop computes the tagging of the sentence, with the same facts |
| TaggerProperties.NoneWhenNoPattern | parse.py:29-63 | the table as written leaves a word to the vocabulary exactly when none of its 18 patterns, the unanchored event row included, accepts it |
| TaggerProperties.CorrectedNoneWhenNoPattern | parse.py:29-63 | the corrected table leaves a word to the vocabulary when none of its rows, the anchored event row included, accepts it |
| TaggerProperties.LongWordsAreUntagged | parse.py:32-62 | a word longer than 13 characters that is not the header and does not start with a digit or a dot is `SEMEV` as written when it begins with `episode`/`Episode` and untagged otherwise; the corrected table tags none of them |
| TaggerProperties.FirstRow | parse.py:29-63 | the tag of the first matching row is the answer, whatever later rows match |
| TaggerProperties.NumberIsNum | parse.py:32 | `50` is `NUM`, and so is `50` followed by one newline |
| TaggerProperties.TwoNewlinesAreNotNum | parse.py:32-62 | `$` allows only one final newline: any digit string followed by two newlines is neither `NUM` nor `DOSAGE`, and matches no row at all |
| TaggerProperties.FusedDoseRowWins | parse.py:32-34 | every word the fused-dose pattern accepts is `DOSAGE`: neither the number row nor the unit row before it accepts such a word |
| TaggerProperties.FusedDoseIsDosage | parse.py:32-34 | `50mg`, `5meq` and `2.5ml` are `DOSAGE`, not `NUM` |
| TaggerProperties.UnitIsUnits | parse.py:33 | `mg` is `UNITS` |
| TaggerProperties.BareMeqIsUntagged | parse.py:33-34 | `meq` is a unit only when fused to a number; bare, no row matches it |
| TaggerProperties.DailyIsFrb | parse.py:40 | `Daily` is `FRB` |
| TaggerProperties.AbbreviationIsFrb | parse.py:43 | `QHS` is `FRB`, and so is `b.i.d.`: the final dot is optional |
| TaggerProperties.CapitalsAreNotFrb | parse.py:40 | only the first letter's case may vary, so `DAILY` matches no row |
| TaggerProperties.LowerAbbreviationIsNotFrb | parse.py:43 | the abbreviations are upper case only, so `qhs` matches no row |
| TaggerProperties.ZoneLabelIsEpzlb | parse.py:62 | `Epileptogenic` is `EPZLB` |
| TaggerProperties.LowerZoneLabelIsUntagged | parse.py:62 | `epileptogenic` matches no row |
| TaggerProperties.TableBeatsVocabulary | parse.py:169-170 | for any table, a word some row matches gets that row's tag, whatever the vocabulary, the statistical tagger and the earlier tags |
| TaggerProperties.DailyBeatsDrugList | parse.py:169-170 | `Daily` is `FRB` even when the vocabulary lists `daily` |
| TaggerProperties.NoRowTagsDrug | parse.py:29-63 | no row of the table as written, nor of the corrected table, assigns `DRUG` |
| TaggerProperties.DrugOnlyAfterTable | parse.py:168-170 | with either table, the chain answers `DRUG` exactly for a word no row matches that the vocabulary holds (lower-cased) or that the statistical tagger calls `DRUG` |
| TaggerProperties.FallbackOnlyForUnclaimed | parse.py:168-170 | the statistical tagger decides exactly the words that neither the table nor the vocabulary claims; for any other word, changing the statistical tagger changes nothing |
| TaggerProperties.UpperCaseEntryNeverMatches | parse.py:17-24 | a drug-file line that still has an upper-case letter after stripping is never matched, because the word is lower-cased and the entry is not |
| TaggerProperties.LookupNormalisation | parse.py:17-24 | a word whose lower-cased form equals a stripped line is `DRUG`, and so is every word with the same lower-cased form |
| TaggerProperties.EventAsWrittenAcceptsAnyEpisodePrefix | parse.py:54 | as written, every word beginning with `episode` or `Episode` matches the event row |
| TaggerProperties.EpisodeRelatedAsWritten | parse.py:54 | as written, `episode-related` is `SEMEV`: no earlier row accepts it and the event row does |
| TaggerProperties.EpisodeRelatedCounterexample | parse.py:54 | `episode-related` is `SEMEV` under the table as written, and matches no row of the corrected table |
| TaggerProperties.EpisodePrefixIsEvent | parse.py:32-54 | as written, every word that begins with `episode` or `Episode` is `SEMEV`: no row before the event row accepts it |
| TaggerProperties.EventRows | parse.py:54 | the anchored event row accepts only words the row as written accepts; outside the `episode`/`Episode` words they accept the same words; among those words the anchored row accepts just `Episode(s)` and `episode(s)` |
| TaggerProperties.SameRows | parse.py:29-63 | two tables whose rows accept the same words, with the same tags, from some index on, give the same first match from that index |
| TaggerProperties.TablesAgreeOutsideEpisodePrefix | parse.py:29-63 | the correction changes the tag of no word, except the `episode`/`Episode`-prefixed words that the anchored row rejects |
| TaggerProperties.AsWrittenTagging | parse.py:29-63 | the table as written in terms of the corrected one: `SEMEV` for every `episode`/`Episode` word, the corrected table's answer for every other word |
| TaggerProperties.TagOneAsWritten | parse.py:168-170 | through the backoff chain, an `episode`/`Episode` word is `SEMEV` under the table as written, and a word the correction leaves alone gets the same tag under both tables, whatever the vocabulary, statistical tagger and history |
| TaggerProperties.TagPrefixSameTags | parse.py:168-173 | two tables that give every word of a sentence the same answer tag the sentence alike, the history included |
| TaggerProperties.TagWordsAsWritten | parse.py:168-173 | tagging a sentence with the table as written marks every `episode`/`Episode` word `SEMEV`, and a sentence with no word the correction affects is tagged exactly as with the corrected table |
| ChunkTree.SubtreesCountLabel | parse.py:133-134 | `subtrees()` holds one entry per chunk of a label anywhere in the tree, the root included |
| ChunkTree.SubtreesAreChunks | parse.py:133 | `subtrees()` starts with the tree itself and yields chunks only, never leaves |
| ChunkTree.PosWordsAreLeaves | parse.py:164 | the words of `pos()` are the leaf words, left to right |
| ChunkTree.FlattenIsJoinedLeaves | parse.py:163-164 | `flatten_regimen` is the leaf words joined by single spaces; no tag or label appears |
| ChunkTree.FlattenRoundTrip | parse.py:163-164 | when no leaf word holds a space, splitting the flattening on spaces gives back the leaf words |
| ChunkTree.FlattenChildren | parse.py:163-164 | for a node whose children all have leaves, the flattening is the space-join of the children's texts |
| FrequencyText.StepFacts | parse.py:109-114 | one step adds the item's word to the concatenated chains exactly when it is a `FREQUENCY` item; it keeps every chain but the last non-empty |
| FrequencyText.Chains | parse.py:108-114 | there is always a chain, every chain but the last is non-empty, and the last is non-empty exactly when the last item is a `FREQUENCY` item; all chains concatenated are the `FREQUENCY` words in input order |
| FrequencyText.ChainsCountRuns | parse.py:112-114 | the number of non-empty chains is the number of maximal runs of `FREQUENCY` items |
| FrequencyText.FrequencyText | parse.py:100-115 | at least one string, `[""]` for no items, one string per chain, each chain joined by spaces |
| FrequencyText.JoinChains | parse.py:115 | one text per chain, each the chain's words joined by single spaces |
| FrequencyText.BuildChains | parse.py:108-114 | the loop builds the chains the function describes |
| FrequencyText.FrequencyTextLoop | parse.py:108-115 | the loop returns what `frequency_text` returns |
| Extractor.ParseLine | parse.py:129-161 | a line that reads back as a record starts with that record's kind prefix |
| Extractor.ParseRender | parse.py:129-161 | every printed line reads back as the record that produced it |
| Extractor.RenderParse | parse.py:129-161 | a line that reads back as a record is exactly that record's printed line |
| Extractor.PrefixesDistinct | parse.py:129-161 | no kind's printed prefix starts another kind's line |
| Extractor.LabelledRecords | parse.py:133-141 | one record per chunk of the label among the subtrees, valued by that chunk's flattening, in order |
| Extractor.CommaRecords | parse.py:142-145 | one comorbidity record per comma, plus one; values hold no comma and no whitespace at their ends |
| Extractor.Records | parse.py:117-161 | nothing for a name without either key, for a leaf, or for an unhandled label; only medication records when the name lacks `CLASSIFICATION` |
| Extractor.AnythingUseful | parse.py:117-161 | one printed line per record, and each line reads back as its record |
| ExtractorProperties.HistoryIsClassificationMedication | parse.py:125-161 | the `HISTORY` branch prints, for every chunk, exactly the medication lines the `CLASSIFICATION` branch prints for it |
| ExtractorProperties.BothKeysPrintMedicationTwice | parse.py:125-161 | a name holding both keys prints each medication chunk twice, first from the `CLASSIFICATION` branch and then from the `HISTORY` branch |
| ExtractorProperties.HistoryOnlyPrintsMedication | parse.py:151-161 | a name without `CLASSIFICATION` prints only `Medication:` lines |
| ExtractorProperties.PrescriptionListRecords | parse.py:132-135 | a `PRESCRIPTIONLIST` prints one line per `PRESCRIPTION` chunk at any depth, each the flattening of a `PRESCRIPTION` subtree |
| ExtractorProperties.SemiologyRecords | parse.py:138-141 | a `SEMIOLOGY` chunk prints one line per `SEMITEM` chunk at any depth, each the flattening of a `SEMITEM` subtree |
| ExtractorProperties.ComorbidityRecords | parse.py:142-145 | a `COMORBIDITY` chunk prints one line per comma of its flattening, plus one; each line is a stripped comma-separated piece, in order |
| ExtractorProperties.LeadingCommaGivesEmptyRecord | parse.py:142-145 | a leading comma is not skipped: the empty piece before it is printed as an empty comorbidity line |
| ExtractorProperties.SentenceLinesFacts | parse.py:186-189 | over a sentence's top-level children: every line reads back as a record; nothing without a key; only medication lines without `CLASSIFICATION` |
| Pipeline.SentenceTreeAgrees | parse.py:170-183 | a sentence none of whose words the event-row correction affects gives the same chunk tree under the program as written and the corrected one |
| Pipeline.SectionOutputAgrees | parse.py:172-189 | a section none of whose words the correction affects prints the same lines under both programs |
| Pipeline.CorrectionOnlyTouchesEpisodeWords | parse.py:166-189 | on sections with no `episode`/`Episode` word other than `Episode(s)`/`episode(s)`, the program as written (`Pipeline.Program`, tag table exactly as written) prints exactly what the corrected program prints |
| Pipeline.SentenceTrees | parse.py:172-183 | one chunk tree per sentence |
| Pipeline.SectionOutputFacts | parse.py:167-189 | a section's lines all read back as records; a section whose name holds neither key prints nothing; one without `CLASSIFICATION` prints only medication lines |
| Pipeline.ParseSectionsAreRecords | parse.py:166-189 | every line the program prints reads back as a record |
| Pipeline.UnkeyedSectionsDropOut | parse.py:166-189 | removing the sections whose names hold neither key leaves the output unchanged |
| Pipeline.ParseSectionsAppend | parse.py:166-189 | the output for two runs of sections is the first run's output followed by the second's |
| Pipeline.PrintSentence | parse.py:186-189 | the loop over the top-level children prints what the sentence model describes |
| Pipeline.RunSection | parse.py:172-189 | one section, sentence by sentence: tagged, chunked and printed in order |
| Pipeline.RunSections | parse.py:166-189 | the loop over the sections prints what `ParseSections` describes |
| ExtractorScenarios.PrescriptionScenario | parse.py:130-131 | `100mg Topamax BID` as a `PRESCRIPTION` chunk in a `CLASSIFICATION` section is one medication record |
| ExtractorScenarios.FrequencyPhraseScenario | parse.py:128-129 | `Daily while hospitalized` as an `FRBP` chunk is one seizure-frequency record |
| ExtractorScenarios.UnkeyedScenario | parse.py:125-151 | `SUMMARY` prints nothing for any chunk, and neither does `Classification of episodes`: the keys are case-sensitive |
| Text.Lower | parse.py:24 | lower-casing keeps the length, turns every capital into its own small letter (32 code points on), leaves no upper-case letter, and changes no other character |
| Text.CaseVariantsLowerAlike | parse.py:24 | two words that differ only in the case of their letters have the same lower-cased form, so the lookup cannot tell them apart |
| Text.Strip | parse.py:145 | `strip()` gives a piece of the string with no whitespace at either end, and only whitespace is removed around it |
| Text.StripIdempotent | parse.py:145 | stripping twice is stripping once |
| Text.Split | parse.py:143 | `split(",")` gives one piece more than there are commas; no piece holds a comma, and joining the pieces with commas gives back the text |
| Text.SplitJoin | parse.py:143 | splitting a comma-join of comma-free pieces gives back the pieces |
| Text.MissingCharNotContained | parse.py:125-151 | a name lacking one of a key's letters does not contain the key |

## Left out

- The chunk grammar (parse.py:65-99) and `nltk.RegexpParser` (parse.py:180-183) are not modelled. Their cascade and matching rules live in NLTK, not in this program. The chunker is a parameter (`Pipeline.Chunker`).
- The maxent statistical tagger loaded at parse.py:168 is not modelled. It is a caller-supplied total function of the words, the position and the earlier tags (`Tagger.Fallback`).
- `sent_tokenize` and `word_tokenize` (parse.py:172-173) are external text segmentation. They are parameters (`Pipeline.Splitter`).
- Reading `drugs.txt` (parse.py:17) is not modelled. The constructor takes the file's lines.
- Loading the JSON file, the `sys.argv` defaults and the debug print of the tree (parse.py:184-185, parse.py:191-196) are I/O and are left out.
- Printing is modelled as returning lines.
- `dict.iteritems()` order (parse.py:167) is whatever Python's dictionary yields. The model takes the sections as a sequence in that order.
- Reloading the taggers for every section (parse.py:168-170) only costs time. It is not modelled.
- Non-ASCII text is not modelled. `Text.Lower` covers the ASCII letters only, and `Text.IsSpace` the C `isspace` whitespace characters. Python 2's `unicode.lower()` and `strip()` cover more.
- The `isinstance(item, Tree)` test is the `Leaf`/`Node` distinction of the tree datatype.
- The concrete comorbidity examples are not stated as lemmas. `ExtractorProperties.ComorbidityRecords` and `ExtractorProperties.LeadingCommaGivesEmptyRecord` state the general behaviour instead.

## Findings

| source | as written | input that shows it | evidently intended | confidence | as-written member | corrected member |
|---|---|---|---|---|---|---|
| parse.py:54 | `^([Ee]pisode(s)?)\|([Ss]pasm(s)?)$`: the alternation binds looser than the anchors. So the first alternative is `^[Ee]pisode` with no end anchor, and any word that begins with it matches | `episode-related` is tagged `SEMEV` | `^(([Ee]pisode(s)?)\|([Ss]pasm(s)?))$`, anchored like every other row: exactly `Episode`, `Episodes`, `episode`, `episodes`, `Spasm`, `Spasms`, `spasm`, `spasms` | medium, not executed | TaggerProperties.EpisodeRelatedAsWritten | TaggerProperties.TablesAgreeOutsideEpisodePrefix |

The table as written is `Tagger.TokenTable`, with row `Tagger.IsEventAsWritten`,
and `Pipeline.Program` tags with it, as the code does.
`TaggerProperties.EpisodeRelatedCounterexample` sets the two tables side
by side on `episode-related`.
`TaggerProperties.EpisodePrefixIsEvent` shows that every
`episode…`/`Episode…` word is `SEMEV` as written. The corrected table is
`Tagger.CorrectedTable`, whose event row `Tagger.IsEvent` is anchored at both
ends; `Pipeline.CorrectedProgram` tags with it.
`TaggerProperties.EventRows` relates the two event rows,
`TaggerProperties.TablesAgreeOutsideEpisodePrefix` shows that the
correction changes no other word's tag, and
`Pipeline.CorrectionOnlyTouchesEpisodeWords` lifts this to the printed
output.
