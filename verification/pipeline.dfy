/**
 * `parse_sections` (parse.py:166-189): for every section, join its lines,
 * split the text into sentences, tag each sentence's words with the backoff
 * chain, chunk the tagged words, and hand every top-level child of the
 * chunk tree to `anything_useful`. Sentence splitting, word splitting and
 * the chunk grammar are supplied by the caller.
 */
module Pipeline {
  import opened Text
  import opened Tagger
  import opened ChunkTree
  import opened Extractor
  import opened ExtractorProperties
  import opened TaggerProperties
  import opened Seqs

  /** `sent_tokenize` or `word_tokenize`. */
  type Splitter = string -> seq<string>

  /** `RegexpParser(parse_rules).parse`: tagged words to a chunk tree. */
  type Chunker = seq<(string, string)> -> Tree

  /** One entry of the input document: a section name and its lines. */
  datatype Section = Section(name: string, lines: seq<string>)

  /**
   * Everything the pipeline needs besides the sections: the tag table, the
   * lines of the drug list, the statistical tagger, the two splitters and
   * the chunk parser.
   */
  datatype Tools = Tools(table: seq<Row>, drugLines: seq<string>, fallback: Fallback,
                         sentences: Splitter, words: Splitter, chunk: Chunker)

  /** The tools parse.py:168-180 builds: the tag table as written, then the rest as given. */
  function Program(drugLines: seq<string>, fallback: Fallback, sentences: Splitter,
                   words: Splitter, chunk: Chunker): Tools
  {
    Tools(TokenTable, drugLines, fallback, sentences, words, chunk)
  }

  /** The same tools with the seizure-event row anchored at both ends. */
  function CorrectedProgram(drugLines: seq<string>, fallback: Fallback, sentences: Splitter,
                            words: Splitter, chunk: Chunker): Tools
  {
    Tools(CorrectedTable, drugLines, fallback, sentences, words, chunk)
  }

  /** The chunk tree of one sentence. */
  function SentenceTree(tools: Tools, sentence: string): Tree
  {
    tools.chunk(TagWords(tools.table, DrugSet(tools.drugLines), tools.fallback, tools.words(sentence)))
  }

  /** The chunk trees of the sentences, in order. */
  function SentenceTrees(tools: Tools, sents: seq<string>): (r: seq<Tree>)
    ensures |r| == |sents|
  {
    seq(|sents|, i requires 0 <= i < |sents| => SentenceTree(tools, sents[i]))
  }

  /** What one section prints for one sentence's chunk tree. */
  function SentencePrinter(name: string): Tree -> seq<string>
  {
    t => SentenceLines(name, t)
  }

  /** The lines printed for one section: every sentence's lines, in order. */
  function SectionOutput(tools: Tools, s: Section): seq<string>
  {
    ConcatMap(SentencePrinter(s.name), SentenceTrees(tools, tools.sentences(JoinSpace(s.lines))))
  }

  /**
   * What a section prints: lines that read back as records, none when its
   * name holds neither key, and only medication lines when its name does not
   * hold `CLASSIFICATION`.
   */
  lemma SectionOutputFacts(tools: Tools, s: Section)
    ensures forall i :: 0 <= i < |SectionOutput(tools, s)| ==> ParseLine(SectionOutput(tools, s)[i]).Some?
    ensures !Keyed(s) ==> SectionOutput(tools, s) == []
    ensures !Contains(s.name, CLASSIFICATION) ==>
      forall i :: 0 <= i < |SectionOutput(tools, s)| ==> StartsWith(SectionOutput(tools, s)[i], "Medication: ")
  {
    var f, trees := SentencePrinter(s.name), SentenceTrees(tools, tools.sentences(JoinSpace(s.lines)));
    forall t | t in trees {
      SentenceLinesFacts(s.name, t);
    }
    ConcatMapAll(f, trees, line => ParseLine(line).Some?);
    if !Contains(s.name, CLASSIFICATION) {
      ConcatMapAll(f, trees, line => StartsWith(line, "Medication: "));
      if !Keyed(s) {
        ConcatMapEmpty(f, trees);
      }
    }
  }

  /** `parse_sections` as a function: what every section prints, in the order given. */
  function SectionPrinter(tools: Tools): Section -> seq<string>
  {
    s => SectionOutput(tools, s)
  }

  /** The lines printed for the sections, in the order given. */
  function ParseSections(tools: Tools, sections: seq<Section>): seq<string>
  {
    ConcatMap(SectionPrinter(tools), sections)
  }

  /** A section whose name holds `CLASSIFICATION` or `HISTORY`. */
  predicate Keyed(s: Section) {
    Contains(s.name, CLASSIFICATION) || Contains(s.name, HISTORY)
  }

  /** Every line the program prints reads back as a record. */
  lemma ParseSectionsAreRecords(tools: Tools, sections: seq<Section>)
    ensures forall i :: 0 <= i < |ParseSections(tools, sections)| ==> ParseLine(ParseSections(tools, sections)[i]).Some?
  {
    forall s | s in sections {
      SectionOutputFacts(tools, s);
    }
    ConcatMapAll(SectionPrinter(tools), sections, line => ParseLine(line).Some?);
  }

  /** Sections whose names hold neither key can be removed without changing the output. */
  lemma UnkeyedSectionsDropOut(tools: Tools, sections: seq<Section>)
    ensures ParseSections(tools, Filter(Keyed, sections)) == ParseSections(tools, sections)
  {
    forall s | s in sections {
      SectionOutputFacts(tools, s);
    }
    ConcatMapFilter(SectionPrinter(tools), Keyed, sections);
  }

  /** The output for consecutive runs of sections is the output for each run, in order. */
  lemma ParseSectionsAppend(tools: Tools, a: seq<Section>, b: seq<Section>)
    ensures ParseSections(tools, a + b) == ParseSections(tools, a) + ParseSections(tools, b)
  {
    ConcatMapAppend(SectionPrinter(tools), a, b);
  }

  /** The loop at parse.py:188-189: every top-level child of one chunk tree handed to `anything_useful`. */
  method PrintSentence(name: string, tree: Tree) returns (printed: seq<string>)
    ensures printed == SentenceLines(name, tree)
  {
    printed := [];
    if tree.Node? {
      for c := 0 to |tree.children|
        invariant printed == ConcatMap(ChildPrinter(name), tree.children[..c])
      {
        assert tree.children[..c + 1][..c] == tree.children[..c];
        printed := printed + AnythingUseful(name, tree.children[c]);
      }
      assert tree.children[..|tree.children|] == tree.children;
    }
  }

  /** parse.py:172-189 for one section: its sentences tagged, chunked and printed in order. */
  method RunSection(tools: Tools, drugs: set<string>, section: Section) returns (lines: seq<string>)
    requires drugs == DrugSet(tools.drugLines)
    ensures lines == SectionOutput(tools, section)
  {
    var sents := tools.sentences(JoinSpace(section.lines));
    ghost var trees := SentenceTrees(tools, sents);
    lines := [];
    for j := 0 to |sents|
      invariant lines == ConcatMap(SentencePrinter(section.name), trees[..j])
    {
      var tagged := TagSentence(tools.table, drugs, tools.fallback, tools.words(sents[j]));
      var printed := PrintSentence(section.name, tools.chunk(tagged));
      assert trees[..j + 1][..j] == trees[..j];
      lines := lines + printed;
    }
    assert trees[..|sents|] == trees;
  }

  /** The loop of parse.py:166-189 over the sections, in order. */
  method RunSections(tools: Tools, sections: seq<Section>) returns (out: seq<string>)
    ensures out == ParseSections(tools, sections)
  {
    out := [];
    var drugs := DrugSet(tools.drugLines);
    for s := 0 to |sections|
      invariant out == ParseSections(tools, sections[..s])
    {
      var lines := RunSection(tools, drugs, sections[s]);
      assert sections[..s + 1][..s] == sections[..s];
      out := out + lines;
    }
    assert sections[..|sections|] == sections;
  }

  /** Every word of every sentence of the sections is one the event-row correction leaves alone. */
  predicate NoStrayEpisode(sentences: Splitter, words: Splitter, sections: seq<Section>) {
    forall s, sent, w :: s in sections && sent in sentences(JoinSpace(s.lines)) && w in words(sent) ==> Unaffected(w)
  }

  /** A sentence none of whose words the correction affects gives the same chunk tree under both programs. */
  lemma SentenceTreeAgrees(p: Tools, c: Tools, sent: string)
    requires p == c.(table := TokenTable) && c.table == CorrectedTable
    requires forall w :: w in p.words(sent) ==> Unaffected(w)
    ensures SentenceTree(p, sent) == SentenceTree(c, sent)
  {
    var ws := p.words(sent);
    assert forall k :: 0 <= k < |ws| ==> Unaffected(ws[k]) by {
      forall k | 0 <= k < |ws|
        ensures Unaffected(ws[k])
      {
        assert ws[k] in ws;
      }
    }
    TagWordsAsWritten(DrugSet(p.drugLines), p.fallback, ws);
  }

  /** A section none of whose words the correction affects prints the same lines under both programs. */
  lemma SectionOutputAgrees(p: Tools, c: Tools, s: Section)
    requires p == c.(table := TokenTable) && c.table == CorrectedTable
    requires forall sent, w :: sent in p.sentences(JoinSpace(s.lines)) && w in p.words(sent) ==> Unaffected(w)
    ensures SectionOutput(p, s) == SectionOutput(c, s)
  {
    var sents := p.sentences(JoinSpace(s.lines));
    forall i | 0 <= i < |sents|
      ensures SentenceTree(p, sents[i]) == SentenceTree(c, sents[i])
    {
      assert sents[i] in sents;
      SentenceTreeAgrees(p, c, sents[i]);
    }
    assert SentenceTrees(p, sents) == SentenceTrees(c, sents);
  }

  /**
   * On sections with no `episode`/`Episode` word other than the four
   * spellings of `Episode(s)`, the program as written prints exactly what
   * the corrected program prints.
   */
  lemma CorrectionOnlyTouchesEpisodeWords(drugLines: seq<string>, fallback: Fallback, sentences: Splitter,
                                          words: Splitter, chunk: Chunker, sections: seq<Section>)
    ensures NoStrayEpisode(sentences, words, sections) ==>
      ParseSections(Program(drugLines, fallback, sentences, words, chunk), sections)
      == ParseSections(CorrectedProgram(drugLines, fallback, sentences, words, chunk), sections)
  {
    var p := Program(drugLines, fallback, sentences, words, chunk);
    var c := CorrectedProgram(drugLines, fallback, sentences, words, chunk);
    if NoStrayEpisode(sentences, words, sections) {
      forall s | s in sections
        ensures SectionOutput(p, s) == SectionOutput(c, s)
      {
        SectionOutputAgrees(p, c, s);
      }
      ConcatMapSame(SectionPrinter(p), SectionPrinter(c), sections);
    }
  }
}
