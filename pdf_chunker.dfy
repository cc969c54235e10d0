/** chunk_pdf: the chunker for text extracted from financial PDF reports.
    The text is first cut into sections at lines that open a section (a
    statement, the notes, a part or item of the filing, the table of
    contents); a section holding a dollar amount is kept whole as a table,
    any other section is cut into sentences that are packed greedily into
    chunks of at most `chunkSize` tokens.

    The sentence splitter and the tokenizer are parameters. */
module PdfChunker {
  import opened Common

  /** The markers as the source lists them. */
  const SectionMarkers: seq<string> :=
    ["CONSOLIDATED STATEMENTS OF", "NOTES TO", "PART ", "Item ", "TABLE OF CONTENTS"]

  /** The test as written: the stripped, upper-cased line starts with one of
      the markers. The mixed-case marker "Item " can never match. */
  predicate StartsSectionAsWritten(line: string)
  {
    exists m | m in SectionMarkers :: StartsWith(Upper(Strip(line)), m)
  }

  /** The test as intended: the stripped line starts with a marker in any
      letter case. */
  predicate StartsSection(line: string)
  {
    exists m | m in SectionMarkers :: StartsWith(Upper(Strip(line)), Upper(m))
  }

  /** An upper-cased text never holds a lower-case ASCII letter, so the
      as-written test never recognises an "Item" line. */
  lemma ItemMarkerNeverMatches(line: string)
    ensures !StartsWith(Upper(Strip(line)), "Item ")
  {
    var u := Upper(Strip(line));
    if |u| >= 5 {
      assert u[1] == UpperChar(Strip(line)[1]) != 't';
      assert u[..5][1] == u[1];
    }
  }

  lemma StripUnchanged(s: string)
    requires s == [] || (!IsSpace(s[0]) && !IsSpace(s[|s| - 1]))
    ensures Strip(s) == s
  {
  }

  /** A line whose stripped text starts with "Item " in any letter case
      ("Item 7", "ITEM 1A.") opens no section as written, and opens one as
      intended. */
  lemma ItemLineOpensNoSection(line: string)
    requires StartsWith(Upper(Strip(line)), "ITEM ")
    ensures !StartsSectionAsWritten(line)
    ensures StartsSection(line)
  {
    var u := Upper(Strip(line));
    ItemMarkerNeverMatches(line);
    forall m | m in SectionMarkers
      ensures !StartsWith(u, m)
    {
      if m != "Item " {
        assert u[..5][0] == 'I';
        assert m[0] != 'I';
      }
    }
    assert Upper("Item ") == "ITEM ";
    assert "Item " in SectionMarkers;
  }

  /** A filing line "Item 7" opens no section as written, and opens one as
      intended. */
  lemma ItemLineMissed()
    ensures !StartsSectionAsWritten("Item 7")
    ensures StartsSection("Item 7")
  {
    StripUnchanged("Item 7");
    assert Upper("Item 7")[..5] == "ITEM ";
    ItemLineOpensNoSection("Item 7");
  }

  /** A line whose stripped text starts with any of the markers, spelled as
      listed, opens a section. */
  lemma MarkerLineStartsSection(line: string, m: string)
    requires m in SectionMarkers && StartsWith(Strip(line), m)
    ensures StartsSection(line)
  {
    var s := Strip(line);
    assert Upper(s)[..|m|] == Upper(m) by {
      forall k | 0 <= k < |m|
        ensures Upper(s)[..|m|][k] == Upper(m)[k]
      {
        assert s[k] == m[k];
      }
    }
  }

  /** The line groups of the sections, given the lines, the position of the
      next line, the lines of the section being collected and the test for a
      line that opens a section. */
  function Groups(lines: seq<string>, i: nat, current: seq<string>, opens: string -> bool): seq<seq<string>>
    requires i <= |lines|
    decreases |lines| - i
  {
    if i == |lines| then (if current != [] then [current] else [])
    else if opens(lines[i]) && current != [] then
      [current] + Groups(lines, i + 1, [lines[i]], opens)
    else
      Groups(lines, i + 1, current + [lines[i]], opens)
  }

  /** sep.join of every group. */
  function JoinAll(groups: seq<seq<string>>, sep: string): (texts: seq<string>)
    ensures |texts| == |groups|
    ensures forall k :: 0 <= k < |groups| ==> texts[k] == Join(groups[k], sep)
  {
    seq(|groups|, k requires 0 <= k < |groups| => Join(groups[k], sep))
  }

  /** The sections of a text: its lines grouped at the lines that open a
      section, each group joined with newlines. chunk_pdf as written runs
      with `StartsSectionAsWritten`, as intended with `StartsSection`. */
  function Sections(content: string, opens: string -> bool): seq<string>
  {
    JoinAll(Groups(SplitLines(content), 0, [], opens), "\n")
  }

  method SplitSections(content: string, opens: string -> bool) returns (sections: seq<string>)
    ensures sections == Sections(content, opens)
  {
    var lines := SplitLines(content);
    ghost var groups: seq<seq<string>> := [];
    sections := [];
    var currentSection: seq<string> := [];
    for i := 0 to |lines|
      invariant sections == JoinAll(groups, "\n")
      invariant groups + Groups(lines, i, currentSection, opens) == Groups(lines, 0, [], opens)
    {
      var line := lines[i];
      if opens(line) && currentSection != [] {
        sections := sections + [Join(currentSection, "\n")];
        groups := groups + [currentSection];
        currentSection := [line];
      } else {
        currentSection := currentSection + [line];
      }
    }
    if currentSection != [] {
      sections := sections + [Join(currentSection, "\n")];
      groups := groups + [currentSection];
    }
  }

  /** Grouping keeps every line, in order. */
  lemma {:induction false} GroupsFlatten(lines: seq<string>, i: nat, current: seq<string>, opens: string -> bool)
    requires i <= |lines|
    ensures Flatten(Groups(lines, i, current, opens)) == current + lines[i..]
    decreases |lines| - i
  {
    if i == |lines| {
      if current != [] {
        assert Flatten([current]) == current + Flatten<string>([]);
      }
    } else {
      assert lines[i..] == [lines[i]] + lines[i + 1..];
      if opens(lines[i]) && current != [] {
        GroupsFlatten(lines, i + 1, [lines[i]], opens);
        assert Flatten([current] + Groups(lines, i + 1, [lines[i]], opens))
            == current + Flatten(Groups(lines, i + 1, [lines[i]], opens));
      } else {
        GroupsFlatten(lines, i + 1, current + [lines[i]], opens);
      }
    }
  }

  /** The shape of the grouping: no group is empty, every group but the
      first starts with a line that opens a section, and no line after the
      first of a group opens one. */
  lemma {:induction false} GroupsShape(lines: seq<string>, i: nat, current: seq<string>, opens: string -> bool)
    requires i <= |lines|
    requires forall j | 1 <= j < |current| :: !opens(current[j])
    ensures var g := Groups(lines, i, current, opens);
      && (current != [] ==> |g| > 0 && g[0] != [] && g[0][0] == current[0])
      && (forall k | 0 <= k < |g| :: g[k] != [])
      && (forall k | 1 <= k < |g| :: opens(g[k][0]))
      && (forall k, j | 0 <= k < |g| && 1 <= j < |g[k]| :: !opens(g[k][j]))
    decreases |lines| - i
  {
    if i < |lines| {
      if opens(lines[i]) && current != [] {
        GroupsShape(lines, i + 1, [lines[i]], opens);
      } else {
        var next := current + [lines[i]];
        assert forall j | 1 <= j < |next| :: !opens(next[j]) by {
          forall j | 1 <= j < |next|
            ensures !opens(next[j])
          {
            if j < |current| { assert next[j] == current[j]; }
          }
        }
        GroupsShape(lines, i + 1, next, opens);
      }
    }
  }

  /** As written, no section after the first starts with an "Item" line:
      such a line always stays inside the section before it. As intended,
      every "Item" line after the first line starts a section of its own. */
  lemma ItemLinesInSections(lines: seq<string>)
    ensures var g := Groups(lines, 0, [], StartsSectionAsWritten);
      forall k, j | 0 <= k < |g| && 0 <= j < |g[k]| && (k > 0 || j > 0) ::
        StartsWith(Upper(Strip(g[k][j])), "ITEM ") ==> j > 0
    ensures var g := Groups(lines, 0, [], StartsSection);
      forall k, j | 0 <= k < |g| && 0 <= j < |g[k]| && (k > 0 || j > 0) ::
        StartsWith(Upper(Strip(g[k][j])), "ITEM ") ==> j == 0
  {
    GroupsShape(lines, 0, [], StartsSectionAsWritten);
    GroupsShape(lines, 0, [], StartsSection);
    var g := Groups(lines, 0, [], StartsSectionAsWritten);
    forall k, j | 0 <= k < |g| && 0 <= j < |g[k]| && (k > 0 || j > 0) && StartsWith(Upper(Strip(g[k][j])), "ITEM ")
      ensures j > 0
    {
      ItemLineOpensNoSection(g[k][j]);
    }
    var h := Groups(lines, 0, [], StartsSection);
    forall k, j | 0 <= k < |h| && 0 <= j < |h[k]| && (k > 0 || j > 0) && StartsWith(Upper(Strip(h[k][j])), "ITEM ")
      ensures j == 0
    {
      ItemLineOpensNoSection(h[k][j]);
    }
  }

  /** Two "Item 7" lines: one section as written, two as intended. */
  lemma ItemSectionsDiffer()
    ensures Groups(["Item 7", "Item 7"], 0, [], StartsSectionAsWritten) == [["Item 7", "Item 7"]]
    ensures Groups(["Item 7", "Item 7"], 0, [], StartsSection) == [["Item 7"], ["Item 7"]]
  {
    var lines := ["Item 7", "Item 7"];
    ItemLineMissed();
    assert [] + [lines[0]] == ["Item 7"] && ["Item 7"] + [lines[1]] == lines;
    assert Groups(lines, 0, [], StartsSectionAsWritten) == Groups(lines, 1, ["Item 7"], StartsSectionAsWritten);
    assert Groups(lines, 1, ["Item 7"], StartsSectionAsWritten) == Groups(lines, 2, ["Item 7", "Item 7"], StartsSectionAsWritten);
    assert Groups(lines, 0, [], StartsSection) == Groups(lines, 1, ["Item 7"], StartsSection);
    assert Groups(lines, 1, ["Item 7"], StartsSection) == [["Item 7"]] + Groups(lines, 2, ["Item 7"], StartsSection);
  }

  /** Joining the sections with newlines gives back the lines joined with
      newlines: cutting into sections loses no text. */
  lemma {:induction false} JoinAllFlatten(groups: seq<seq<string>>, sep: string)
    requires forall k | 0 <= k < |groups| :: groups[k] != []
    ensures Join(JoinAll(groups, sep), sep) == Join(Flatten(groups), sep)
  {
    if |groups| > 1 {
      var rest := groups[1..];
      JoinAllFlatten(rest, sep);
      assert JoinAll(groups, sep) == [Join(groups[0], sep)] + JoinAll(rest, sep);
      assert Flatten(groups) == groups[0] + Flatten(rest);
      assert |Flatten(rest)| >= |rest[0]| > 0;
      JoinAppend(groups[0], Flatten(rest), sep);
    } else if |groups| == 1 {
      assert groups[1..] == [];
      assert Flatten(groups) == groups[0] + Flatten<string>([]);
      assert JoinAll(groups, sep) == [Join(groups[0], sep)];
      assert Join([Join(groups[0], sep)], sep) == Join(groups[0], sep);
      assert Flatten(groups) == groups[0];
    }
  }

  /** The sections, joined with newlines, are the lines of the text joined
      with newlines. */
  lemma SectionsLossless(content: string, opens: string -> bool)
    ensures Join(Sections(content, opens), "\n") == Join(SplitLines(content), "\n")
  {
    var lines := SplitLines(content);
    GroupsFlatten(lines, 0, [], opens);
    GroupsShape(lines, 0, [], opens);
    assert lines[0..] == lines;
    assert Flatten(Groups(lines, 0, [], opens)) == lines;
    JoinAllFlatten(Groups(lines, 0, [], opens), "\n");
  }

  /** A character the class [\d,] matches (ASCII digits). */
  predicate IsAmountChar(c: char)
  {
    '0' <= c <= '9' || c == ','
  }

  /** \s*[\d,]+ matches at position j. */
  predicate AmountAt(s: string, j: nat)
    decreases |s| - j
  {
    j < |s| && (IsAmountChar(s[j]) || (IsSpace(s[j]) && AmountAt(s, j + 1)))
  }

  /** re.search(r'\$\s*[\d,]+', s) finds a match at or after position i. */
  predicate HasTableFrom(s: string, i: nat)
    decreases |s| - i
  {
    i < |s| && ((s[i] == '$' && AmountAt(s, i + 1)) || HasTableFrom(s, i + 1))
  }

  /** has_table: the section holds a dollar amount. */
  predicate HasTable(section: string)
  {
    HasTableFrom(section, 0)
  }

  /** The pattern, read directly: a dollar sign, then only whitespace up to a
      digit or a comma. */
  ghost predicate MatchesAt(s: string, i: int)
  {
    0 <= i < |s| && s[i] == '$'
    && exists k :: i < k < |s| && AllSpace(s[i + 1..k]) && IsAmountChar(s[k])
  }

  lemma {:induction false} AmountAtIff(s: string, j: nat)
    ensures AmountAt(s, j) <==> exists k :: j <= k < |s| && AllSpace(s[j..k]) && IsAmountChar(s[k])
    decreases |s| - j
  {
    if j < |s| {
      AmountAtIff(s, j + 1);
      if AmountAt(s, j) && !IsAmountChar(s[j]) {
        var k :| j + 1 <= k < |s| && AllSpace(s[j + 1..k]) && IsAmountChar(s[k]);
        assert AllSpace(s[j..k]) by {
          forall t | 0 <= t < k - j
            ensures IsSpace(s[j..k][t])
          {
            if t > 0 { assert s[j..k][t] == s[j + 1..k][t - 1]; }
          }
        }
      }
      if exists k :: j <= k < |s| && AllSpace(s[j..k]) && IsAmountChar(s[k]) {
        var k :| j <= k < |s| && AllSpace(s[j..k]) && IsAmountChar(s[k]);
        if k > j {
          assert IsSpace(s[j..k][0]);
          assert AllSpace(s[j + 1..k]) by {
            forall t | j + 1 <= t < k
              ensures IsSpace(s[t])
            {
              assert s[t] == s[j..k][t - j];
            }
          }
        }
      }
    }
  }

  lemma {:induction false} HasTableFromIff(s: string, i: nat)
    ensures HasTableFrom(s, i) <==> exists p :: i <= p < |s| && MatchesAt(s, p)
    decreases |s| - i
  {
    if i < |s| {
      HasTableFromIff(s, i + 1);
      AmountAtIff(s, i + 1);
      if s[i] == '$' && AmountAt(s, i + 1) {
        var k :| i + 1 <= k < |s| && AllSpace(s[i + 1..k]) && IsAmountChar(s[k]);
        assert MatchesAt(s, i);
      }
      if exists p :: i <= p < |s| && MatchesAt(s, p) {
        var p :| i <= p < |s| && MatchesAt(s, p);
        if p == i {
          var k :| i < k < |s| && AllSpace(s[i + 1..k]) && IsAmountChar(s[k]);
          assert i + 1 <= k;
        }
      }
    }
  }

  /** has_table holds exactly when the pattern matches somewhere. */
  lemma HasTableIff(section: string)
    ensures HasTable(section) <==> exists p :: 0 <= p < |section| && MatchesAt(section, p)
  {
    HasTableFromIff(section, 0);
  }

  /** The number of tokens of a run of sentences. */
  function TokenCount(sentences: seq<string>, tokenize: string -> seq<string>): nat
  {
    if sentences == [] then 0
    else TokenCount(sentences[..|sentences| - 1], tokenize) + |tokenize(sentences[|sentences| - 1])|
  }

  /** The sentence groups of the chunks of a narrative section, given the
      sentences, the position of the next one, the sentences of the chunk
      being built and its length in tokens. */
  function PackSentences(sentences: seq<string>, i: nat, current: seq<string>, currentLength: int,
                         tokenize: string -> seq<string>, chunkSize: int): seq<seq<string>>
    requires i <= |sentences|
    decreases |sentences| - i
  {
    if i == |sentences| then (if current != [] then [current] else [])
    else
      var n := |tokenize(sentences[i])|;
      if currentLength + n > chunkSize && current != [] then
        [current] + PackSentences(sentences, i + 1, [sentences[i]], n, tokenize, chunkSize)
      else
        PackSentences(sentences, i + 1, current + [sentences[i]], currentLength + n, tokenize, chunkSize)
  }

  /** The chunks of one section: a table section whole, a narrative section
      as its sentence groups, each joined with spaces. */
  function SectionChunks(section: string, chunkSize: int,
                         sentTokenize: string -> seq<string>, tokenize: string -> seq<string>): seq<string>
  {
    if HasTable(section) then [section]
    else JoinAll(PackSentences(sentTokenize(section), 0, [], 0, tokenize, chunkSize), " ")
  }

  /** The chunks of a run of sections, in order. */
  function ChunksOf(sections: seq<string>, chunkSize: int,
                    sentTokenize: string -> seq<string>, tokenize: string -> seq<string>): seq<string>
  {
    if sections == [] then []
    else ChunksOf(sections[..|sections| - 1], chunkSize, sentTokenize, tokenize)
         + SectionChunks(sections[|sections| - 1], chunkSize, sentTokenize, tokenize)
  }

  /** What chunk_pdf returns for a text, with the given test for a line
      that opens a section. */
  function PdfChunks(content: string, chunkSize: int,
                     sentTokenize: string -> seq<string>, tokenize: string -> seq<string>,
                     opens: string -> bool): seq<string>
  {
    ChunksOf(Sections(content, opens), chunkSize, sentTokenize, tokenize)
  }

  /** The chunks of one section, as the inner loop of chunk_pdf forms them. */
  method ChunkSection(section: string, chunkSize: int,
                      sentTokenize: string -> seq<string>, tokenize: string -> seq<string>)
    returns (chunks: seq<string>)
    ensures chunks == SectionChunks(section, chunkSize, sentTokenize, tokenize)
  {
    if HasTable(section) {
      return [section];
    }
    var sentences := sentTokenize(section);
    ghost var groups: seq<seq<string>> := [];
    chunks := [];
    var currentChunk: seq<string> := [];
    var currentLength := 0;
    for i := 0 to |sentences|
      invariant chunks == JoinAll(groups, " ")
      invariant groups + PackSentences(sentences, i, currentChunk, currentLength, tokenize, chunkSize)
             == PackSentences(sentences, 0, [], 0, tokenize, chunkSize)
    {
      var sentence := sentences[i];
      var sentenceTokens := tokenize(sentence);
      if currentLength + |sentenceTokens| > chunkSize && currentChunk != [] {
        PackSplit(groups, sentences, i, currentChunk, currentLength, tokenize, chunkSize);
        JoinAllSnoc(groups, currentChunk, " ");
        chunks := chunks + [Join(currentChunk, " ")];
        groups := groups + [currentChunk];
        currentChunk := [sentence];
        currentLength := |sentenceTokens|;
      } else {
        currentChunk := currentChunk + [sentence];
        currentLength := currentLength + |sentenceTokens|;
      }
    }
    if currentChunk != [] {
      JoinAllSnoc(groups, currentChunk, " ");
      chunks := chunks + [Join(currentChunk, " ")];
      groups := groups + [currentChunk];
    } else {
      assert groups + [] == groups;
    }
  }

  lemma JoinAllSnoc(groups: seq<seq<string>>, g: seq<string>, sep: string)
    ensures JoinAll(groups + [g], sep) == JoinAll(groups, sep) + [Join(g, sep)]
  {
    assert forall k :: 0 <= k < |groups| ==> (groups + [g])[k] == groups[k];
  }

  /** The step of the packing that closes the chunk in progress. */
  lemma PackSplit(groups: seq<seq<string>>, sentences: seq<string>, i: nat, current: seq<string>, currentLength: int,
                  tokenize: string -> seq<string>, chunkSize: int)
    requires i < |sentences| && currentLength + |tokenize(sentences[i])| > chunkSize && current != []
    ensures groups + PackSentences(sentences, i, current, currentLength, tokenize, chunkSize)
         == (groups + [current]) + PackSentences(sentences, i + 1, [sentences[i]], |tokenize(sentences[i])|, tokenize, chunkSize)
  {
    var rest := PackSentences(sentences, i + 1, [sentences[i]], |tokenize(sentences[i])|, tokenize, chunkSize);
    assert PackSentences(sentences, i, current, currentLength, tokenize, chunkSize) == [current] + rest;
    assert groups + ([current] + rest) == (groups + [current]) + rest;
  }

  method ChunkPdf(content: string, chunkSize: int,
                  sentTokenize: string -> seq<string>, tokenize: string -> seq<string>,
                  opens: string -> bool)
    returns (chunks: seq<string>)
    ensures chunks == PdfChunks(content, chunkSize, sentTokenize, tokenize, opens)
  {
    var sections := SplitSections(content, opens);
    chunks := [];
    for i := 0 to |sections|
      invariant chunks == ChunksOf(sections[..i], chunkSize, sentTokenize, tokenize)
    {
      var sectionChunks := ChunkSection(sections[i], chunkSize, sentTokenize, tokenize);
      assert sections[..i + 1][..i] == sections[..i];
      chunks := chunks + sectionChunks;
    }
    assert sections[..|sections|] == sections;
  }

  /** Packing keeps every sentence, in order. */
  lemma {:induction false} PackSentencesFlatten(sentences: seq<string>, i: nat, current: seq<string>, currentLength: int,
                                                tokenize: string -> seq<string>, chunkSize: int)
    requires i <= |sentences|
    ensures Flatten(PackSentences(sentences, i, current, currentLength, tokenize, chunkSize)) == current + sentences[i..]
    decreases |sentences| - i
  {
    if i == |sentences| {
      if current != [] {
        assert Flatten([current]) == current + Flatten<string>([]);
      }
    } else {
      var n := |tokenize(sentences[i])|;
      assert sentences[i..] == [sentences[i]] + sentences[i + 1..];
      if currentLength + n > chunkSize && current != [] {
        PackSentencesFlatten(sentences, i + 1, [sentences[i]], n, tokenize, chunkSize);
        assert Flatten([current] + PackSentences(sentences, i + 1, [sentences[i]], n, tokenize, chunkSize))
            == current + Flatten(PackSentences(sentences, i + 1, [sentences[i]], n, tokenize, chunkSize));
      } else {
        PackSentencesFlatten(sentences, i + 1, current + [sentences[i]], currentLength + n, tokenize, chunkSize);
      }
    }
  }

  /** A chunk of sentences is non-empty and fits the budget, unless it is a
      single sentence. */
  predicate WithinBudget(g: seq<string>, tokenize: string -> seq<string>, chunkSize: int)
  {
    g != [] && (|g| == 1 || TokenCount(g, tokenize) <= chunkSize)
  }

  /** With the running length kept equal to the token count of the chunk in
      progress, every chunk is non-empty and either fits the budget or is a
      single sentence. */
  lemma {:induction false} PackSentencesBudget(sentences: seq<string>, i: nat, current: seq<string>, currentLength: int,
                                               tokenize: string -> seq<string>, chunkSize: int)
    requires i <= |sentences|
    requires currentLength == TokenCount(current, tokenize)
    requires |current| <= 1 || TokenCount(current, tokenize) <= chunkSize
    ensures forall g | g in PackSentences(sentences, i, current, currentLength, tokenize, chunkSize) ::
              WithinBudget(g, tokenize, chunkSize)
    decreases |sentences| - i
  {
    var packed := PackSentences(sentences, i, current, currentLength, tokenize, chunkSize);
    if i < |sentences| {
      var s := sentences[i];
      var n := |tokenize(s)|;
      if currentLength + n > chunkSize && current != [] {
        TokenCountSnoc([], s, tokenize);
        assert [] + [s] == [s];
        PackSentencesBudget(sentences, i + 1, [s], n, tokenize, chunkSize);
        var rest := PackSentences(sentences, i + 1, [s], n, tokenize, chunkSize);
        assert packed == [current] + rest;
        forall g | g in packed
          ensures WithinBudget(g, tokenize, chunkSize)
        {
          if g != current { assert g in rest; }
        }
      } else {
        var next := current + [s];
        TokenCountSnoc(current, s, tokenize);
        assert |next| <= 1 || TokenCount(next, tokenize) <= chunkSize;
        PackSentencesBudget(sentences, i + 1, next, currentLength + n, tokenize, chunkSize);
        assert packed == PackSentences(sentences, i + 1, next, currentLength + n, tokenize, chunkSize);
      }
    } else {
      assert packed == if current != [] then [current] else [];
    }
  }

  lemma TokenCountSnoc(current: seq<string>, s: string, tokenize: string -> seq<string>)
    ensures TokenCount(current + [s], tokenize) == TokenCount(current, tokenize) + |tokenize(s)|
  {
    assert (current + [s])[..|current|] == current;
  }

  /** A narrative section's chunks hold all its sentences in order, each
      within the token budget unless it is a single sentence; a table
      section is one chunk. */
  lemma SectionChunksSpec(section: string, chunkSize: int,
                          sentTokenize: string -> seq<string>, tokenize: string -> seq<string>)
    ensures HasTable(section) ==> SectionChunks(section, chunkSize, sentTokenize, tokenize) == [section]
    ensures !HasTable(section) ==>
      var groups := PackSentences(sentTokenize(section), 0, [], 0, tokenize, chunkSize);
      && SectionChunks(section, chunkSize, sentTokenize, tokenize) == JoinAll(groups, " ")
      && Flatten(groups) == sentTokenize(section)
      && forall g | g in groups :: WithinBudget(g, tokenize, chunkSize)
  {
    var sentences := sentTokenize(section);
    PackSentencesFlatten(sentences, 0, [], 0, tokenize, chunkSize);
    assert sentences[0..] == sentences;
    PackSentencesBudget(sentences, 0, [], 0, tokenize, chunkSize);
  }
}
