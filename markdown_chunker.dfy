/** chunk_by_headings and chunk_markdown: a markdown document is cut into one
    section per top-level ATX heading (the heading's text, a blank line, and
    the text of every following top-level node up to the next heading,
    stripped); whatever precedes the first heading is dropped. Each section
    is then packed with chunk_simple. */
module MarkdownChunker {
  import opened Common
  import opened Syntax
  import opened TokenPacker

  predicate IsHeading(n: Node)
  {
    n.kind == "atx_heading"
  }

  /** The first position at or after i that holds a heading, or |ns|. */
  function NextHeading(ns: seq<Node>, i: nat): (j: nat)
    requires i <= |ns|
    ensures i <= j <= |ns|
    ensures forall p :: i <= p < j ==> !IsHeading(ns[p])
    ensures j < |ns| ==> IsHeading(ns[j])
    decreases |ns| - i
  {
    if i == |ns| || IsHeading(ns[i]) then i else NextHeading(ns, i + 1)
  }

  /** The extracted text of every node. */
  function Extracted(ns: seq<Node>): (ts: seq<string>)
    ensures |ts| == |ns| && forall p :: 0 <= p < |ns| ==> ts[p] == ExtractText(ns[p])
  {
    seq(|ns|, p requires 0 <= p < |ns| => ExtractText(ns[p]))
  }

  /** The chunk made of the heading at position h and the nodes after it up
      to position e, given the extracted text of every node (empty for a
      span that does not fit). */
  function Section(ts: seq<string>, h: nat, e: nat): string
  {
    if h < e <= |ts| then Strip(ts[h] + "\n\n" + Flatten(ts[h + 1..e])) else ""
  }

  /** The sections that start at or after position i, as spans: every
      heading opens a section that runs up to the next heading, and the span
      (h, e) stands for the heading at h and the nodes h+1 .. e-1. */
  function SpansFrom(ns: seq<Node>, i: nat): (sp: seq<(nat, nat)>)
    requires i <= |ns|
    decreases |ns| - i
  {
    if i == |ns| then []
    else if !IsHeading(ns[i]) then SpansFrom(ns, i + 1)
    else
      var j := NextHeading(ns, i + 1);
      [(i, j)] + SpansFrom(ns, j)
  }

  /** The chunk of every span, in order. */
  function SectionTexts(ts: seq<string>, sp: seq<(nat, nat)>): seq<string>
  {
    if sp == [] then [] else [Section(ts, sp[0].0, sp[0].1)] + SectionTexts(ts, sp[1..])
  }

  lemma {:induction false} SectionTextsAt(ts: seq<string>, sp: seq<(nat, nat)>)
    ensures |SectionTexts(ts, sp)| == |sp|
    ensures forall m :: 0 <= m < |sp| ==> SectionTexts(ts, sp)[m] == Section(ts, sp[m].0, sp[m].1)
  {
    if sp != [] {
      SectionTextsAt(ts, sp[1..]);
    }
  }

  /** What chunk_by_headings returns for the top-level nodes of a document. */
  function HeadingChunks(ns: seq<Node>): seq<string>
  {
    SectionTexts(Extracted(ns), SpansFrom(ns, 0))
  }

  /** The positions at or after i that hold a heading, in increasing order. */
  function PositionsFrom(ns: seq<Node>, i: nat): (ps: seq<nat>)
    requires i <= |ns|
    ensures forall m :: 0 <= m < |ps| ==> i <= ps[m] < |ns| && IsHeading(ns[ps[m]])
    ensures forall m :: 0 <= m < |ps| - 1 ==> ps[m] < ps[m + 1]
    decreases |ns| - i
  {
    if i == |ns| then []
    else if IsHeading(ns[i]) then [i] + PositionsFrom(ns, i + 1)
    else PositionsFrom(ns, i + 1)
  }

  /** Every heading at or after i is listed. */
  lemma {:induction false} PositionsComplete(ns: seq<Node>, i: nat)
    requires i <= |ns|
    ensures forall p :: i <= p < |ns| && IsHeading(ns[p]) ==> p in PositionsFrom(ns, i)
    decreases |ns| - i
  {
    if i < |ns| {
      PositionsComplete(ns, i + 1);
    }
  }

  function HeadingPositions(ns: seq<Node>): seq<nat>
    ensures forall m :: 0 <= m < |HeadingPositions(ns)| ==> HeadingPositions(ns)[m] < |ns|
    ensures forall m :: 0 <= m < |HeadingPositions(ns)| - 1 ==> HeadingPositions(ns)[m] < HeadingPositions(ns)[m + 1]
  {
    PositionsFrom(ns, 0)
  }

  /** Where the section that opens at the m-th listed heading ends: at the
      next listed heading, or at the end of the document. */
  function SectionEnd(ps: seq<nat>, m: nat, n: nat): nat
    requires m < |ps|
  {
    if m + 1 < |ps| then ps[m + 1] else n
  }

  /** The chunks the loop of chunk_by_headings still emits from position i
      on, given the extracted text of every node, when `current` holds the
      parts of the section being collected (None before the first heading). */
  function Emitted(ns: seq<Node>, ts: seq<string>, i: nat, current: Option<seq<string>>): seq<string>
    requires |ts| == |ns| && i <= |ns|
    decreases |ns| - i
  {
    if i == |ns| then Closed(current)
    else if IsHeading(ns[i]) then Closed(current) + Emitted(ns, ts, i + 1, Some([ts[i] + "\n\n"]))
    else Emitted(ns, ts, i + 1, if current.Some? then Some(current.value + [ts[i]]) else None)
  }

  /** The chunk a section being collected makes when it is closed. */
  function Closed(current: Option<seq<string>>): seq<string>
  {
    if current.Some? then [Strip(Flatten(current.value))] else []
  }

  method ChunkByHeadings(root: Node) returns (chunks: seq<string>)
    ensures chunks == HeadingChunks(root.children)
  {
    var ns := root.children;
    ghost var ts := Extracted(ns);
    chunks := [];
    var currentChunk: seq<string> := [];
    var currentHeading: Option<string> := None;
    for i := 0 to |ns|
      invariant chunks + Emitted(ns, ts, i, if currentHeading.Some? then Some(currentChunk) else None)
             == Emitted(ns, ts, 0, None)
    {
      var node := ns[i];
      if IsHeading(node) {
        if currentHeading.Some? {
          chunks := chunks + [Strip(Flatten(currentChunk))];
        }
        currentHeading := Some(ExtractText(node));
        currentChunk := [currentHeading.value + "\n\n"];
      } else {
        if currentHeading.Some? {
          currentChunk := currentChunk + [ExtractText(node)];
        }
      }
    }
    if currentHeading.Some? {
      chunks := chunks + [Strip(Flatten(currentChunk))];
    }
    EmittedClosed(ns, ts, 0);
  }

  /** Before the first heading nothing is collected: what is emitted from i
      on is the sections of the headings from i on. */
  lemma {:induction false} EmittedClosed(ns: seq<Node>, ts: seq<string>, i: nat)
    requires |ts| == |ns| && i <= |ns|
    ensures Emitted(ns, ts, i, None) == SectionTexts(ts, SpansFrom(ns, i))
    decreases |ns| - i, 1
  {
    if i < |ns| {
      if IsHeading(ns[i]) {
        assert Collected(ts, i, i + 1) == [ts[i] + "\n\n"];
        EmittedOpen(ns, ts, i, i + 1);
      } else {
        EmittedClosed(ns, ts, i + 1);
      }
    }
  }

  /** The parts collected for the section of the heading at h when the loop
      reaches position i. */
  function Collected(ts: seq<string>, h: nat, i: nat): seq<string>
    requires h < i <= |ts|
  {
    [ts[h] + "\n\n"] + ts[h + 1..i]
  }

  /** While the section of the heading at h is being collected, what is
      emitted from i on is that section, ending at the next heading, and
      then the sections of the headings after it. */
  predicate OpenEmits(ns: seq<Node>, ts: seq<string>, h: nat, i: nat)
    requires |ts| == |ns| && h < i <= |ns|
  {
    var j := NextHeading(ns, i);
    Emitted(ns, ts, i, Some(Collected(ts, h, i))) == [Section(ts, h, j)] + SectionTexts(ts, SpansFrom(ns, j))
  }

  lemma {:induction false} EmittedOpen(ns: seq<Node>, ts: seq<string>, h: nat, i: nat)
    requires |ts| == |ns| && h < i <= |ns|
    ensures OpenEmits(ns, ts, h, i)
    decreases |ns| - i, 1
  {
    if i == |ns| {
      OpenAtEnd(ns, ts, h);
    } else if IsHeading(ns[i]) {
      OpenAtHeading(ns, ts, h, i);
    } else {
      OpenAtPlain(ns, ts, h, i);
    }
  }

  lemma OpenAtEnd(ns: seq<Node>, ts: seq<string>, h: nat)
    requires |ts| == |ns| && h < |ns|
    ensures OpenEmits(ns, ts, h, |ns|)
  {
    CollectedSection(ts, h, |ns|);
  }

  lemma CollectedSection(ts: seq<string>, h: nat, i: nat)
    requires h < i <= |ts|
    ensures Strip(Flatten(Collected(ts, h, i))) == Section(ts, h, i)
  {
    assert Collected(ts, h, i)[1..] == ts[h + 1..i];
  }

  lemma {:induction false} OpenAtHeading(ns: seq<Node>, ts: seq<string>, h: nat, i: nat)
    requires |ts| == |ns| && h < i < |ns| && IsHeading(ns[i])
    ensures OpenEmits(ns, ts, h, i)
    decreases |ns| - i, 0
  {
    EmittedOpen(ns, ts, i, i + 1);
    CollectedSection(ts, h, i);
    assert Collected(ts, i, i + 1) == [ts[i] + "\n\n"];
    assert SpansFrom(ns, i) == [(i, NextHeading(ns, i + 1))] + SpansFrom(ns, NextHeading(ns, i + 1));
  }

  lemma {:induction false} OpenAtPlain(ns: seq<Node>, ts: seq<string>, h: nat, i: nat)
    requires |ts| == |ns| && h < i < |ns| && !IsHeading(ns[i])
    ensures OpenEmits(ns, ts, h, i)
    decreases |ns| - i, 0
  {
    EmittedOpen(ns, ts, h, i + 1);
    CollectedSnoc(ts, h, i);
    EmittedPlain(ns, ts, i, Collected(ts, h, i));
    assert NextHeading(ns, i) == NextHeading(ns, i + 1);
  }

  lemma CollectedSnoc(ts: seq<string>, h: nat, i: nat)
    requires h < i < |ts|
    ensures Collected(ts, h, i) + [ts[i]] == Collected(ts, h, i + 1)
  {
    assert ts[h + 1..i + 1] == ts[h + 1..i] + [ts[i]];
  }

  /** A node that is not a heading joins the section being collected. */
  lemma EmittedPlain(ns: seq<Node>, ts: seq<string>, i: nat, parts: seq<string>)
    requires |ts| == |ns| && i < |ns| && !IsHeading(ns[i])
    ensures Emitted(ns, ts, i, Some(parts)) == Emitted(ns, ts, i + 1, Some(parts + [ts[i]]))
  {
  }

  /** Positions before the next heading hold no section and no heading. */
  lemma {:induction false} SkipToHeading(ns: seq<Node>, i: nat)
    requires i <= |ns|
    ensures SpansFrom(ns, i) == SpansFrom(ns, NextHeading(ns, i))
    ensures PositionsFrom(ns, i) == PositionsFrom(ns, NextHeading(ns, i))
    decreases |ns| - i
  {
    if i < |ns| && !IsHeading(ns[i]) {
      SkipToHeading(ns, i + 1);
    }
  }

  /** The spans from position i pair every listed heading with the next
      listed heading (or the end of the document). */
  predicate SpansAt(ns: seq<Node>, i: nat)
    requires i <= |ns|
  {
    var ps := PositionsFrom(ns, i);
    var sp := SpansFrom(ns, i);
    |sp| == |ps| && forall m :: 0 <= m < |ps| ==> sp[m] == (ps[m], SectionEnd(ps, m, |ns|))
  }

  lemma {:induction false} SpansFromPositions(ns: seq<Node>, i: nat)
    requires i <= |ns|
    ensures SpansAt(ns, i)
    decreases |ns| - i
  {
    if i < |ns| {
      if !IsHeading(ns[i]) {
        SpansFromPositions(ns, i + 1);
      } else {
        SpansFromPositions(ns, NextHeading(ns, i + 1));
        HeadingSpansAt(ns, i);
      }
    }
  }

  lemma HeadingSpansAt(ns: seq<Node>, i: nat)
    requires i < |ns| && IsHeading(ns[i])
    requires SpansAt(ns, NextHeading(ns, i + 1))
    ensures SpansAt(ns, i)
  {
    var j := NextHeading(ns, i + 1);
    var rest := PositionsFrom(ns, j);
    assert PositionsFrom(ns, i) == [i] + rest && SpansFrom(ns, i) == [(i, j)] + SpansFrom(ns, j) by {
      SkipToHeading(ns, i + 1);
    }
    assert if j < |ns| then rest != [] && rest[0] == j else rest == [];
    SpansCons(PositionsFrom(ns, i), SpansFrom(ns, i), rest, SpansFrom(ns, j), i, j, |ns|);
  }

  /** Putting a heading's span in front of the spans of the following
      headings keeps every span ending where the next one starts. */
  lemma SpansCons(ps: seq<nat>, sp: seq<(nat, nat)>, rest: seq<nat>, restSp: seq<(nat, nat)>, i: nat, j: nat, n: nat)
    requires ps == [i] + rest && sp == [(i, j)] + restSp
    requires |restSp| == |rest| && forall m :: 0 <= m < |rest| ==> restSp[m] == (rest[m], SectionEnd(rest, m, n))
    requires if rest == [] then j == n else rest[0] == j
    ensures |sp| == |ps| && forall m :: 0 <= m < |ps| ==> sp[m] == (ps[m], SectionEnd(ps, m, n))
  {
    forall m | 0 <= m < |ps|
      ensures sp[m] == (ps[m], SectionEnd(ps, m, n))
    {
      if m > 0 {
        assert sp[m] == restSp[m - 1] && ps[m] == rest[m - 1];
        assert SectionEnd(ps, m, n) == SectionEnd(rest, m - 1, n);
      }
    }
  }

  /** chunk_by_headings on a whole document: one chunk per heading, in
      document order, the m-th being the m-th heading's text, a blank line
      and the text of every node up to the next heading (or the end),
      stripped; whatever precedes the first heading is in no chunk. */
  lemma HeadingChunksSpec(ns: seq<Node>)
    ensures var ps := HeadingPositions(ns);
      && |HeadingChunks(ns)| == |ps|
      && (forall p :: 0 <= p < |ns| && IsHeading(ns[p]) <==> p in ps)
      && forall m :: 0 <= m < |ps| ==>
           HeadingChunks(ns)[m] == Section(Extracted(ns), ps[m], SectionEnd(ps, m, |ns|))
  {
    SpansFromPositions(ns, 0);
    assert SpansAt(ns, 0);
    SectionTextsAt(Extracted(ns), SpansFrom(ns, 0));
    PositionsComplete(ns, 0);
  }

  /** A document without headings gives no chunk. */
  lemma NoHeadingNoChunk(ns: seq<Node>)
    requires forall p :: 0 <= p < |ns| ==> !IsHeading(ns[p])
    ensures HeadingChunks(ns) == []
  {
    SkipToHeading(ns, 0);
  }

  /** Every section packed by chunk_simple, the chunks of all sections in
      order. */
  function PackSections(sections: seq<string>, chunkSize: int,
                        sentTokenize: string -> seq<string>, tokenize: string -> seq<string>): seq<string>
  {
    if sections == [] then []
    else PackSections(sections[..|sections| - 1], chunkSize, sentTokenize, tokenize)
         + SimpleChunks(sections[|sections| - 1], chunkSize, sentTokenize, tokenize)
  }

  /** chunk_markdown */
  function MarkdownChunks(content: string, chunkSize: int, parse: string -> Node,
                          sentTokenize: string -> seq<string>, tokenize: string -> seq<string>): seq<string>
  {
    PackSections(HeadingChunks(parse(content).children), chunkSize, sentTokenize, tokenize)
  }

  method ChunkMarkdown(content: string, chunkSize: int, parse: string -> Node,
                       sentTokenize: string -> seq<string>, tokenize: string -> seq<string>)
    returns (chunks: seq<string>)
    ensures chunks == MarkdownChunks(content, chunkSize, parse, sentTokenize, tokenize)
  {
    var root := parse(content);
    var sections := ChunkByHeadings(root);
    chunks := [];
    for i := 0 to |sections|
      invariant chunks == PackSections(sections[..i], chunkSize, sentTokenize, tokenize)
    {
      var sectionChunks := ChunkSimple(sections[i], chunkSize, sentTokenize, tokenize);
      assert sections[..i + 1][..i] == sections[..i];
      chunks := chunks + sectionChunks;
    }
    assert sections[..|sections|] == sections;
  }

  /** The tokens of every section, section after section. */
  function SectionTokens(sections: seq<string>, sentTokenize: string -> seq<string>, tokenize: string -> seq<string>): seq<string>
  {
    if sections == [] then []
    else SectionTokens(sections[..|sections| - 1], sentTokenize, tokenize)
         + AllTokens(sections[|sections| - 1], sentTokenize, tokenize)
  }

  /** Packing loses nothing: the chunks of all sections run together are the
      tokens of the sections run together. */
  lemma {:induction false} PackSectionsLossless(sections: seq<string>, chunkSize: int,
                                                sentTokenize: string -> seq<string>, tokenize: string -> seq<string>)
    ensures Flatten(PackSections(sections, chunkSize, sentTokenize, tokenize))
         == Flatten(SectionTokens(sections, sentTokenize, tokenize))
    decreases |sections|
  {
    if sections != [] {
      var init := sections[..|sections| - 1];
      var last := sections[|sections| - 1];
      PackSectionsLossless(init, chunkSize, sentTokenize, tokenize);
      FlattenAppend(PackSections(init, chunkSize, sentTokenize, tokenize), SimpleChunks(last, chunkSize, sentTokenize, tokenize));
      FlattenAppend(SectionTokens(init, sentTokenize, tokenize), AllTokens(last, sentTokenize, tokenize));
      SimpleChunksLossless(last, chunkSize, sentTokenize, tokenize);
    }
  }

  /** chunk_markdown loses no token of any section. */
  lemma MarkdownChunksLossless(content: string, chunkSize: int, parse: string -> Node,
                               sentTokenize: string -> seq<string>, tokenize: string -> seq<string>)
    ensures Flatten(MarkdownChunks(content, chunkSize, parse, sentTokenize, tokenize))
         == Flatten(SectionTokens(HeadingChunks(parse(content).children), sentTokenize, tokenize))
  {
    PackSectionsLossless(HeadingChunks(parse(content).children), chunkSize, sentTokenize, tokenize);
  }
}
