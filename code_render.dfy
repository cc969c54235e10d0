/** The last steps of the code chunker: each record is rendered as a string
    (its context as a preamble, then its source text), renderings that fit on
    one line once stripped are dropped, and the rest go through the token
    packer. */
module CodeRender {
  import opened Common
  import opened Syntax
  import opened CodeScan
  import opened CodeChunker
  import opened TokenPacker

  const MoreMarker := "\n    # ... (more)\n"

  /** The preamble a context renders as: the import statements one per line,
      the module variables one per line, then a stub line for the enclosing
      class and one for the enclosing function. */
  function ContextText(ctx: Context): string
  {
    ImportLines(ctx) + VariableLines(ctx) + ClassStub(ctx) + FunctionStub(ctx)
  }

  function ImportLines(ctx: Context): string
  {
    if ctx.imports.Some? then Join(ctx.imports.value, "\n") + "\n" else ""
  }

  function VariableLines(ctx: Context): string
  {
    if ctx.moduleVariables.Some? then Join(ctx.moduleVariables.value, "\n") + "\n" else ""
  }

  function ClassStub(ctx: Context): string
  {
    if ctx.parentClass.Some? then "\nclass: " + ctx.parentClass.value + MoreMarker else ""
  }

  function FunctionStub(ctx: Context): string
  {
    if ctx.parentFunction.Some? then "\ndef: " + ctx.parentFunction.value + MoreMarker else ""
  }

  /** The string convert_chunks_to_strs makes of a record. */
  function Render(c: CodeChunk): string
  {
    var preamble := if c.context.Some? && c.kind != Module then ContextText(c.context.value) + "\n    " else "";
    (if c.kind == Class then PrefixSlice(preamble, -4) else preamble) + c.definition
  }

  function Rendered(chunks: seq<CodeChunk>): (strs: seq<string>)
    ensures |strs| == |chunks|
    ensures forall i :: 0 <= i < |chunks| ==> strs[i] == Render(chunks[i])
  {
    seq(|chunks|, i requires 0 <= i < |chunks| => Render(chunks[i]))
  }

  /** convert_chunks_to_strs */
  method ConvertChunksToStrs(chunks: seq<CodeChunk>) returns (strChunks: seq<string>)
    ensures strChunks == Rendered(chunks)
  {
    strChunks := [];
    for i := 0 to |chunks|
      invariant strChunks == Rendered(chunks[..i])
    {
      var chunkStr := ChunkString(chunks[i]);
      RenderedSnoc(chunks, i);
      strChunks := strChunks + [chunkStr];
    }
    assert chunks[..|chunks|] == chunks;
  }

  lemma RenderedSnoc(chunks: seq<CodeChunk>, i: nat)
    requires i < |chunks|
    ensures Rendered(chunks[..i + 1]) == Rendered(chunks[..i]) + [Render(chunks[i])]
  {
    assert chunks[..i + 1][..i] == chunks[..i];
  }

  /** The body of the loop of convert_chunks_to_strs: one record's string. */
  method ChunkString(chunk: CodeChunk) returns (chunkStr: string)
    ensures chunkStr == Render(chunk)
  {
    chunkStr := "";
    if chunk.context.Some? && chunk.kind != Module {
      var ctx := chunk.context.value;
      var contextStr := "";
      if ctx.imports.Some? {
        contextStr := contextStr + (Join(ctx.imports.value, "\n") + "\n");
      }
      assert contextStr == ImportLines(ctx);
      ghost var before := contextStr;
      if ctx.moduleVariables.Some? {
        contextStr := contextStr + (Join(ctx.moduleVariables.value, "\n") + "\n");
      } else {
        assert before + "" == before;
      }
      assert contextStr == before + VariableLines(ctx);
      before := contextStr;
      if ctx.parentClass.Some? {
        contextStr := contextStr + ("\nclass: " + ctx.parentClass.value + MoreMarker);
      } else {
        assert before + "" == before;
      }
      assert contextStr == before + ClassStub(ctx);
      before := contextStr;
      if ctx.parentFunction.Some? {
        contextStr := contextStr + ("\ndef: " + ctx.parentFunction.value + MoreMarker);
      } else {
        assert before + "" == before;
      }
      assert contextStr == before + FunctionStub(ctx);
      chunkStr := contextStr + "\n    ";
    }
    if chunk.kind == Class {
      chunkStr := PrefixSlice(chunkStr, -4);
    }
    chunkStr := chunkStr + chunk.definition;
  }

  /** A record without a context, or a "module" record, renders as its
      definition alone. */
  lemma RenderNoContext(c: CodeChunk)
    requires c.context.None? || c.kind == Module
    ensures Render(c) == c.definition
  {
    if c.kind == Class {
      assert PrefixSlice("", -4) == "";
    }
  }

  /** Otherwise the preamble comes first, then a line break and four spaces
      before the definition, except that a class record gets the line break
      only. */
  lemma RenderLayout(c: CodeChunk)
    requires c.context.Some? && c.kind != Module
    ensures Render(c) == ContextText(c.context.value) + (if c.kind == Class then "\n" else "\n    ") + c.definition
  {
    var t := ContextText(c.context.value);
    if c.kind == Class {
      assert PrefixSlice(t + "\n    ", -4) == t + "\n";
    }
  }

  /** Every rendering ends with the record's definition. */
  lemma RenderEndsWithDefinition(c: CodeChunk)
    ensures var r := Render(c); |c.definition| <= |r| && r[|r| - |c.definition|..] == c.definition
  {
  }

  /** A rendering whose context lists imports starts with them, one per line. */
  lemma RenderStartsWithImports(c: CodeChunk)
    requires c.context.Some? && c.kind != Module && c.context.value.imports.Some?
    ensures var lines := Join(c.context.value.imports.value, "\n") + "\n";
      |lines| <= |Render(c)| && Render(c)[..|lines|] == lines
  {
    var ctx := c.context.value;
    var lines := ImportLines(ctx);
    PrefixKept(lines, VariableLines(ctx), lines);
    PrefixKept(lines + VariableLines(ctx), ClassStub(ctx), lines);
    PrefixKept(lines + VariableLines(ctx) + ClassStub(ctx), FunctionStub(ctx), lines);
    var t := ContextText(ctx);
    RenderLayout(c);
    var sep := if c.kind == Class then "\n" else "\n    ";
    PrefixKept(t, sep, lines);
    PrefixKept(t + sep, c.definition, lines);
  }

  lemma PrefixKept(x: string, y: string, a: string)
    requires |a| <= |x| && x[..|a|] == a
    ensures |a| <= |x + y| && (x + y)[..|a|] == a
  {
    assert (x + y)[..|a|] == x[..|a|];
  }

  /** The filter of chunk_source_code: keep a rendering only when it spans
      more than one line once surrounding whitespace is stripped. */
  predicate KeepRendered(x: string)
  {
    |SplitLines(Strip(x))| > 1
  }

  function Kept(xs: seq<string>): seq<string>
  {
    if xs == [] then []
    else Kept(xs[..|xs| - 1]) + (if KeepRendered(xs[|xs| - 1]) then [xs[|xs| - 1]] else [])
  }

  /** A rendering is kept exactly when a line break remains inside it after
      stripping. */
  lemma KeepRenderedIff(x: string)
    ensures KeepRendered(x) <==> var s := Strip(x); exists i :: 0 <= i < |s| && IsLineBoundary(s[i])
  {
    StripSpec(x);
    MultipleLinesIffBoundary(Strip(x));
  }

  /** The filter keeps exactly the renderings that pass, in their order. */
  lemma {:induction false} KeptSpec(xs: seq<string>)
    ensures |Kept(xs)| <= |xs|
    ensures forall x :: x in Kept(xs) <==> x in xs && KeepRendered(x)
  {
    if xs != [] {
      var front := xs[..|xs| - 1];
      KeptSpec(front);
      assert xs == front + [xs[|xs| - 1]];
    }
  }

  /** The documents chunk_source_code returns for a list of renderings: the
      ones kept, each cut by the token packer, flattened in order. */
  function PackedDocs(strs: seq<string>, chunkSize: int,
                      sentTokenize: string -> seq<string>, tokenize: string -> seq<string>): seq<string>
  {
    if strs == [] then []
    else PackedDocs(strs[..|strs| - 1], chunkSize, sentTokenize, tokenize)
         + SimpleChunks(strs[|strs| - 1], chunkSize, sentTokenize, tokenize)
  }

  function SourceDocs(chunks: seq<CodeChunk>, chunkSize: int,
                      sentTokenize: string -> seq<string>, tokenize: string -> seq<string>): seq<string>
  {
    PackedDocs(Kept(Rendered(chunks)), chunkSize, sentTokenize, tokenize)
  }

  /** The records chunk_source_code cuts a parsed module into, as sets. */
  function SourceRecords(root: Tree): seq<ChunkShape>
  {
    assert WellFormed(root);
    ImportNodesSpec(root.children);
    var importMap := Assign(map[], AllBindings(ImportNodes(root.children)));
    RootChunks(root.children, importMap, ModuleVariables(root.children))
  }

  /** chunk_source_code: the parser is the parameter `parse`, the sentence
      splitter and tokenizer of the packer are `sentTokenize` and `tokenize`.
      The documents are those of some list of records whose shapes are the
      module's records; which one depends on Python's set order. */
  method ChunkSourceCode(content: string, chunkSize: int, parse: string -> Tree,
                         sentTokenize: string -> seq<string>, tokenize: string -> seq<string>)
    returns (docs: seq<string>)
    ensures exists chunks :: Shapes(chunks) == SourceRecords(parse(content)) && AllListed(chunks)
                             && docs == SourceDocs(chunks, chunkSize, sentTokenize, tokenize)
  {
    var root := parse(content);
    assert WellFormed(root);
    var importNodes := CollectImports(root);
    ImportNodesSpec(root.children);
    var importMap := BuildImportMap(importNodes);
    var moduleVariables := CollectModuleVariables(root);
    var chunks := ProcessRoot(root, importMap, moduleVariables);
    var chunksStrs := ConvertChunksToStrs(chunks);
    var kept := Kept(chunksStrs);
    docs := PackAll(kept, chunkSize, sentTokenize, tokenize);
  }

  /** The comprehension of chunk_source_code that runs the token packer on
      every kept rendering, flattened. */
  method PackAll(kept: seq<string>, chunkSize: int,
                 sentTokenize: string -> seq<string>, tokenize: string -> seq<string>)
    returns (docs: seq<string>)
    ensures docs == PackedDocs(kept, chunkSize, sentTokenize, tokenize)
  {
    docs := [];
    for i := 0 to |kept|
      invariant docs == PackedDocs(kept[..i], chunkSize, sentTokenize, tokenize)
    {
      assert kept[..i + 1][..i] == kept[..i];
      var pieces := ChunkSimple(kept[i], chunkSize, sentTokenize, tokenize);
      docs := docs + pieces;
    }
    assert kept[..|kept|] == kept;
  }
}
