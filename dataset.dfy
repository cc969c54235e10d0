/** chunk_dataset, which cuts every document of a dataset with the chunker for
    its file type and makes one record per chunk, and format_doc, which
    renders a record as the text shown to the model. */
module Dataset {
  import opened Common
  import opened Dicts
  import opened Syntax
  import opened MarkdownChunker
  import opened PdfChunker
  import opened CodeChunker
  import opened CodeRender

  /** The code chunk_dataset calls but that is not part of this model:
      the sentence splitter and tokenizer of the packer, make_id (an MD5 hex
      digest), the tree-sitter parsers for Python and markdown, the notebook
      to markdown conversion of chunk_notebook, and
      convert_contents_to_text. `opensSection` is the test chunk_pdf applies
      to a line: `StartsSectionAsWritten` runs chunk_dataset as written,
      `StartsSection` runs it with the corrected marker test. */
  datatype Collaborators = Collaborators(
    sentTokenize: string -> seq<string>,
    tokenize: string -> seq<string>,
    makeId: string -> string,
    parsePython: string -> Tree,
    parseMarkdown: string -> Node,
    notebookToMarkdown: string -> string,
    toText: (string, string) -> string,
    opensSection: string -> bool)

  /** doc["content"] is a string and doc["file_type"] exists: otherwise
      make_id or the lookup raises. */
  predicate DocOk(doc: Doc)
  {
    var content := Get(doc, "content");
    content.Some? && content.value.Str? && Get(doc, "file_type").Some?
  }

  function ContentOf(doc: Doc): string
    requires DocOk(doc)
  {
    Get(doc, "content").value.s
  }

  function FileTypeOf(doc: Doc): Value
    requires DocOk(doc)
  {
    Get(doc, "file_type").value
  }

  /** The "text" of a chunk: the chunk itself for Python and notebooks, its
      plain-text conversion for PDFs and (every other type) markdown. */
  function TextOf(fileType: Value, chunk: string, co: Collaborators): string
  {
    if fileType == Str("python") || fileType == Str("notebook") then chunk
    else if fileType == Str("pdf") then co.toText(chunk, "pdf")
    else co.toText(chunk, "markdown")
  }

  /** The chunks the chunker for the document's file type may return. For
      Python the records behind them depend on set order, hence the
      existential. */
  ghost predicate Chunked(doc: Doc, chunks: seq<string>, chunkSize: int, co: Collaborators)
    requires DocOk(doc)
  {
    var content := ContentOf(doc);
    var fileType := FileTypeOf(doc);
    if fileType == Str("python") then
      exists cs :: Shapes(cs) == SourceRecords(co.parsePython(content)) && AllListed(cs)
                   && chunks == SourceDocs(cs, chunkSize, co.sentTokenize, co.tokenize)
    else if fileType == Str("notebook") then
      chunks == MarkdownChunks(co.notebookToMarkdown(content), chunkSize, co.parseMarkdown, co.sentTokenize, co.tokenize)
    else if fileType == Str("pdf") then
      chunks == PdfChunks(content, chunkSize, co.sentTokenize, co.tokenize, co.opensSection)
    else
      chunks == MarkdownChunks(content, chunkSize, co.parseMarkdown, co.sentTokenize, co.tokenize)
  }

  /** css[j] is a chunking of ds[j], for every document. */
  ghost predicate Chunkings(ds: seq<Doc>, css: seq<seq<string>>, chunkSize: int, co: Collaborators)
  {
    |ds| == |css| && forall j :: 0 <= j < |ds| ==> DocOk(ds[j]) && Chunked(ds[j], css[j], chunkSize, co)
  }

  /** The record for chunk number i of a document: a copy of the document
      without "content", with "chunk", "text", "chunk_id", "doc_id" and
      "chunk_number" assigned in that order. */
  function ChunkRecord(doc: Doc, chunk: string, text: string, docId: string, i: nat,
                       makeId: string -> string): Doc
  {
    var d := Remove(doc, "content");
    var d := Put(d, "chunk", Str(chunk));
    var d := Put(d, "text", Str(text));
    var d := Put(d, "chunk_id", Str(makeId(chunk)));
    var d := Put(d, "doc_id", Str(docId));
    Put(d, "chunk_number", Int(i))
  }

  /** The keys chunk_dataset deletes or assigns. */
  predicate RecordKey(k: string)
  {
    k == "content" || k == "chunk" || k == "text" || k == "chunk_id" || k == "doc_id" || k == "chunk_number"
  }

  /** The records of one document, one per chunk, in order. */
  function DocRecords(doc: Doc, chunks: seq<string>, co: Collaborators): (recs: seq<Doc>)
    requires DocOk(doc)
    ensures |recs| == |chunks|
  {
    seq(|chunks|, i requires 0 <= i < |chunks| =>
      ChunkRecord(doc, chunks[i], TextOf(FileTypeOf(doc), chunks[i], co), co.makeId(ContentOf(doc)), i, co.makeId))
  }

  function PerDoc(ds: seq<Doc>, css: seq<seq<string>>, co: Collaborators): (rss: seq<seq<Doc>>)
    requires |css| == |ds| && forall j :: 0 <= j < |ds| ==> DocOk(ds[j])
    ensures |rss| == |ds|
  {
    seq(|ds|, j requires 0 <= j < |ds| && |css| == |ds| && DocOk(ds[j]) => DocRecords(ds[j], css[j], co))
  }

  /** The records of a whole dataset: those of each document in turn. */
  function DatasetRecords(ds: seq<Doc>, css: seq<seq<string>>, co: Collaborators): seq<Doc>
    requires |css| == |ds| && forall j :: 0 <= j < |ds| ==> DocOk(ds[j])
  {
    Flatten(PerDoc(ds, css, co))
  }

  /** chunk_dataset. A document whose "content" is missing or not a string,
      or that has no "file_type", makes the whole call raise. */
  method ChunkDataset(ds: seq<Doc>, chunkSize: int, co: Collaborators) returns (r: Result<seq<Doc>>)
    ensures r.Err? <==> exists j :: 0 <= j < |ds| && !DocOk(ds[j])
    ensures r.Ok? ==> exists css :: Chunkings(ds, css, chunkSize, co) && r.value == DatasetRecords(ds, css, co)
  {
    var allChunks: seq<Doc> := [];
    ghost var css: seq<seq<string>> := [];
    for i := 0 to |ds|
      invariant Chunkings(ds[..i], css, chunkSize, co)
      invariant forall j :: 0 <= j < i ==> DocOk(ds[j])
      invariant allChunks == DatasetRecords(ds[..i], css, co)
    {
      var doc := ds[i];
      var content := Get(doc, "content");
      if content.None? || !content.value.Str? {
        return Err("KeyError: content");
      }
      var docId := co.makeId(content.value.s);
      var fileType := Get(doc, "file_type");
      if fileType.None? {
        return Err("KeyError: file_type");
      }
      var chunks := ChunkDocument(doc, chunkSize, co);
      var records := EmitRecords(doc, chunks, docId, fileType.value, co);
      ChunkingsSnoc(ds, css, chunks, i, chunkSize, co);
      DatasetRecordsSnoc(ds, css, chunks, i, co);
      allChunks := allChunks + records;
      css := css + [chunks];
    }
    assert ds[..|ds|] == ds;
    r := Ok(allChunks);
  }

  /** The branch of chunk_dataset on the file type. */
  method ChunkDocument(doc: Doc, chunkSize: int, co: Collaborators) returns (chunks: seq<string>)
    requires DocOk(doc)
    ensures Chunked(doc, chunks, chunkSize, co)
  {
    var content := ContentOf(doc);
    var fileType := FileTypeOf(doc);
    if fileType == Str("python") {
      chunks := ChunkSourceCode(content, chunkSize, co.parsePython, co.sentTokenize, co.tokenize);
    } else if fileType == Str("notebook") {
      chunks := ChunkMarkdown(co.notebookToMarkdown(content), chunkSize, co.parseMarkdown, co.sentTokenize, co.tokenize);
    } else if fileType == Str("pdf") {
      chunks := ChunkPdf(content, chunkSize, co.sentTokenize, co.tokenize, co.opensSection);
    } else {
      chunks := ChunkMarkdown(content, chunkSize, co.parseMarkdown, co.sentTokenize, co.tokenize);
    }
  }

  /** The inner loop of chunk_dataset over enumerate(chunks). */
  method EmitRecords(doc: Doc, chunks: seq<string>, docId: string, fileType: Value, co: Collaborators)
    returns (records: seq<Doc>)
    requires DocOk(doc) && docId == co.makeId(ContentOf(doc)) && fileType == FileTypeOf(doc)
    ensures records == DocRecords(doc, chunks, co)
  {
    records := [];
    for i := 0 to |chunks|
      invariant records == DocRecords(doc, chunks[..i], co)
    {
      var chunk := chunks[i];
      var docChunk := Remove(doc, "content");
      docChunk := Put(docChunk, "chunk", Str(chunk));
      docChunk := Put(docChunk, "text", Str(TextOf(fileType, chunk, co)));
      docChunk := Put(docChunk, "chunk_id", Str(co.makeId(chunk)));
      docChunk := Put(docChunk, "doc_id", Str(docId));
      docChunk := Put(docChunk, "chunk_number", Int(i));
      DocRecordsSnoc(doc, chunks, i, co);
      records := records + [docChunk];
    }
    assert chunks[..|chunks|] == chunks;
  }

  lemma DocRecordsSnoc(doc: Doc, chunks: seq<string>, i: nat, co: Collaborators)
    requires DocOk(doc) && i < |chunks|
    ensures DocRecords(doc, chunks[..i + 1], co) == DocRecords(doc, chunks[..i], co)
      + [ChunkRecord(doc, chunks[i], TextOf(FileTypeOf(doc), chunks[i], co), co.makeId(ContentOf(doc)), i, co.makeId)]
  {
    var front, all := DocRecords(doc, chunks[..i], co), DocRecords(doc, chunks[..i + 1], co);
    var last := ChunkRecord(doc, chunks[i], TextOf(FileTypeOf(doc), chunks[i], co), co.makeId(ContentOf(doc)), i, co.makeId);
    assert all[i] == last by { assert chunks[..i + 1][i] == chunks[i]; }
    forall j | 0 <= j < i ensures all[j] == front[j] { assert chunks[..i + 1][j] == chunks[..i][j]; }
    assert all == front + [last];
  }

  lemma DatasetRecordsSnoc(ds: seq<Doc>, css: seq<seq<string>>, chunks: seq<string>, i: nat, co: Collaborators)
    requires i < |ds| && |css| == i && forall j :: 0 <= j <= i ==> DocOk(ds[j])
    ensures DatasetRecords(ds[..i + 1], css + [chunks], co)
         == DatasetRecords(ds[..i], css, co) + DocRecords(ds[i], chunks, co)
  {
    var front := PerDoc(ds[..i], css, co);
    var all := PerDoc(ds[..i + 1], css + [chunks], co);
    assert all == front + [DocRecords(ds[i], chunks, co)] by {
      forall j | 0 <= j < i
        ensures all[j] == front[j]
      {
        assert ds[..i + 1][j] == ds[..i][j];
      }
    }
    FlattenSnoc(front, DocRecords(ds[i], chunks, co));
  }

  lemma ChunkingsSnoc(ds: seq<Doc>, css: seq<seq<string>>, chunks: seq<string>, i: nat,
                      chunkSize: int, co: Collaborators)
    requires i < |ds| && Chunkings(ds[..i], css, chunkSize, co)
    requires DocOk(ds[i]) && Chunked(ds[i], chunks, chunkSize, co)
    ensures Chunkings(ds[..i + 1], css + [chunks], chunkSize, co)
  {
    var front, all := ds[..i], ds[..i + 1];
    forall j | 0 <= j < i + 1
      ensures DocOk(all[j]) && Chunked(all[j], (css + [chunks])[j], chunkSize, co)
    {
      if j < i {
        assert all[j] == front[j] && (css + [chunks])[j] == css[j];
      }
    }
  }

  /** A chunk record holds the chunk, its text, make_id of the raw chunk, the
      document's id and the chunk's number; "content" is gone and every other
      key of the document is copied unchanged. */
  lemma ChunkRecordSpec(doc: Doc, chunk: string, text: string, docId: string, i: nat,
                        makeId: string -> string)
    requires Valid(doc)
    ensures var r := ChunkRecord(doc, chunk, text, docId, i, makeId);
      && Valid(r)
      && Get(r, "chunk") == Some(Str(chunk))
      && Get(r, "text") == Some(Str(text))
      && Get(r, "chunk_id") == Some(Str(makeId(chunk)))
      && Get(r, "doc_id") == Some(Str(docId))
      && Get(r, "chunk_number") == Some(Int(i))
      && Get(r, "content") == None
      && forall k :: !RecordKey(k) ==> Get(r, k) == Get(doc, k)
  {
    var d0 := Remove(doc, "content");
    var d1 := Put(d0, "chunk", Str(chunk));
    var d2 := Put(d1, "text", Str(text));
    var d3 := Put(d2, "chunk_id", Str(makeId(chunk)));
    var d4 := Put(d3, "doc_id", Str(docId));
    var r := Put(d4, "chunk_number", Int(i));
    RemoveValid(doc, "content");
    PutGet(d0, "chunk", Str(chunk), "chunk");
    PutGet(d1, "text", Str(text), "text");
    PutGet(d2, "chunk_id", Str(makeId(chunk)), "chunk_id");
    PutGet(d3, "doc_id", Str(docId), "doc_id");
    PutGet(d4, "chunk_number", Int(i), "chunk_number");
    forall k
      ensures Get(r, k) == if k == "chunk_number" then Some(Int(i))
                           else if k == "doc_id" then Some(Str(docId))
                           else if k == "chunk_id" then Some(Str(makeId(chunk)))
                           else if k == "text" then Some(Str(text))
                           else if k == "chunk" then Some(Str(chunk))
                           else if k == "content" then None
                           else Get(doc, k)
    {
      RemoveGet(doc, "content", k);
      PutGet(d0, "chunk", Str(chunk), k);
      PutGet(d1, "text", Str(text), k);
      PutGet(d2, "chunk_id", Str(makeId(chunk)), k);
      PutGet(d3, "doc_id", Str(docId), k);
      PutGet(d4, "chunk_number", Int(i), k);
    }
  }

  lemma PutGet(d: Doc, k: string, v: Value, k': string)
    requires Valid(d)
    ensures Valid(Put(d, k, v))
    ensures Get(Put(d, k, v), k') == if k' == k then Some(v) else Get(d, k')
  {
    PutSpec(d, k, v);
  }

  /** Within a document the chunks are numbered 0, 1, ... in the order the
      chunker returned them; all share doc_id = make_id(content), and each
      has chunk_id = make_id of the raw chunk even where "text" is a
      conversion of it. */
  lemma DocRecordsSpec(doc: Doc, chunks: seq<string>, co: Collaborators, i: nat)
    requires DocOk(doc) && Valid(doc) && i < |chunks|
    ensures var r := DocRecords(doc, chunks, co)[i];
      && Valid(r)
      && Get(r, "chunk_number") == Some(Int(i))
      && Get(r, "doc_id") == Some(Str(co.makeId(ContentOf(doc))))
      && Get(r, "chunk_id") == Some(Str(co.makeId(chunks[i])))
      && Get(r, "chunk") == Some(Str(chunks[i]))
      && Get(r, "text") == Some(Str(TextOf(FileTypeOf(doc), chunks[i], co)))
      && Get(r, "content") == None
      && forall k :: !RecordKey(k) ==> Get(r, k) == Get(doc, k)
  {
    ChunkRecordSpec(doc, chunks[i], TextOf(FileTypeOf(doc), chunks[i], co), co.makeId(ContentOf(doc)), i, co.makeId);
  }

  /** The dataset's records are those of each document in turn: chunk i of
      document j is the record at position (number of records of the
      documents before j) + i, and there are as many records as chunks. */
  lemma DatasetRecordsAt(ds: seq<Doc>, css: seq<seq<string>>, co: Collaborators, j: nat, i: nat)
    requires |css| == |ds| && forall j :: 0 <= j < |ds| ==> DocOk(ds[j])
    requires j < |ds| && i < |css[j]|
    ensures |DatasetRecords(ds, css, co)| == |Flatten(css)|
    ensures var before := |Flatten(css[..j])|;
      before + i < |DatasetRecords(ds, css, co)|
      && DatasetRecords(ds, css, co)[before + i] == DocRecords(ds[j], css[j], co)[i]
  {
    var rss := PerDoc(ds, css, co);
    forall k | 0 <= k < |rss| ensures |rss[k]| == |css[k]| {
      assert rss[k] == DocRecords(ds[k], css[k], co);
    }
    FlattenAtCounted(rss, css, j, i);
    assert rss[j] == DocRecords(ds[j], css[j], co);
  }

  /** There are as many records as chunks. */
  lemma DatasetRecordsCount(ds: seq<Doc>, css: seq<seq<string>>, co: Collaborators)
    requires |css| == |ds| && forall j :: 0 <= j < |ds| ==> DocOk(ds[j])
    ensures |DatasetRecords(ds, css, co)| == |Flatten(css)|
  {
    FlattenLength(PerDoc(ds, css, co), css);
  }

  /** Python truthiness of a record value: None, "", 0, 0.0 and {} are false. */
  predicate Truthy(v: Value)
  {
    match v
    case Str(s) => s != ""
    case Int(i) => i != 0
    case Real(r) => r != 0.0
    case Null => false
    case Obj(fields) => fields != []
  }

  /** f"{v}": strings as they are, integers in decimal, None as "None"; the
      repr of floats and dicts is the parameter `repr`. */
  function Display(v: Value, repr: Value -> string): string
  {
    match v
    case Str(s) => s
    case Int(i) => IntToDecimal(i)
    case Null => "None"
    case _ => repr(v)
  }

  /** Whether format_doc lists a key: never the body keys, and the ids only
      when asked for. */
  predicate Shown(k: string, withIds: bool)
  {
    k !in ["text", "chunk", "content"] && (withIds || k !in ["doc_id", "chunk_id"])
  }

  function Line(e: (string, Value), withIds: bool, repr: Value -> string): string
  {
    if Shown(e.0, withIds) then "- " + e.0 + ": " + Display(e.1, repr) + "\n" else ""
  }

  /** The "- key: value" lines of format_doc, in the record's key order. */
  function Listing(d: Doc, withIds: bool, repr: Value -> string): string
  {
    if d == [] then "" else Line(d[0], withIds, repr) + Listing(d[1..], withIds, repr)
  }

  /** doc.get("file_type") or doc.get("metadata", {}).get("file_type"); the
      second lookup raises when "metadata" is present but not a dict. */
  function FileType(doc: Doc): Result<Option<Value>>
  {
    var direct := Get(doc, "file_type");
    if direct.Some? && Truthy(direct.value) then Ok(direct)
    else
      var meta := Get(doc, "metadata");
      if meta.None? then Ok(None)
      else if meta.value.Obj? then Ok(Get(meta.value.fields, "file_type"))
      else Err("AttributeError: metadata")
  }

  /** The key whose value is the body: "text" for Python, "chunk" otherwise. */
  function BodyKey(fileType: Option<Value>): string
  {
    if fileType == Some(Str("python")) then "text" else "chunk"
  }

  predicate Limited(maxLength: Option<int>)
  {
    maxLength.Some? && maxLength.value != 0
  }

  /** What format_doc returns or raises. */
  function Formatted(doc: Doc, withIds: bool, maxLength: Option<int>, repr: Value -> string): Result<string>
  {
    var fileType := FileType(doc);
    if fileType.Err? then Err(fileType.error)
    else
      var body := Get(doc, BodyKey(fileType.value));
      if body.None? then Err("KeyError: " + BodyKey(fileType.value))
      else if !body.value.Str? then Err("TypeError: body")
      else
        var shown := if Limited(maxLength) then PrefixSlice(body.value.s, maxLength.value) else body.value.s;
        Ok(Listing(doc, withIds, repr) + "\n\n" + shown + (if Limited(maxLength) then "\n\n...\n\n" else ""))
  }

  lemma {:induction false} ListingSnoc(d: Doc, e: (string, Value), withIds: bool, repr: Value -> string)
    ensures Listing(d + [e], withIds, repr) == Listing(d, withIds, repr) + Line(e, withIds, repr)
  {
    if d == [] {
      assert Listing([e], withIds, repr) == Line(e, withIds, repr) + Listing([], withIds, repr);
    } else {
      assert (d + [e])[1..] == d[1..] + [e];
      ListingSnoc(d[1..], e, withIds, repr);
    }
  }

  /** format_doc */
  method FormatDoc(doc: Doc, withIds: bool, maxLength: Option<int>, repr: Value -> string)
    returns (r: Result<string>)
    ensures r == Formatted(doc, withIds, maxLength, repr)
  {
    var docStr := ListItems(doc, withIds, repr);
    ghost var listing := docStr;
    docStr := docStr + "\n\n";
    var fileType := FileType(doc);
    if fileType.Err? {
      return Err(fileType.error);
    }
    var key := if fileType.value == Some(Str("python")) then "text" else "chunk";
    var body := Get(doc, key);
    if body.None? {
      return Err("KeyError: " + key);
    }
    if !body.value.Str? {
      return Err("TypeError: body");
    }
    assert key == BodyKey(fileType.value);
    ghost var shown;
    if maxLength.Some? && maxLength.value != 0 {
      shown := PrefixSlice(body.value.s, maxLength.value);
      docStr := docStr + PrefixSlice(body.value.s, maxLength.value);
    } else {
      shown := body.value.s;
      docStr := docStr + body.value.s;
    }
    assert docStr == listing + "\n\n" + shown;
    if maxLength.Some? && maxLength.value != 0 {
      docStr := docStr + "\n\n...\n\n";
    } else {
      assert docStr + "" == docStr;
    }
    r := Ok(docStr);
  }

  /** The loop of format_doc over doc.items(). */
  method ListItems(doc: Doc, withIds: bool, repr: Value -> string) returns (docStr: string)
    ensures docStr == Listing(doc, withIds, repr)
  {
    docStr := "";
    for i := 0 to |doc|
      invariant docStr == Listing(doc[..i], withIds, repr)
    {
      var (k, v) := doc[i];
      ListingSnoc(doc[..i], doc[i], withIds, repr);
      assert doc[..i + 1] == doc[..i] + [doc[i]];
      if k !in ["text", "chunk", "content"] {
        if !withIds && k in ["doc_id", "chunk_id"] {
          assert docStr + "" == docStr;
          continue;
        }
        docStr := docStr + ("- " + k + ": " + Display(v, repr) + "\n");
      } else {
        assert docStr + "" == docStr;
      }
    }
    assert doc[..|doc|] == doc;
  }

  /** Removing a key format_doc does not list leaves its listing unchanged. */
  lemma {:induction false} ListingIgnoresHidden(d: Doc, k: string, withIds: bool, repr: Value -> string)
    requires !Shown(k, withIds)
    ensures Listing(Remove(d, k), withIds, repr) == Listing(d, withIds, repr)
  {
    if d != [] {
      ListingIgnoresHidden(d[1..], k, withIds, repr);
      if d[0].0 != k {
        assert ([d[0]] + Remove(d[1..], k))[1..] == Remove(d[1..], k);
      }
    }
  }

  /** Without with_ids the listing is that of the record with its ids
      removed, listed with them. */
  lemma {:induction false} ListingWithoutIds(d: Doc, repr: Value -> string)
    ensures Listing(d, false, repr) == Listing(Remove(Remove(d, "doc_id"), "chunk_id"), true, repr)
  {
    if d != [] {
      ListingWithoutIds(d[1..], repr);
      var rest := Remove(Remove(d[1..], "doc_id"), "chunk_id");
      if d[0].0 != "doc_id" && d[0].0 != "chunk_id" {
        assert Remove(d, "doc_id") == [d[0]] + Remove(d[1..], "doc_id");
        assert Remove(Remove(d, "doc_id"), "chunk_id") == [d[0]] + rest;
        assert ([d[0]] + rest)[1..] == rest;
      } else if d[0].0 == "chunk_id" {
        assert Remove(d, "doc_id") == [d[0]] + Remove(d[1..], "doc_id");
      }
    }
  }

  /** The output starts with the listing and a blank line; when max_length
      is positive at most that many characters of the body follow, then the
      "..." trailer; otherwise the whole body follows. It raises exactly
      when the metadata lookup raises or the body is missing or not a
      string. */
  lemma FormattedSpec(doc: Doc, withIds: bool, maxLength: Option<int>, repr: Value -> string)
    ensures var r := Formatted(doc, withIds, maxLength, repr);
      r.Ok? <==> FileType(doc).Ok? && Get(doc, BodyKey(FileType(doc).value)).Some?
                 && Get(doc, BodyKey(FileType(doc).value)).value.Str?
    ensures var r := Formatted(doc, withIds, maxLength, repr);
      r.Ok? ==> var head := Listing(doc, withIds, repr) + "\n\n";
                var body := Get(doc, BodyKey(FileType(doc).value)).value.s;
                |head| <= |r.value| && r.value[..|head|] == head
                && (!Limited(maxLength) ==> r.value == head + body)
                && (Limited(maxLength) && maxLength.value > 0 ==>
                      var tail := r.value[|head|..];
                      |tail| <= maxLength.value + 7 && tail[|tail| - 7..] == "\n\n...\n\n"
                      && tail[..|tail| - 7] == body[..|tail| - 7])
  {
    var r := Formatted(doc, withIds, maxLength, repr);
    if r.Ok? {
      var head := Listing(doc, withIds, repr) + "\n\n";
      var body := Get(doc, BodyKey(FileType(doc).value)).value.s;
      if Limited(maxLength) {
        var shown := PrefixSlice(body, maxLength.value);
        assert r.value == head + (shown + "\n\n...\n\n");
        assert r.value[|head|..] == shown + "\n\n...\n\n";
      } else {
        assert r.value == head + body;
      }
    }
  }

  /** format_doc on a record made by chunk_dataset, for a document whose
      file_type is a non-empty string and without max_length: the record's
      listed keys, a blank line, then the raw chunk, for every file type. */
  lemma FormatChunkRecord(doc: Doc, chunks: seq<string>, co: Collaborators, i: nat,
                          withIds: bool, repr: Value -> string)
    requires DocOk(doc) && Valid(doc) && i < |chunks|
    requires FileTypeOf(doc).Str? && FileTypeOf(doc).s != ""
    ensures var r := DocRecords(doc, chunks, co)[i];
      Formatted(r, withIds, None, repr) == Ok(Listing(r, withIds, repr) + "\n\n" + chunks[i])
  {
    var r := DocRecords(doc, chunks, co)[i];
    RecordBody(doc, chunks, co, i);
    var out := Listing(r, withIds, repr) + "\n\n" + chunks[i];
    assert out + "" == out;
  }

  /** The file type and body format_doc finds in such a record. */
  lemma RecordBody(doc: Doc, chunks: seq<string>, co: Collaborators, i: nat)
    requires DocOk(doc) && Valid(doc) && i < |chunks|
    requires FileTypeOf(doc).Str? && FileTypeOf(doc).s != ""
    ensures var r := DocRecords(doc, chunks, co)[i];
      FileType(r) == Ok(Some(FileTypeOf(doc)))
      && Get(r, BodyKey(Some(FileTypeOf(doc)))) == Some(Str(chunks[i]))
  {
    var r := DocRecords(doc, chunks, co)[i];
    var ft := FileTypeOf(doc);
    RecordFields(doc, chunks, co, i);
    assert FileType(r) == Ok(Some(ft));
    if ft == Str("python") {
      assert TextOf(ft, chunks[i], co) == chunks[i];
    }
  }

  lemma RecordFields(doc: Doc, chunks: seq<string>, co: Collaborators, i: nat)
    requires DocOk(doc) && Valid(doc) && i < |chunks|
    ensures var r := DocRecords(doc, chunks, co)[i];
      Get(r, "file_type") == Some(FileTypeOf(doc))
      && Get(r, "text") == Some(Str(TextOf(FileTypeOf(doc), chunks[i], co)))
      && Get(r, "chunk") == Some(Str(chunks[i]))
  {
    DocRecordsSpec(doc, chunks, co, i);
    assert !RecordKey("file_type");
  }
}
