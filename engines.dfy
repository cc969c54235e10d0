/** The search engines of the retriever. Each keeps the documents it was
    last fitted on and an index over their "text" fields, and answers a
    query with the best-ranked documents, each with its score in front.

    The ranking itself (TF-IDF weights, BM25, cosine distances, argsort and
    rounding to four places) is a parameter, `rank` or `retrieve`: it gives
    the (position, score) pairs in rank order. The embedding service is an
    `Embedder` as in batch_embed. The vector store lives in a remote
    service; the model keeps the vectors upserted into it, in order. */
module Engines {
  import opened Common
  import opened Dicts
  import opened Embedding

  /** (position in the indexed documents, score), best first. */
  type Ranking = seq<(nat, real)>

  /** {"score": score, **doc} */
  function Hit(score: real, doc: Doc): Doc
  {
    Update([("score", Real(score))], doc)
  }

  /** "score" is the first key of a hit. Its value is the document's own
      "score" when it has one and the ranking's otherwise; every other key
      maps to the document's value. */
  lemma HitSpec(score: real, doc: Doc)
    requires Valid(doc)
    ensures Valid(Hit(score, doc)) && |Hit(score, doc)| > 0 && Keys(Hit(score, doc))[0] == "score"
    ensures Get(Hit(score, doc), "score") == if "score" in Keys(doc) then Get(doc, "score") else Some(Real(score))
    ensures forall k :: k != "score" ==> Get(Hit(score, doc), k) == Get(doc, k)
  {
    var d: Doc := [("score", Real(score))];
    assert Keys(d) == ["score"];
    UpdateSpec(d, doc);
    forall k | k != "score"
      ensures Get(Hit(score, doc), k) == Get(doc, k)
    {
      assert Get(d, k) == None;
    }
  }

  /** The output loop of search: one hit per ranked position, in rank
      order; a position past the end of the data raises IndexError. */
  function Hits(data: seq<Doc>, ranked: Ranking): Result<seq<Doc>>
  {
    if ranked == [] then Ok([])
    else
      var front := Hits(data, ranked[..|ranked| - 1]);
      var last := ranked[|ranked| - 1];
      if front.Err? then front
      else if last.0 >= |data| then Err("IndexError: list index out of range")
      else Ok(front.value + [Hit(last.1, data[last.0])])
  }

  /** The hits succeed exactly when every ranked position is in range;
      then hit j is the document at ranked position j with its score. */
  lemma {:induction false} HitsSpec(data: seq<Doc>, ranked: Ranking)
    ensures Hits(data, ranked).Ok? <==> forall j :: 0 <= j < |ranked| ==> ranked[j].0 < |data|
    ensures Hits(data, ranked).Ok? ==>
              |Hits(data, ranked).value| == |ranked| &&
              forall j :: 0 <= j < |ranked| ==> Hits(data, ranked).value[j] == Hit(ranked[j].1, data[ranked[j].0])
    decreases |ranked|
  {
    if ranked != [] {
      var front := ranked[..|ranked| - 1];
      HitsSpec(data, front);
      assert forall j :: 0 <= j < |front| ==> front[j] == ranked[j];
    }
  }

  /** Once a prefix of the ranking fails, the whole output fails the same
      way. */
  lemma {:induction false} HitsErrPrefix(data: seq<Doc>, ranked: Ranking, i: nat)
    requires i <= |ranked| && Hits(data, ranked[..i]).Err?
    ensures Hits(data, ranked) == Hits(data, ranked[..i])
    decreases |ranked| - i
  {
    if i < |ranked| {
      assert ranked[..i + 1][..i] == ranked[..i];
      HitsErrPrefix(data, ranked, i + 1);
    } else {
      assert ranked[..i] == ranked;
    }
  }

  /** The output loop shared by the search methods. */
  method CollectHits(data: seq<Doc>, ranked: Ranking) returns (r: Result<seq<Doc>>)
    ensures r == Hits(data, ranked)
  {
    var output: seq<Doc> := [];
    for i := 0 to |ranked|
      invariant Hits(data, ranked[..i]) == Ok(output)
    {
      assert ranked[..i + 1][..i] == ranked[..i];
      var (idx, score) := ranked[i];
      if idx >= |data| {
        HitsErrPrefix(data, ranked, i + 1);
        return Err("IndexError: list index out of range");
      }
      output := output + [Hit(score, data[idx])];
    }
    assert ranked[..|ranked|] == ranked;
    return Ok(output);
  }

  /** doc["text"]: KeyError when absent. A value that is not a string is
      refused here; the vectorizers and the embedding service take
      strings. */
  function TextOf(doc: Doc): Result<string>
  {
    match Get(doc, "text")
    case None => Err("KeyError: 'text'")
    case Some(v) => if v.Str? then Ok(v.s) else Err("TypeError: expected string")
  }

  /** [doc["text"] for doc in data] */
  function Texts(data: seq<Doc>): Result<seq<string>>
  {
    if data == [] then Ok([])
    else
      var front := Texts(data[..|data| - 1]);
      var t := TextOf(data[|data| - 1]);
      if front.Err? then front
      else if t.Err? then Err(t.error)
      else Ok(front.value + [t.value])
  }

  /** The texts are one per document, in order, when every document has a
      text; otherwise the error is that of the first document without. */
  lemma TextsSpec(data: seq<Doc>)
    ensures Texts(data).Ok? <==> forall j :: 0 <= j < |data| ==> TextOf(data[j]).Ok?
    ensures Texts(data).Ok? ==>
              |Texts(data).value| == |data| &&
              forall j :: 0 <= j < |data| ==> Texts(data).value[j] == TextOf(data[j]).value
    ensures Texts(data).Err? ==>
              exists j :: 0 <= j < |data| && TextOf(data[j]).Err? &&
                          Texts(data).error == TextOf(data[j]).error && forall i :: 0 <= i < j ==> TextOf(data[i]).Ok?
  {
    TextsOk(data);
    TextsErr(data);
    if Texts(data).Err? {
      var j :| FirstTextErr(data, j, Texts(data).error);
    }
  }

  lemma {:induction false} TextsOk(data: seq<Doc>)
    ensures Texts(data).Ok? <==> forall j :: 0 <= j < |data| ==> TextOf(data[j]).Ok?
    ensures Texts(data).Ok? ==>
              |Texts(data).value| == |data| &&
              forall j :: 0 <= j < |data| ==> Texts(data).value[j] == TextOf(data[j]).value
    decreases |data|
  {
    if data != [] {
      var m := |data| - 1;
      var front := data[..m];
      TextsOk(front);
      assert forall j :: 0 <= j < m ==> front[j] == data[j];
      if Texts(front).Ok? && TextOf(data[m]).Ok? {
        assert Texts(data).value == Texts(front).value + [TextOf(data[m]).value];
      }
    }
  }

  /** The first document without a usable text. */
  ghost predicate FirstTextErr(data: seq<Doc>, j: int, e: string)
  {
    0 <= j < |data| && TextOf(data[j]).Err? && e == TextOf(data[j]).error
    && forall i :: 0 <= i < j ==> TextOf(data[i]).Ok?
  }

  lemma {:induction false} TextsErr(data: seq<Doc>)
    ensures Texts(data).Err? ==> exists j :: FirstTextErr(data, j, Texts(data).error)
    decreases |data|
  {
    if data != [] {
      var m := |data| - 1;
      var front := data[..m];
      if Texts(front).Err? {
        TextsErr(front);
        var j :| FirstTextErr(front, j, Texts(front).error);
        assert Texts(data) == Texts(front);
        FirstTextErrExtends(front, data, j, Texts(front).error);
      } else if TextOf(data[m]).Err? {
        LastTextErr(data);
      }
    }
  }

  lemma LastTextErr(data: seq<Doc>)
    requires data != [] && Texts(data[..|data| - 1]).Ok? && TextOf(data[|data| - 1]).Err?
    ensures Texts(data).Err? && FirstTextErr(data, |data| - 1, Texts(data).error)
  {
    var m := |data| - 1;
    var front := data[..m];
    assert forall i :: 0 <= i < m ==> TextOf(front[i]).Ok? by {
      TextsOk(front);
    }
    forall i | 0 <= i < m
      ensures TextOf(data[i]).Ok?
    {
      assert front[i] == data[i];
    }
  }

  lemma FirstTextErrExtends(front: seq<Doc>, data: seq<Doc>, j: int, e: string)
    requires |front| <= |data| && front == data[..|front|] && FirstTextErr(front, j, e)
    ensures FirstTextErr(data, j, e)
  {
    assert forall i :: 0 <= i <= j ==> front[i] == data[i];
  }

  /** A character of the class \w, for the ASCII characters: a letter, a
      digit or the underscore. */
  predicate IsWordChar(c: char)
  {
    'a' <= c <= 'z' || 'A' <= c <= 'Z' || '0' <= c <= '9' || c == '_'
  }

  /** The text holds a term for a TfidfVectorizer with its default token
      pattern: two word characters side by side. */
  predicate HasTerm(text: string)
  {
    exists i | 0 <= i < |text| - 1 :: IsWordChar(text[i]) && IsWordChar(text[i + 1])
  }

  /** The default token pattern \b\w\w+\b matches text[i..k]: a run of at
      least two word characters with no word character on either side. */
  ghost predicate TermAt(text: string, i: int, k: int)
  {
    0 <= i && i + 2 <= k <= |text|
    && (forall t | i <= t < k :: IsWordChar(text[t]))
    && (i == 0 || !IsWordChar(text[i - 1]))
    && (k == |text| || !IsWordChar(text[k]))
  }

  /** The start of the run of word characters holding position i. */
  function RunStart(text: string, i: nat): (r: nat)
    requires i < |text| && IsWordChar(text[i])
    ensures r <= i && (r == 0 || !IsWordChar(text[r - 1]))
    ensures forall t | r <= t <= i :: IsWordChar(text[t])
  {
    if i == 0 || !IsWordChar(text[i - 1]) then i else RunStart(text, i - 1)
  }

  /** The end of the run of word characters holding position i. */
  function RunEnd(text: string, i: nat): (r: nat)
    requires i < |text| && IsWordChar(text[i])
    ensures i < r <= |text| && (r == |text| || !IsWordChar(text[r]))
    ensures forall t | i <= t < r :: IsWordChar(text[t])
    decreases |text| - i
  {
    if i + 1 == |text| || !IsWordChar(text[i + 1]) then i + 1 else RunEnd(text, i + 1)
  }

  /** Two adjacent word characters are exactly what it takes for the token
      pattern to match somewhere: the run that holds them is a match. */
  lemma HasTermIff(text: string)
    ensures HasTerm(text) <==> exists i, k :: TermAt(text, i, k)
  {
    if HasTerm(text) {
      var i :| 0 <= i < |text| - 1 && IsWordChar(text[i]) && IsWordChar(text[i + 1]);
      var lo, hi := RunStart(text, i), RunEnd(text, i + 1);
      assert TermAt(text, lo, hi);
    }
    if exists i, k :: TermAt(text, i, k) {
      var i, k :| TermAt(text, i, k);
      assert IsWordChar(text[i]) && IsWordChar(text[i + 1]);
    }
  }

  const EmptyVocabulary := "ValueError: empty vocabulary; perhaps the documents only contain stop words"

  /** What fit_transform of a TfidfVectorizer with its default settings does
      with the documents' texts: it raises when no text holds a term, and
      otherwise fits the vectorizer on them. The weights themselves belong
      to the ranking. */
  function TfidfIndex(data: seq<Doc>): Result<seq<string>>
  {
    var texts := Texts(data);
    if texts.Err? then texts
    else if forall j | 0 <= j < |texts.value| :: !HasTerm(texts.value[j]) then Err(EmptyVocabulary)
    else texts
  }

  /** The index is built exactly when every document has a text and some
      text holds a term; an empty corpus has no vocabulary. */
  lemma TfidfIndexSpec(data: seq<Doc>)
    ensures TfidfIndex(data).Ok? <==>
      (forall j :: 0 <= j < |data| ==> TextOf(data[j]).Ok?) && exists j :: 0 <= j < |data| && HasTerm(TextOf(data[j]).value)
    ensures TfidfIndex(data).Ok? ==> TfidfIndex(data).value == Texts(data).value
    ensures Texts(data).Ok? && TfidfIndex(data).Err? ==> TfidfIndex(data).error == EmptyVocabulary
    ensures data == [] ==> TfidfIndex(data) == Err(EmptyVocabulary)
  {
    TextsSpec(data);
  }

  /** What TfidfSearchEngine.search returns or raises. */
  function TfidfResults(data: Option<seq<Doc>>, index: Option<seq<string>>, query: string, topK: int,
                        rank: (string, seq<string>) -> Ranking): Result<seq<Doc>>
  {
    if index.None? then Err("AssertionError: Index is not set")
    else if data.None? then Err("AssertionError: Data is not set")
    else Hits(data.value, PrefixSlice(rank(query, index.value), topK))
  }

  class TfidfSearchEngine {
    /** _data: the documents given to the last fit */
    var data: Option<seq<Doc>>
    /** _index: the texts the vectorizer was last fitted on */
    var index: Option<seq<string>>

    constructor()
      ensures data == None && index == None
    {
      data := None;
      index := None;
    }

    /** fit stores the documents as given before it reads their texts, so a
        fit that raises leaves the new documents beside the old index. */
    method Fit(newData: seq<Doc>) returns (r: Result<()>)
      modifies this
      ensures data == Some(newData)
      ensures TfidfIndex(newData).Ok? ==> r == Ok(()) && index == Some(TfidfIndex(newData).value)
      ensures TfidfIndex(newData).Err? ==> r == Err(TfidfIndex(newData).error) && index == old(index)
    {
      data := Some(newData);
      var docs := Texts(newData);
      if docs.Err? {
        return Err(docs.error);
      }
      if forall j | 0 <= j < |docs.value| :: !HasTerm(docs.value[j]) {
        return Err(EmptyVocabulary);
      }
      index := Some(docs.value);
      return Ok(());
    }

    /** search fails its assertions until fit has set the index. */
    method Search(query: string, topK: int, rank: (string, seq<string>) -> Ranking) returns (r: Result<seq<Doc>>)
      ensures r == TfidfResults(data, index, query, topK, rank)
      ensures index.None? ==> r == Err("AssertionError: Index is not set")
    {
      if index.None? {
        return Err("AssertionError: Index is not set");
      }
      if data.None? {
        return Err("AssertionError: Data is not set");
      }
      var topKIndices := PrefixSlice(rank(query, index.value), topK);
      r := CollectHits(data.value, topKIndices);
    }
  }

  /** After a fit that built an index (every document has a text and some
      text holds a term), a search whose ranking stays within the index
      returns, for each of its first top_k positions, that document with its
      score in front. */
  lemma TfidfFitThenSearch(d: seq<Doc>, query: string, topK: int, rank: (string, seq<string>) -> Ranking)
    requires TfidfIndex(d).Ok?
    requires forall j :: 0 <= j < |rank(query, Texts(d).value)| ==> rank(query, Texts(d).value)[j].0 < |d|
    ensures var ranked := PrefixSlice(rank(query, Texts(d).value), topK);
            var r := TfidfResults(Some(d), Some(TfidfIndex(d).value), query, topK, rank);
            r.Ok? && |r.value| == |ranked| &&
            forall j :: 0 <= j < |ranked| ==> r.value[j] == Hit(ranked[j].1, d[ranked[j].0])
  {
    TextsSpec(d);
    var all := rank(query, Texts(d).value);
    var ranked := PrefixSlice(all, topK);
    assert forall j :: 0 <= j < |ranked| ==> ranked[j] == all[j];
    HitsSpec(d, ranked);
  }

  /** What BM25SearchEngine.search returns or raises. The index exists from
      the constructor on, so only the data assertion can fail. */
  function BM25Results(data: Option<seq<Doc>>, corpus: seq<string>, query: string, topK: int,
                       retrieve: (string, seq<string>, int) -> Result<Ranking>): Result<seq<Doc>>
  {
    if data.None? then Err("AssertionError: Data is not set")
    else
      var ranked := retrieve(query, corpus, topK);
      if ranked.Err? then Err(ranked.error) else Hits(data.value, ranked.value)
  }

  class BM25SearchEngine {
    /** _data: the documents given to the last fit */
    var data: Option<seq<Doc>>
    /** the texts _index was last built on; the index of a new engine holds none */
    var corpus: seq<string>

    constructor()
      ensures data == None && corpus == []
    {
      data := None;
      corpus := [];
    }

    method Fit(newData: seq<Doc>) returns (r: Result<()>)
      modifies this
      ensures data == Some(newData)
      ensures Texts(newData).Ok? ==> r == Ok(()) && corpus == Texts(newData).value
      ensures Texts(newData).Err? ==> r == Err(Texts(newData).error) && corpus == old(corpus)
    {
      data := Some(newData);
      var texts := Texts(newData);
      if texts.Err? {
        return Err(texts.error);
      }
      corpus := texts.value;
      return Ok(());
    }

    method Search(query: string, topK: int, retrieve: (string, seq<string>, int) -> Result<Ranking>)
      returns (r: Result<seq<Doc>>)
      ensures r == BM25Results(data, corpus, query, topK, retrieve)
      ensures data.None? ==> r == Err("AssertionError: Data is not set")
    {
      if data.None? {
        return Err("AssertionError: Data is not set");
      }
      var results := retrieve(query, corpus, topK);
      if results.Err? {
        return Err(results.error);
      }
      r := CollectHits(data.value, results.value);
    }
  }

  /** After a fit, the search results are the retrieved documents in the
      order retrieved, each with its score in front. */
  lemma BM25FitThenSearch(d: seq<Doc>, query: string, topK: int,
                          retrieve: (string, seq<string>, int) -> Result<Ranking>)
    requires Texts(d).Ok? && retrieve(query, Texts(d).value, topK).Ok?
    requires var ranked := retrieve(query, Texts(d).value, topK).value;
             forall j :: 0 <= j < |ranked| ==> ranked[j].0 < |d|
    ensures var ranked := retrieve(query, Texts(d).value, topK).value;
            var r := BM25Results(Some(d), Texts(d).value, query, topK, retrieve);
            r.Ok? && |r.value| == |ranked| &&
            forall j :: 0 <= j < |ranked| ==> r.value[j] == Hit(ranked[j].1, d[ranked[j].0])
  {
    TextsSpec(d);
    HitsSpec(d, retrieve(query, Texts(d).value, topK).value);
  }

  /** The embedding matrix DenseSearchEngine.fit builds: batch_embed over
      the texts, in batches of 25. */
  function DenseIndex(d: seq<Doc>, embed: Embedder): Result<seq<Vector>>
  {
    var texts := Texts(d);
    if texts.Err? then Err(texts.error) else BatchEmbedSpec(texts.value, 25, embed)
  }

  /** What DenseSearchEngine.search returns or raises: reading the shape of
      a missing index raises before the query is embedded. */
  function DenseResults(data: Option<seq<Doc>>, index: Option<seq<Vector>>, query: string, topK: int,
                        embed: Embedder, rank: (seq<Vector>, seq<Vector>) -> Ranking): Result<seq<Doc>>
    requires index.Some? ==> data.Some?
  {
    if index.None? then Err("AttributeError: 'NoneType' object has no attribute 'shape'")
    else
      var q := BatchEmbedSpec([query], 25, embed);
      if q.Err? then Err(q.error)
      else Hits(data.value, PrefixSlice(rank(q.value, index.value), topK))
  }

  class DenseSearchEngine {
    /** _data: the documents given to the last fit */
    var data: Option<seq<Doc>>
    /** _index: one embedding row per indexed text */
    var index: Option<seq<Vector>>

    /** An index is only ever set after the data. */
    ghost predicate Valid()
      reads this
    {
      index.Some? ==> data.Some?
    }

    constructor()
      ensures data == None && index == None
      ensures Valid()
    {
      data := None;
      index := None;
    }

    method Fit(newData: seq<Doc>, embed: Embedder) returns (r: Result<()>)
      modifies this
      ensures Valid()
      ensures data == Some(newData)
      ensures DenseIndex(newData, embed).Ok? ==> r == Ok(()) && index == Some(DenseIndex(newData, embed).value)
      ensures DenseIndex(newData, embed).Err? ==> r == Err(DenseIndex(newData, embed).error) && index == old(index)
    {
      data := Some(newData);
      var docs := Texts(newData);
      if docs.Err? {
        return Err(docs.error);
      }
      var embeddings := BatchEmbed(docs.value, 25, embed);
      if embeddings.Err? {
        return Err(embeddings.error);
      }
      index := Some(embeddings.value);
      return Ok(());
    }

    method Search(query: string, topK: int, embed: Embedder, rank: (seq<Vector>, seq<Vector>) -> Ranking)
      returns (r: Result<seq<Doc>>)
      requires Valid()
      ensures r == DenseResults(data, index, query, topK, embed, rank)
    {
      if index.None? {
        return Err("AttributeError: 'NoneType' object has no attribute 'shape'");
      }
      var queryEmbedding := BatchEmbed([query], 25, embed);
      if queryEmbedding.Err? {
        return Err(queryEmbedding.error);
      }
      var topKIndices := PrefixSlice(rank(queryEmbedding.value, index.value), topK);
      r := CollectHits(data.value, topKIndices);
    }
  }

  /** With an embedding service that answers every batch with one row per
      text, all of one width, the index of a fit on documents that all have
      texts holds one row per document. */
  lemma DenseFitAligned(d: seq<Doc>, embed: Embedder, dim: nat)
    requires d != [] && forall j :: 0 <= j < |d| ==> TextOf(d[j]).Ok?
    requires RowPerText(embed)
    requires forall b :: embed(b).Ok? && forall k :: 0 <= k < |embed(b).value| ==> |embed(b).value[k]| == dim
    ensures DenseIndex(d, embed).Ok? && |DenseIndex(d, embed).value| == |d|
  {
    TextsSpec(d);
    BatchEmbedAligned(Texts(d).value, 25, embed, dim);
  }

  /** When the service refuses the query with a rate-limit error, the batch
      is skipped, nothing is left to stack and the search raises. */
  lemma DenseQueryRateLimited(query: string, embed: Embedder)
    requires embed([query]).Err? && RateLimited(embed([query]).error)
    ensures BatchEmbedSpec([query], 25, embed) == Err("ValueError: need at least one array to stack")
  {
    var q := [query];
    assert q[..1] == q && q[1..] == [];
    assert Batches(q, 25) == [q];
    assert Embedded([q], embed) == Embedded([], embed);
  }

  /** A vector sent to the store: (id, values, metadata). */
  datatype Upsert = Upsert(id: string, values: Vector, metadata: Doc)

  /** The vectors a fit upserts, in order, and the error that stopped it,
      if any. */
  datatype Upserted = Upserted(vectors: seq<Upsert>, error: Option<string>)

  const UpsertBatch: nat := 50

  /** The comprehension that pairs a batch's rows with its documents: zip
      stops at the shorter of the two; the id is str(offset + idx) and the
      metadata the document without its "vector" key. */
  function BatchVectors(offset: nat, rows: seq<Vector>, batch: seq<Doc>): (vs: seq<Upsert>)
    ensures |vs| == if |rows| < |batch| then |rows| else |batch|
  {
    var n := if |rows| < |batch| then |rows| else |batch|;
    seq(n, idx requires 0 <= idx < n => Upsert(NatToDecimal(offset + idx), rows[idx], Remove(batch[idx], "vector")))
  }

  /** What VectorStoreSearchEngine.fit upserts for the documents from
      position `offset` on, in batches of 50: each batch's texts are
      embedded by batch_embed (batches of 25), and the first error stops
      the loop after the batches before it were upserted. */
  function FitFrom(docs: seq<Doc>, offset: nat, embed: Embedder): Upserted
    decreases |docs|
  {
    if docs == [] then Upserted([], None)
    else
      var n := if |docs| < UpsertBatch then |docs| else UpsertBatch;
      var b := BatchUpserts(docs[..n], offset, embed);
      if b.Err? then Upserted([], Some(b.error))
      else Prefixed(b.value, FitFrom(docs[n..], offset + n, embed))
  }

  /** One pass of the loop of fit: the batch's texts, their embeddings, and
      the vectors made of them. */
  function BatchUpserts(batch: seq<Doc>, offset: nat, embed: Embedder): Result<seq<Upsert>>
  {
    var texts := Texts(batch);
    if texts.Err? then Err(texts.error)
    else
      var rows := BatchEmbedSpec(texts.value, 25, embed);
      if rows.Err? then Err(rows.error) else Ok(BatchVectors(offset, rows.value, batch))
  }

  function Prefixed(sent: seq<Upsert>, u: Upserted): Upserted
  {
    Upserted(sent + u.vectors, u.error)
  }

  lemma FitStep(data: seq<Doc>, i: nat, embed: Embedder)
    requires i < |data|
    ensures var n := if |data| - i < UpsertBatch then |data| - i else UpsertBatch;
            var b := BatchUpserts(data[i..i + n], i, embed);
            FitFrom(data[i..], i, embed) ==
              if b.Err? then Upserted([], Some(b.error)) else Prefixed(b.value, FitFrom(data[i + n..], i + n, embed))
  {
    var n := if |data| - i < UpsertBatch then |data| - i else UpsertBatch;
    assert data[i..][..n] == data[i..i + n];
    assert data[i..][n..] == data[i + n..];
  }

  /** One more batch of the loop of fit: an error ends the upserts, a
      success adds the batch's vectors to those sent. */
  lemma FitAdvance(data: seq<Doc>, i: nat, n: nat, b: Result<seq<Upsert>>, embed: Embedder,
                    sent: seq<Upsert>, total: Upserted)
    requires i < |data| && n == if |data| - i < UpsertBatch then |data| - i else UpsertBatch
    requires b == BatchUpserts(data[i..i + n], i, embed)
    requires total == Prefixed(sent, FitFrom(data[i..], i, embed))
    ensures b.Err? ==> total == Upserted(sent, Some(b.error))
    ensures b.Ok? ==> total == Prefixed(sent + b.value, FitFrom(data[i + n..], i + n, embed))
  {
    FitStep(data, i, embed);
    if b.Err? {
      PrefixedNone(sent, b.error);
    } else {
      PrefixedTwice(sent, b.value, FitFrom(data[i + n..], i + n, embed));
    }
  }

  lemma AppendAssoc(a: seq<Upsert>, b: seq<Upsert>, c: seq<Upsert>)
    ensures (a + b) + c == a + (b + c)
  {
  }

  lemma PrefixedDone(sent: seq<Upsert>)
    ensures Prefixed(sent, Upserted([], None)) == Upserted(sent, None)
  {
    assert sent + [] == sent;
  }

  lemma PrefixedNone(sent: seq<Upsert>, e: string)
    ensures Prefixed(sent, Upserted([], Some(e))) == Upserted(sent, Some(e))
  {
    assert sent + [] == sent;
  }

  lemma PrefixedTwice(sent: seq<Upsert>, more: seq<Upsert>, u: Upserted)
    ensures Prefixed(sent, Prefixed(more, u)) == Prefixed(sent + more, u)
  {
    assert sent + (more + u.vectors) == (sent + more) + u.vectors;
  }

  class VectorStoreSearchEngine {
    const indexName: string
    /** _index: the handle on the remote index */
    var index: Option<string>
    /** the vectors upserted into the remote index so far, in order */
    var upserted: seq<Upsert>

    constructor(indexName: string)
      ensures this.indexName == indexName && index == None && upserted == []
    {
      this.indexName := indexName;
      index := None;
      upserted := [];
    }

    /** fit opens the index, then upserts the documents batch by batch; an
        error leaves the batches before it upserted. */
    method Fit(data: seq<Doc>, embed: Embedder) returns (r: Result<()>)
      modifies this
      ensures index == Some(indexName)
      ensures upserted == old(upserted) + FitFrom(data, 0, embed).vectors
      ensures r == if FitFrom(data, 0, embed).error.Some? then Err(FitFrom(data, 0, embed).error.value) else Ok(())
    {
      index := Some(indexName);
      var batchSize := UpsertBatch;
      var i := 0;
      ghost var sent: seq<Upsert> := [];
      ghost var base := upserted;
      ghost var total := FitFrom(data, 0, embed);
      assert data[0..] == data;
      while i < |data|
        invariant 0 <= i <= |data|
        invariant index == Some(indexName)
        invariant upserted == base + sent
        invariant total == Prefixed(sent, FitFrom(data[i..], i, embed))
        decreases |data| - i
      {
        var n := if |data| - i < batchSize then |data| - i else batchSize;
        var batch := data[i..i + n];
        var b := EmbedBatch(batch, i, embed);
        FitAdvance(data, i, n, b, embed, sent, total);
        if b.Err? {
          return Err(b.error);
        }
        var vectors := b.value;
        AppendAssoc(base, sent, vectors);
        upserted := upserted + vectors;
        sent := sent + vectors;
        i := i + n;
      }
      assert data[i..] == [];
      PrefixedDone(sent);
      return Ok(());
    }

    /** The body of the loop of fit up to the upsert. */
    static method EmbedBatch(batch: seq<Doc>, offset: nat, embed: Embedder) returns (b: Result<seq<Upsert>>)
      ensures b == BatchUpserts(batch, offset, embed)
    {
      var texts := Texts(batch);
      if texts.Err? {
        return Err(texts.error);
      }
      var embeddings := BatchEmbed(texts.value, 25, embed);
      if embeddings.Err? {
        return Err(embeddings.error);
      }
      return Ok(BatchVectors(offset, embeddings.value, batch));
    }

    /** load opens the index without upserting anything. */
    method Load()
      modifies this
      ensures index == Some(indexName) && upserted == old(upserted)
    {
      index := Some(indexName);
    }

    /** search embeds the query, then asks the store; a store that was
        neither fitted nor loaded has no index to ask. Each match's
        metadata gets "score" assigned. */
    method Search(query: string, topK: int, filters: Option<Doc>, embed: Embedder,
                  ask: (seq<Upsert>, Vector, int, Option<Doc>) -> seq<(Doc, real)>)
      returns (r: Result<seq<Doc>>)
      ensures r == StoreResults(index, upserted, query, topK, filters, embed, ask)
    {
      var queryEmbedding := BatchEmbed([query], 25, embed);
      if queryEmbedding.Err? {
        return Err(queryEmbedding.error);
      }
      if index.None? {
        return Err("AttributeError: 'NoneType' object has no attribute 'query'");
      }
      var matches := ask(upserted, queryEmbedding.value[0], topK, filters);
      var results: seq<Doc> := [];
      for j := 0 to |matches|
        invariant results == Scored(matches[..j])
      {
        assert matches[..j + 1][..j] == matches[..j];
        var result := Put(matches[j].0, "score", Real(matches[j].1));
        results := results + [result];
      }
      assert matches[..|matches|] == matches;
      return Ok(results);
    }
  }

  /** result = match.metadata; result["score"] = score, for each match. */
  function Scored(matches: seq<(Doc, real)>): seq<Doc>
  {
    if matches == [] then []
    else
      var m := matches[|matches| - 1];
      Scored(matches[..|matches| - 1]) + [Put(m.0, "score", Real(m.1))]
  }

  /** What VectorStoreSearchEngine.search returns or raises. */
  function StoreResults(index: Option<string>, upserted: seq<Upsert>, query: string, topK: int,
                        filters: Option<Doc>, embed: Embedder,
                        ask: (seq<Upsert>, Vector, int, Option<Doc>) -> seq<(Doc, real)>): Result<seq<Doc>>
  {
    var q := BatchEmbedSpec([query], 25, embed);
    if q.Err? then Err(q.error)
    else if index.None? then Err("AttributeError: 'NoneType' object has no attribute 'query'")
    else Ok(Scored(ask(upserted, q.value[0], topK, filters)))
  }

  /** One result per match, in order: the match's metadata with "score"
      set to its score (in place when the metadata has one, last
      otherwise), every other key unchanged. */
  lemma ScoredSpec(matches: seq<(Doc, real)>)
    requires forall j :: 0 <= j < |matches| ==> Valid(matches[j].0)
    ensures |Scored(matches)| == |matches|
    ensures forall j :: 0 <= j < |matches| ==>
              Valid(Scored(matches)[j]) &&
              Keys(Scored(matches)[j]) == (if "score" in Keys(matches[j].0) then Keys(matches[j].0) else Keys(matches[j].0) + ["score"]) &&
              Get(Scored(matches)[j], "score") == Some(Real(matches[j].1)) &&
              forall k :: k != "score" ==> Get(Scored(matches)[j], k) == Get(matches[j].0, k)
  {
    ScoredAt(matches);
    forall j | 0 <= j < |matches|
      ensures Valid(Scored(matches)[j])
      ensures Keys(Scored(matches)[j]) == (if "score" in Keys(matches[j].0) then Keys(matches[j].0) else Keys(matches[j].0) + ["score"])
      ensures Get(Scored(matches)[j], "score") == Some(Real(matches[j].1))
      ensures forall k :: k != "score" ==> Get(Scored(matches)[j], k) == Get(matches[j].0, k)
    {
      PutSpec(matches[j].0, "score", Real(matches[j].1));
    }
  }

  lemma {:induction false} ScoredAt(matches: seq<(Doc, real)>)
    ensures |Scored(matches)| == |matches|
    ensures forall j :: 0 <= j < |matches| ==> Scored(matches)[j] == Put(matches[j].0, "score", Real(matches[j].1))
    decreases |matches|
  {
    if matches != [] {
      var m := |matches| - 1;
      ScoredAt(matches[..m]);
      assert forall j :: 0 <= j < m ==> matches[..m][j] == matches[j];
    }
  }

  /** The positions in `docs` (counted from `offset`) of the documents the
      vectors came from: increasing, each vector's id is its position in
      decimal and its metadata that document without "vector". */
  ghost predicate Positional(ps: seq<nat>, vs: seq<Upsert>, docs: seq<Doc>, offset: nat)
  {
    |ps| == |vs|
    && (forall j :: 0 <= j < |ps| ==>
          offset <= ps[j] < offset + |docs| && vs[j].id == NatToDecimal(ps[j]) &&
          vs[j].metadata == Remove(docs[ps[j] - offset], "vector"))
    && (forall j, k :: 0 <= j < k < |ps| ==> ps[j] < ps[k])
  }

  lemma {:induction false} FitFromPositional(docs: seq<Doc>, offset: nat, embed: Embedder)
    ensures exists ps :: Positional(ps, FitFrom(docs, offset, embed).vectors, docs, offset)
    decreases |docs|
  {
    var n := if |docs| < UpsertBatch then |docs| else UpsertBatch;
    if docs == [] || BatchUpserts(docs[..n], offset, embed).Err? {
      assert FitFrom(docs, offset, embed).vectors == [];
      assert Positional([], FitFrom(docs, offset, embed).vectors, docs, offset);
    } else {
      var b := BatchUpserts(docs[..n], offset, embed).value;
      var rest := FitFrom(docs[n..], offset + n, embed).vectors;
      BatchPositional(docs[..n], offset, embed);
      var ps :| Positional(ps, b, docs[..n], offset);
      FitFromPositional(docs[n..], offset + n, embed);
      var qs :| Positional(qs, rest, docs[n..], offset + n);
      PositionalAppend(ps, b, qs, rest, docs, n, offset);
      assert FitFrom(docs, offset, embed).vectors == b + rest;
    }
  }

  lemma BatchPositional(batch: seq<Doc>, offset: nat, embed: Embedder)
    requires BatchUpserts(batch, offset, embed).Ok?
    ensures exists ps :: Positional(ps, BatchUpserts(batch, offset, embed).value, batch, offset)
  {
    var bv := BatchUpserts(batch, offset, embed).value;
    var ps := seq(|bv|, idx requires 0 <= idx < |bv| => offset + idx);
    assert Positional(ps, bv, batch, offset);
  }

  lemma PositionalAppend(ps: seq<nat>, vs: seq<Upsert>, qs: seq<nat>, ws: seq<Upsert>, docs: seq<Doc>, n: nat, offset: nat)
    requires n <= |docs|
    requires Positional(ps, vs, docs[..n], offset) && Positional(qs, ws, docs[n..], offset + n)
    ensures Positional(ps + qs, vs + ws, docs, offset)
  {
    var all := ps + qs;
    var out := vs + ws;
    forall j | 0 <= j < |all|
      ensures offset <= all[j] < offset + |docs| && out[j].id == NatToDecimal(all[j])
      ensures out[j].metadata == Remove(docs[all[j] - offset], "vector")
    {
      if j < |ps| {
        assert docs[..n][ps[j] - offset] == docs[all[j] - offset];
      } else {
        assert out[j] == ws[j - |ps|] && all[j] == qs[j - |ps|];
        assert docs[n..][qs[j - |ps|] - offset - n] == docs[all[j] - offset];
      }
    }
  }

  /** The ids fit upserts are the positions of their documents in `data`
      in decimal, not anything derived from the content, so no two are
      alike; each vector's metadata is its document without "vector". */
  lemma FitIds(data: seq<Doc>, embed: Embedder)
    ensures var vs := FitFrom(data, 0, embed).vectors;
            (forall j :: 0 <= j < |vs| ==>
               exists p :: 0 <= p < |data| && vs[j].id == NatToDecimal(p) && vs[j].metadata == Remove(data[p], "vector"))
            && (forall j, k :: 0 <= j < k < |vs| ==> vs[j].id != vs[k].id)
  {
    var vs := FitFrom(data, 0, embed).vectors;
    FitFromPositional(data, 0, embed);
    var ps :| Positional(ps, vs, data, 0);
    forall j | 0 <= j < |vs|
      ensures exists p :: 0 <= p < |data| && vs[j].id == NatToDecimal(p) && vs[j].metadata == Remove(data[p], "vector")
    {
      assert data[ps[j] - 0] == data[ps[j]];
    }
    forall j, k | 0 <= j < k < |vs|
      ensures vs[j].id != vs[k].id
    {
      if vs[j].id == vs[k].id {
        NatToDecimalInjective(ps[j], ps[k]);
      }
    }
  }

  /** With an embedding service that answers every batch with one row per
      text, all of one width, and documents that all have texts, fit
      upserts one vector per document, without error. */
  lemma FitFromAligned(docs: seq<Doc>, offset: nat, embed: Embedder, dim: nat)
    requires forall j :: 0 <= j < |docs| ==> TextOf(docs[j]).Ok?
    requires RowPerText(embed)
    requires forall b :: embed(b).Ok? && forall k :: 0 <= k < |embed(b).value| ==> |embed(b).value[k]| == dim
    ensures FitFrom(docs, offset, embed).error.None?
    ensures |FitFrom(docs, offset, embed).vectors| == |docs|
  {
    forall batch: seq<Doc>, start: nat | batch != [] && forall j :: 0 <= j < |batch| ==> TextOf(batch[j]).Ok?
      ensures BatchUpserts(batch, start, embed).Ok? && |BatchUpserts(batch, start, embed).value| == |batch|
    {
      BatchAligned(batch, start, embed, dim);
    }
    FitFromComplete(docs, offset, embed);
  }

  /** Every batch of documents with texts makes one vector per document. */
  ghost predicate BatchesComplete(embed: Embedder)
  {
    forall batch: seq<Doc>, start: nat ::
      batch != [] && (forall j :: 0 <= j < |batch| ==> TextOf(batch[j]).Ok?) ==>
        BatchUpserts(batch, start, embed).Ok? && |BatchUpserts(batch, start, embed).value| == |batch|
  }

  lemma {:induction false} FitFromComplete(docs: seq<Doc>, offset: nat, embed: Embedder)
    requires forall j :: 0 <= j < |docs| ==> TextOf(docs[j]).Ok?
    requires BatchesComplete(embed)
    ensures FitFrom(docs, offset, embed).error.None?
    ensures |FitFrom(docs, offset, embed).vectors| == |docs|
    decreases |docs|
  {
    if docs != [] {
      var n := if |docs| < UpsertBatch then |docs| else UpsertBatch;
      var back := docs[n..];
      FitHead(docs, offset, embed, n);
      TextsOkSlice(docs, n, |docs|);
      assert docs[n..|docs|] == back;
      FitFromComplete(back, offset + n, embed);
    }
  }

  /** The first batch of a fit whose batches complete sends one vector per
      document and leaves the rest to the remaining documents. */
  lemma FitHead(docs: seq<Doc>, offset: nat, embed: Embedder, n: nat)
    requires forall j :: 0 <= j < |docs| ==> TextOf(docs[j]).Ok?
    requires BatchesComplete(embed)
    requires docs != [] && n == if |docs| < UpsertBatch then |docs| else UpsertBatch
    ensures FitFrom(docs, offset, embed).error == FitFrom(docs[n..], offset + n, embed).error
    ensures |FitFrom(docs, offset, embed).vectors| == n + |FitFrom(docs[n..], offset + n, embed).vectors|
  {
    var front := docs[..n];
    var b := BatchUpserts(front, offset, embed);
    assert b.Ok? && |b.value| == n by {
      TextsOkSlice(docs, 0, n);
      assert docs[0..n] == front;
    }
  }

  lemma TextsOkSlice(docs: seq<Doc>, lo: nat, hi: nat)
    requires lo <= hi <= |docs|
    requires forall j :: 0 <= j < |docs| ==> TextOf(docs[j]).Ok?
    ensures forall j :: 0 <= j < hi - lo ==> TextOf(docs[lo..hi][j]).Ok?
  {
    forall j | 0 <= j < hi - lo ensures TextOf(docs[lo..hi][j]).Ok? { assert docs[lo..hi][j] == docs[lo + j]; }
  }

  /** Then the k-th vector is the k-th document's: its id is str(k) and its
      metadata the document without "vector". */
  lemma FitAlignedIds(data: seq<Doc>, embed: Embedder, dim: nat)
    requires forall j :: 0 <= j < |data| ==> TextOf(data[j]).Ok?
    requires RowPerText(embed)
    requires forall b :: embed(b).Ok? && forall k :: 0 <= k < |embed(b).value| ==> |embed(b).value[k]| == dim
    ensures var vs := FitFrom(data, 0, embed).vectors;
            |vs| == |data| &&
            forall j :: 0 <= j < |vs| ==> vs[j].id == NatToDecimal(j) && vs[j].metadata == Remove(data[j], "vector")
  {
    var vs := FitFrom(data, 0, embed).vectors;
    FitFromAligned(data, 0, embed, dim);
    FitFromPositional(data, 0, embed);
    var ps :| Positional(ps, vs, data, 0);
    IncreasingFull(ps, 0);
    forall j | 0 <= j < |vs|
      ensures vs[j].id == NatToDecimal(j) && vs[j].metadata == Remove(data[j], "vector")
    {
      assert ps[j] == j;
    }
  }

  /** |ps| increasing positions among |ps| consecutive ones are all of them. */
  lemma {:induction false} IncreasingFull(ps: seq<nat>, lo: nat)
    requires forall j :: 0 <= j < |ps| ==> lo <= ps[j] < lo + |ps|
    requires forall j, k :: 0 <= j < k < |ps| ==> ps[j] < ps[k]
    ensures forall j :: 0 <= j < |ps| ==> ps[j] == lo + j
    decreases |ps|
  {
    if ps != [] {
      var m := |ps| - 1;
      var front := ps[..m];
      IncreasingAtLeast(ps, lo);
      assert ps[m] == lo + m;
      assert forall j :: 0 <= j < m ==> front[j] == ps[j] && ps[j] < ps[m];
      IncreasingFull(front, lo);
    }
  }

  lemma {:induction false} IncreasingAtLeast(ps: seq<nat>, lo: nat)
    requires forall j :: 0 <= j < |ps| ==> lo <= ps[j]
    requires forall j, k :: 0 <= j < k < |ps| ==> ps[j] < ps[k]
    ensures forall j :: 0 <= j < |ps| ==> lo + j <= ps[j]
    decreases |ps|
  {
    if ps != [] {
      var m := |ps| - 1;
      var front := ps[..m];
      assert forall j :: 0 <= j < m ==> front[j] == ps[j];
      IncreasingAtLeast(front, lo);
      if m > 0 {
        assert ps[m - 1] < ps[m];
      }
    }
  }

  lemma BatchAligned(batch: seq<Doc>, offset: nat, embed: Embedder, dim: nat)
    requires batch != [] && forall j :: 0 <= j < |batch| ==> TextOf(batch[j]).Ok?
    requires RowPerText(embed)
    requires forall b :: embed(b).Ok? && forall k :: 0 <= k < |embed(b).value| ==> |embed(b).value[k]| == dim
    ensures BatchUpserts(batch, offset, embed).Ok?
    ensures |BatchUpserts(batch, offset, embed).value| == |batch|
  {
    TextsSpec(batch);
    BatchEmbedAligned(Texts(batch).value, 25, embed, dim);
  }
}
