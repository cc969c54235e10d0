/** Retrieval with reranking: the number of candidates to fetch and of
    results to keep is derived from the caller's optional `top_k` and
    `top_n`; the candidates of a sparse and a dense engine are merged by
    chunk id; the reranking service orders the candidates and each chosen
    candidate gets its new score written into it.

    Search engines are the parameters `search`, `sparse` and `dense`, the
    reranking service the parameter `rerank`: for a model, a query, the
    candidates' texts and a count it returns (position, score) pairs, or
    the text of the exception it raises. */
module Retrieval {
  import opened Common
  import opened Dicts

  /** Python truthiness of an optional int: None and 0 are false. */
  predicate Truthy(x: Option<int>)
  {
    x.Some? && x.value != 0
  }

  /** The case split at the start of invoke: (top_k, top_n) become the
      number of candidates to fetch and the number to keep. When both are
      None the `top_k == top_n` branch runs and `None * 2` raises. */
  function Derive(topK: Option<int>, topN: Option<int>): (r: Result<(int, int)>)
    ensures r.Err? <==> topK.None? && topN.None?
    ensures r.Ok? ==> r.value.0 == 2 * r.value.1 || r.value == (10, 5)
    ensures Truthy(topK) && !Truthy(topN) ==> r == Ok((2 * topK.value, topK.value))
    ensures Truthy(topN) && !Truthy(topK) ==> r == Ok((2 * topN.value, topN.value))
    ensures Truthy(topK) && Truthy(topN) ==> r == if topK == topN then Ok((2 * topK.value, topK.value)) else Ok((10, 5))
    ensures !Truthy(topK) && !Truthy(topN) ==>
              r == if topK == topN then (if topK.None? then r else Ok((0, 0))) else Ok((10, 5))
  {
    if Truthy(topK) && !Truthy(topN) then Ok((topK.value * 2, topK.value))
    else if Truthy(topN) && !Truthy(topK) then Ok((topN.value * 2, topN.value))
    else if topK == topN then
      if topK.None? then Err("TypeError: unsupported operand type(s) for *: 'NoneType' and 'int'")
      else Ok((topK.value * 2, topN.value))
    else Ok((10, 5))
  }

  /** The documentation tool asks for twice as many candidates as results;
      both are truthy and different, so the defaults replace them. */
  lemma DeriveDoubled(n: int)
    requires n != 0
    ensures Derive(Some(2 * n), Some(n)) == Ok((10, 5))
  {
  }

  /** The key of a candidate in the dedup dict. Python's 1 == 1.0 makes an
      int and the equal float one key. */
  datatype Key = StrKey(s: string) | NumKey(r: real) | NullKey

  /** doc["chunk_id"] used as a dict key: KeyError when absent; a dict is
      unhashable. */
  function ChunkKey(doc: Doc): Result<Key>
  {
    match Get(doc, "chunk_id")
    case None => Err("KeyError: 'chunk_id'")
    case Some(v) =>
      match v
      case Str(s) => Ok(StrKey(s))
      case Int(i) => Ok(NumKey(i as real))
      case Real(x) => Ok(NumKey(x))
      case Null => Ok(NullKey)
      case Obj(_) => Err("TypeError: unhashable type: 'dict'")
  }

  /** deduped_retrievals[doc["chunk_id"]] = doc for each doc in order. */
  function Deduped(docs: seq<Doc>): Result<Dict<Key, Doc>>
  {
    if docs == [] then Ok([])
    else
      var front := Deduped(docs[..|docs| - 1]);
      var doc := docs[|docs| - 1];
      if front.Err? then front
      else
        var k := ChunkKey(doc);
        if k.Err? then Err(k.error) else Ok(Put(front.value, k.value, doc))
  }

  /** list(deduped_retrievals.values()) */
  function DedupedValues(docs: seq<Doc>): Result<seq<Doc>>
  {
    var d := Deduped(docs);
    if d.Err? then Err(d.error) else Ok(Values(d.value))
  }

  /** The dedup loop of HybridRetrieverWithReranker.invoke. */
  method Dedup(retrievals: seq<Doc>) returns (r: Result<seq<Doc>>)
    ensures r == DedupedValues(retrievals)
  {
    var deduped: Dict<Key, Doc> := [];
    for i := 0 to |retrievals|
      invariant Deduped(retrievals[..i]) == Ok(deduped)
    {
      assert retrievals[..i + 1][..i] == retrievals[..i];
      var doc := retrievals[i];
      var key := ChunkKey(doc);
      if key.Err? {
        DedupedErrPrefix(retrievals, i + 1);
        return Err(key.error);
      }
      deduped := Put(deduped, key.value, doc);
    }
    assert retrievals[..|retrievals|] == retrievals;
    return Ok(Values(deduped));
  }

  lemma {:induction false} DedupedErrPrefix(docs: seq<Doc>, i: nat)
    requires i <= |docs| && Deduped(docs[..i]).Err?
    ensures Deduped(docs) == Deduped(docs[..i])
    decreases |docs| - i
  {
    if i < |docs| {
      assert docs[..i + 1][..i] == docs[..i];
      DedupedErrPrefix(docs, i + 1);
    } else {
      assert docs[..i] == docs;
    }
  }

  /** The dedup raises exactly when some candidate has no usable chunk id. */
  lemma {:induction false} DedupedErr(docs: seq<Doc>)
    ensures Deduped(docs).Err? <==> exists j :: 0 <= j < |docs| && ChunkKey(docs[j]).Err?
    decreases |docs|
  {
    if docs != [] {
      var m := |docs| - 1;
      DedupedErr(docs[..m]);
      assert forall j :: 0 <= j < m ==> docs[..m][j] == docs[j];
    }
  }

  /** The position of the first candidate with chunk id k, if any. */
  function FirstAt(docs: seq<Doc>, k: Key): (r: Option<nat>)
    ensures r.Some? ==> r.value < |docs|
  {
    if docs == [] then None
    else
      var front := FirstAt(docs[..|docs| - 1], k);
      if front.Some? then front
      else if ChunkKey(docs[|docs| - 1]) == Ok(k) then Some(|docs| - 1) else None
  }

  /** The position of the last candidate with chunk id k, if any. */
  function LastAt(docs: seq<Doc>, k: Key): (r: Option<nat>)
    ensures r.Some? ==> r.value < |docs|
  {
    if docs == [] then None
    else if ChunkKey(docs[|docs| - 1]) == Ok(k) then Some(|docs| - 1)
    else LastAt(docs[..|docs| - 1], k)
  }

  /** FirstAt and LastAt find the first and the last candidate with the
      chunk id, and both find none exactly when no candidate has it. */
  lemma OccurrenceSpec(docs: seq<Doc>, k: Key)
    ensures FirstAt(docs, k).None? <==> LastAt(docs, k).None?
    ensures FirstAt(docs, k).None? ==> forall j :: 0 <= j < |docs| ==> ChunkKey(docs[j]) != Ok(k)
    ensures FirstAt(docs, k).Some? ==>
              var f := FirstAt(docs, k).value;
              ChunkKey(docs[f]) == Ok(k) && forall j :: 0 <= j < f ==> ChunkKey(docs[j]) != Ok(k)
    ensures LastAt(docs, k).Some? ==>
              var l := LastAt(docs, k).value;
              ChunkKey(docs[l]) == Ok(k) && forall j :: l < j < |docs| ==> ChunkKey(docs[j]) != Ok(k)
  {
    FirstAtSpec(docs, k);
    LastAtSpec(docs, k);
  }

  lemma {:induction false} FirstAtSpec(docs: seq<Doc>, k: Key)
    ensures FirstAt(docs, k).None? ==> forall j :: 0 <= j < |docs| ==> ChunkKey(docs[j]) != Ok(k)
    ensures FirstAt(docs, k).Some? ==>
              var f := FirstAt(docs, k).value;
              ChunkKey(docs[f]) == Ok(k) && forall j :: 0 <= j < f ==> ChunkKey(docs[j]) != Ok(k)
    decreases |docs|
  {
    if docs != [] {
      var m := |docs| - 1;
      FirstAtSpec(docs[..m], k);
      assert forall j :: 0 <= j < m ==> docs[..m][j] == docs[j];
    }
  }

  lemma {:induction false} LastAtSpec(docs: seq<Doc>, k: Key)
    ensures LastAt(docs, k).None? ==> forall j :: 0 <= j < |docs| ==> ChunkKey(docs[j]) != Ok(k)
    ensures LastAt(docs, k).Some? ==>
              var l := LastAt(docs, k).value;
              ChunkKey(docs[l]) == Ok(k) && forall j :: l < j < |docs| ==> ChunkKey(docs[j]) != Ok(k)
    decreases |docs|
  {
    if docs != [] {
      var m := |docs| - 1;
      if ChunkKey(docs[m]) == Ok(k) {
        assert LastAt(docs, k) == Some(m);
      } else {
        var front := docs[..m];
        LastAtSpec(front, k);
        assert LastAt(docs, k) == LastAt(front, k);
        assert forall j :: 0 <= j < m ==> front[j] == docs[j];
      }
    }
  }

  /** One entry per distinct chunk id: the keys are exactly the chunk ids of
      the candidates, none twice, so there are at most as many entries as
      candidates; each entry holds the last candidate with its chunk id. */
  lemma {:induction false} DedupedKeys(docs: seq<Doc>)
    requires Deduped(docs).Ok?
    ensures Valid(Deduped(docs).value) && |Deduped(docs).value| <= |docs|
    ensures forall k :: k in Keys(Deduped(docs).value) <==> FirstAt(docs, k).Some?
    ensures forall k :: k in Keys(Deduped(docs).value) ==>
              LastAt(docs, k).Some? && Get(Deduped(docs).value, k) == Some(docs[LastAt(docs, k).value])
    decreases |docs|
  {
    if docs != [] {
      var m := |docs| - 1;
      var front := docs[..m];
      DedupedKeys(front);
      var d := Deduped(front).value;
      var k := ChunkKey(docs[m]).value;
      assert Deduped(docs) == Ok(Put(d, k, docs[m]));
      PutSpec(d, k, docs[m]);
      forall kk
        ensures kk in Keys(Deduped(docs).value) <==> FirstAt(docs, kk).Some?
        ensures kk in Keys(Deduped(docs).value) ==>
                  LastAt(docs, kk).Some? && Get(Deduped(docs).value, kk) == Some(docs[LastAt(docs, kk).value])
      {
        if kk != k {
          assert LastAt(docs, kk) == LastAt(front, kk);
          if kk in Keys(d) {
            OccurrenceSpec(front, kk);
            assert docs[LastAt(front, kk).value] == front[LastAt(front, kk).value];
          }
        }
      }
    }
  }

  /** Chunk id x first occurs before chunk id y. */
  predicate Before(docs: seq<Doc>, x: Key, y: Key)
  {
    FirstAt(docs, x).Some? && FirstAt(docs, y).Some? && FirstAt(docs, x).value < FirstAt(docs, y).value
  }

  predicate FirstOrdered(docs: seq<Doc>, ks: seq<Key>)
  {
    forall a, b :: 0 <= a < b < |ks| ==> Before(docs, ks[a], ks[b])
  }

  /** The entries come in the order of the first occurrence of their chunk
      ids. */
  lemma {:induction false} DedupedOrder(docs: seq<Doc>)
    requires Deduped(docs).Ok?
    ensures FirstOrdered(docs, Keys(Deduped(docs).value))
    decreases |docs|
  {
    if docs != [] {
      var m := |docs| - 1;
      var front := docs[..m];
      DedupedOrder(front);
      DedupedKeys(front);
      var d := Deduped(front).value;
      var k := ChunkKey(docs[m]).value;
      assert Deduped(docs) == Ok(Put(d, k, docs[m]));
      PutSpec(d, k, docs[m]);
      var ks := Keys(d);
      OrderKept(front, docs, ks);
      if k !in ks {
        assert FirstAt(front, k).None?;
        assert FirstAt(docs, k) == Some(m);
        OrderExtended(docs, ks, k);
      }
    }
  }

  lemma OrderKept(front: seq<Doc>, docs: seq<Doc>, ks: seq<Key>)
    requires docs != [] && front == docs[..|docs| - 1]
    requires FirstOrdered(front, ks)
    requires forall x :: x in ks ==> FirstAt(front, x).Some?
    ensures FirstOrdered(docs, ks)
    ensures forall x :: x in ks ==> FirstAt(docs, x).Some? && FirstAt(docs, x).value < |front|
  {
    forall x | x in ks
      ensures FirstAt(docs, x) == FirstAt(front, x)
    {
    }
    forall a, b | 0 <= a < b < |ks|
      ensures Before(docs, ks[a], ks[b])
    {
      assert ks[a] in ks && ks[b] in ks;
      assert Before(front, ks[a], ks[b]);
    }
  }

  lemma OrderExtended(docs: seq<Doc>, ks: seq<Key>, k: Key)
    requires FirstOrdered(docs, ks) && FirstAt(docs, k) == Some(|docs| - 1)
    requires forall x :: x in ks ==> FirstAt(docs, x).Some? && FirstAt(docs, x).value < |docs| - 1
    ensures FirstOrdered(docs, ks + [k])
  {
    var e := ks + [k];
    forall a, b | 0 <= a < b < |e|
      ensures Before(docs, e[a], e[b])
    {
      assert e[a] == ks[a] && ks[a] in ks;
      if b < |ks| {
        assert e[b] == ks[b];
        assert Before(docs, ks[a], ks[b]);
      } else {
        assert e[b] == k;
      }
    }
  }

  /** The merged candidates: no more than were retrieved, each one of them,
      no two with the same chunk id. */
  lemma DedupedCandidates(docs: seq<Doc>)
    requires DedupedValues(docs).Ok?
    ensures var vs := DedupedValues(docs).value;
            |vs| <= |docs| &&
            (forall i :: 0 <= i < |vs| ==> vs[i] in docs && ChunkKey(vs[i]).Ok?) &&
            forall a, b :: 0 <= a < b < |vs| ==> ChunkKey(vs[a]) != ChunkKey(vs[b])
  {
    var d := Deduped(docs).value;
    var vs := Values(d);
    DedupedKeys(docs);
    forall i | 0 <= i < |d|
      ensures vs[i] in docs && ChunkKey(vs[i]) == Ok(d[i].0)
    {
      var k := d[i].0;
      GetAt(d, i);
      assert Keys(d)[i] == k;
      assert Get(d, k) == Some(docs[LastAt(docs, k).value]);
      OccurrenceSpec(docs, k);
    }
    forall a, b | 0 <= a < b < |vs|
      ensures ChunkKey(vs[a]) != ChunkKey(vs[b])
    {
      assert Keys(d)[a] != Keys(d)[b];
    }
  }

  /** In the hybrid merge the dense candidates come last, so a chunk id the
      dense engine returned keeps a dense candidate. */
  lemma DenseWins(sparse: seq<Doc>, dense: seq<Doc>, j: nat)
    requires j < |dense| && ChunkKey(dense[j]).Ok? && Deduped(sparse + dense).Ok?
    ensures exists j' :: j <= j' < |dense| && Get(Deduped(sparse + dense).value, ChunkKey(dense[j]).value) == Some(dense[j'])
  {
    var docs := sparse + dense;
    var k := ChunkKey(dense[j]).value;
    assert forall i :: |sparse| <= i < |docs| ==> docs[i] == dense[i - |sparse|];
    assert docs[|sparse| + j] == dense[j];
    assert FirstAt(docs, k).Some? && LastAt(docs, k).Some? && LastAt(docs, k).value >= |sparse| + j by {
      OccurrenceSpec(docs, k);
    }
    var last := LastAt(docs, k).value;
    assert Get(Deduped(docs).value, k) == Some(docs[last]) by {
      DedupedKeys(docs);
    }
    var j' := last - |sparse|;
    assert docs[last] == dense[j'];
  }

  /** A dict the reranker writes into; the caller keeps its own reference,
      so the write shows through every reference. */
  class Record {
    var fields: Doc

    constructor(fields: Doc)
      ensures this.fields == fields
    {
      this.fields := fields;
    }
  }

  function FieldsOf(rs: seq<Record>): (ds: seq<Doc>)
    reads rs
    ensures |ds| == |rs| && forall i :: 0 <= i < |rs| ==> ds[i] == rs[i].fields
  {
    seq(|rs|, i requires 0 <= i < |rs| reads rs => rs[i].fields)
  }

  /** [doc["text"] for doc in documents] */
  function RerankTexts(docs: seq<Doc>): Result<seq<Value>>
  {
    if docs == [] then Ok([])
    else
      var front := RerankTexts(docs[..|docs| - 1]);
      var t := Get(docs[|docs| - 1], "text");
      if front.Err? then front
      else if t.None? then Err("KeyError: 'text'")
      else Ok(front.value + [t.value])
  }

  lemma {:induction false} RerankTextsLength(docs: seq<Doc>)
    requires RerankTexts(docs).Ok?
    ensures |RerankTexts(docs).value| == |docs|
    ensures forall j :: 0 <= j < |docs| ==> Get(docs[j], "text") == Some(RerankTexts(docs).value[j])
    decreases |docs|
  {
    if docs != [] {
      var m := |docs| - 1;
      RerankTextsLength(docs[..m]);
      assert forall j :: 0 <= j < m ==> docs[..m][j] == docs[j];
    }
  }

  /** Everything Reranker.invoke does before its loop: the texts (KeyError
      on a candidate without one), the first text cut to 50 characters for
      the log (IndexError with no candidates, TypeError when it is not a
      string), then the call to the service. */
  function RerankCall(model: string, query: string, docs: seq<Doc>, topN: int,
                      rerank: (string, string, seq<Value>, int) -> Result<seq<(nat, real)>>): Result<seq<(nat, real)>>
  {
    var texts := RerankTexts(docs);
    if texts.Err? then Err(texts.error)
    else if texts.value == [] then Err("IndexError: list index out of range")
    else if !texts.value[0].Str? then Err("TypeError: object is not subscriptable")
    else rerank(model, query, texts.value, topN)
  }

  /** The score of the last result that points at the record. */
  function FinalScore(documents: seq<Record>, results: seq<(nat, real)>, rec: Record): Option<real>
  {
    if results == [] then None
    else
      var last := results[|results| - 1];
      if last.0 < |documents| && documents[last.0] == rec then Some(last.1)
      else FinalScore(documents, results[..|results| - 1], rec)
  }

  /** A dict after doc["score"] = s, if any result set it. */
  function WithScore(d: Doc, s: Option<real>): Doc
  {
    if s.None? then d else Put(d, "score", Real(s.value))
  }

  predicate InRange(results: seq<(nat, real)>, n: nat)
  {
    forall j :: 0 <= j < |results| ==> results[j].0 < n
  }

  class Reranker {
    const model: string

    constructor()
      ensures model == "bge-reranker-v2-m3"
    {
      model := "bge-reranker-v2-m3";
    }

    /** Reranker.invoke: output j is documents[result_j.index], the same
        dict the caller holds, after its "score" was set; a record several
        results point at keeps the last score. A result index past the end
        raises after the results before it were written. */
    method Invoke(query: string, documents: seq<Record>, topN: int,
                  rerank: (string, string, seq<Value>, int) -> Result<seq<(nat, real)>>)
      returns (r: Result<seq<Record>>)
      modifies documents
      ensures documents == [] ==> r == Err("IndexError: list index out of range")
      ensures var call := RerankCall(model, query, old(FieldsOf(documents)), topN, rerank);
              call.Err? ==> r == Err(call.error) && forall rec :: rec in documents ==> rec.fields == old(rec.fields)
      ensures var call := RerankCall(model, query, old(FieldsOf(documents)), topN, rerank);
              call.Ok? && InRange(call.value, |documents|) ==>
                r.Ok? && |r.value| == |call.value| &&
                (forall j :: 0 <= j < |call.value| ==> r.value[j] == documents[call.value[j].0]) &&
                forall rec :: rec in documents ==> rec.fields == WithScore(old(rec.fields), FinalScore(documents, call.value, rec))
      ensures var call := RerankCall(model, query, old(FieldsOf(documents)), topN, rerank);
              call.Ok? && !InRange(call.value, |documents|) ==>
                r == Err("IndexError: list index out of range") &&
                exists p :: 0 <= p < |call.value| && call.value[p].0 >= |documents| && InRange(call.value[..p], |documents|) &&
                  forall rec :: rec in documents ==> rec.fields == WithScore(old(rec.fields), FinalScore(documents, call.value[..p], rec))
    {
      var call := RerankCall(model, query, FieldsOf(documents), topN, rerank);
      if call.Err? {
        return Err(call.error);
      }
      r := WriteScores(documents, call.value);
    }
  }

  /** The loop of Reranker.invoke over the service's results. */
  method WriteScores(documents: seq<Record>, results: seq<(nat, real)>) returns (r: Result<seq<Record>>)
    modifies documents
    ensures InRange(results, |documents|) ==>
              r.Ok? && |r.value| == |results| &&
              (forall j :: 0 <= j < |results| ==> r.value[j] == documents[results[j].0]) &&
              forall rec :: rec in documents ==> rec.fields == WithScore(old(rec.fields), FinalScore(documents, results, rec))
    ensures !InRange(results, |documents|) ==>
              r == Err("IndexError: list index out of range") &&
              exists p :: 0 <= p < |results| && results[p].0 >= |documents| && InRange(results[..p], |documents|) &&
                forall rec :: rec in documents ==> rec.fields == WithScore(old(rec.fields), FinalScore(documents, results[..p], rec))
  {
    var outputDocs: seq<Record> := [];
    for j := 0 to |results|
      invariant |outputDocs| == j && InRange(results[..j], |documents|)
      invariant forall k :: 0 <= k < j ==> outputDocs[k] == documents[results[k].0]
      invariant forall rec :: rec in documents ==> rec.fields == WithScore(old(rec.fields), FinalScore(documents, results[..j], rec))
    {
      assert results[..j + 1][..j] == results[..j];
      if results[j].0 >= |documents| {
        assert !InRange(results, |documents|);
        return Err("IndexError: list index out of range");
      }
      var doc := documents[results[j].0];
      ScoreStep(documents, results, j, doc);
      ghost var before := FinalScore(documents, results[..j], doc);
      if before.Some? {
        PutPut(old(doc.fields), "score", Real(before.value), Real(results[j].1));
      }
      doc.fields := Put(doc.fields, "score", Real(results[j].1));
      outputDocs := outputDocs + [doc];
    }
    assert results[..|results|] == results;
    return Ok(outputDocs);
  }

  /** Writing result j's score into its record moves every record one
      result further. */
  lemma ScoreStep(documents: seq<Record>, results: seq<(nat, real)>, j: nat, doc: Record)
    requires j < |results| && results[j].0 < |documents| && doc == documents[results[j].0]
    ensures forall rec :: FinalScore(documents, results[..j + 1], rec) ==
              if rec == doc then Some(results[j].1) else FinalScore(documents, results[..j], rec)
  {
    var prefix := results[..j + 1];
    assert prefix[..j] == results[..j] && prefix[j] == results[j];
    forall rec
      ensures FinalScore(documents, prefix, rec) ==
                if rec == doc then Some(results[j].1) else FinalScore(documents, results[..j], rec)
    {
    }
  }

  /** Doc["score"] = a then doc["score"] = b leaves b. */
  lemma {:induction false} PutPut<K, V>(d: Dict<K, V>, k: K, a: V, b: V)
    ensures Put(Put(d, k, a), k, b) == Put(d, k, b)
  {
    if d != [] && d[0].0 != k {
      PutPut(d[1..], k, a, b);
    }
  }

  /** The score of the last result with position i. */
  function LastScore(results: seq<(nat, real)>, i: nat): Option<real>
  {
    if results == [] then None
    else if results[|results| - 1].0 == i then Some(results[|results| - 1].1)
    else LastScore(results[..|results| - 1], i)
  }

  /** For distinct records, the record at position i ends with the score
      of the last result with position i. */
  lemma {:induction false} FinalScoreDistinct(documents: seq<Record>, results: seq<(nat, real)>, i: nat)
    requires i < |documents| && forall a, b :: 0 <= a < b < |documents| ==> documents[a] != documents[b]
    ensures FinalScore(documents, results, documents[i]) == LastScore(results, i)
    decreases |results|
  {
    if results != [] {
      FinalScoreDistinct(documents, results[..|results| - 1], i);
    }
  }

  /** What Reranker.invoke returns over candidates that are distinct dicts,
      as values. */
  function RerankSpec(model: string, query: string, docs: seq<Doc>, topN: int,
                      rerank: (string, string, seq<Value>, int) -> Result<seq<(nat, real)>>): Result<seq<Doc>>
  {
    var call := RerankCall(model, query, docs, topN, rerank);
    if call.Err? then Err(call.error)
    else if !InRange(call.value, |docs|) then Err("IndexError: list index out of range")
    else
      var results := call.value;
      Ok(seq(|results|, j requires 0 <= j < |results| => WithScore(docs[results[j].0], LastScore(results, results[j].0))))
  }

  /** Output j is candidate index_j with "score" set to the score of the
      last result naming that candidate, which is result j's own score when
      no candidate is named twice; every other key is the candidate's. */
  lemma RerankSpecScores(model: string, query: string, docs: seq<Doc>, topN: int,
                         rerank: (string, string, seq<Value>, int) -> Result<seq<(nat, real)>>)
    requires RerankSpec(model, query, docs, topN, rerank).Ok?
    requires forall i :: 0 <= i < |docs| ==> Valid(docs[i])
    ensures var results := RerankCall(model, query, docs, topN, rerank).value;
            var out := RerankSpec(model, query, docs, topN, rerank).value;
            |out| == |results| &&
            forall j :: 0 <= j < |results| ==>
              LastScore(results, results[j].0).Some? &&
              Get(out[j], "score") == Some(Real(LastScore(results, results[j].0).value)) &&
              (forall k :: k != "score" ==> Get(out[j], k) == Get(docs[results[j].0], k)) &&
              ((forall a, b :: 0 <= a < b < |results| ==> results[a].0 != results[b].0) ==>
                 Get(out[j], "score") == Some(Real(results[j].1)))
  {
    var results := RerankCall(model, query, docs, topN, rerank).value;
    forall j | 0 <= j < |results|
      ensures LastScore(results, results[j].0).Some?
      ensures (forall a, b :: 0 <= a < b < |results| ==> results[a].0 != results[b].0) ==>
                LastScore(results, results[j].0) == Some(results[j].1)
    {
      LastScoreFound(results, j);
    }
    forall j | 0 <= j < |results|
      ensures var d := docs[results[j].0];
              Get(Put(d, "score", Real(LastScore(results, results[j].0).value)), "score") ==
                Some(Real(LastScore(results, results[j].0).value))
      ensures var d := docs[results[j].0];
              forall k :: k != "score" ==> Get(Put(d, "score", Real(LastScore(results, results[j].0).value)), k) == Get(d, k)
    {
      PutSpec(docs[results[j].0], "score", Real(LastScore(results, results[j].0).value));
    }
  }

  /** A position that occurs has a last score; with no position twice it is
      the score of its only result. */
  lemma {:induction false} LastScoreFound(results: seq<(nat, real)>, j: nat)
    requires j < |results|
    ensures LastScore(results, results[j].0).Some?
    ensures (forall a, b :: 0 <= a < b < |results| ==> results[a].0 != results[b].0) ==>
              LastScore(results, results[j].0) == Some(results[j].1)
    decreases |results|
  {
    var m := |results| - 1;
    if j < m && results[m].0 != results[j].0 {
      LastScoreFound(results[..m], j);
      var front := results[..m];
      if forall a, b :: 0 <= a < b < |results| ==> results[a].0 != results[b].0 {
        assert forall a, b :: 0 <= a < b < |front| ==> front[a].0 != front[b].0 by {
          forall a, b | 0 <= a < b < |front|
            ensures front[a].0 != front[b].0
          {
            assert front[a] == results[a] && front[b] == results[b];
          }
        }
      }
    }
  }

  /** One fresh record per candidate, as the engines build a new dict per
      hit. */
  method MakeRecords(docs: seq<Doc>) returns (records: seq<Record>)
    ensures |records| == |docs|
    ensures forall i :: 0 <= i < |docs| ==> fresh(records[i]) && records[i].fields == docs[i]
    ensures forall a, b :: 0 <= a < b < |records| ==> records[a] != records[b]
  {
    records := [];
    for i := 0 to |docs|
      invariant |records| == i
      invariant forall k :: 0 <= k < i ==> fresh(records[k]) && records[k].fields == docs[k]
      invariant forall a, b :: 0 <= a < b < i ==> records[a] != records[b]
    {
      var rec := new Record(docs[i]);
      records := records + [rec];
    }
  }

  /** Reranks fresh records made of `docs` and reads the results back. */
  method RerankRecords(reranker: Reranker, query: string, docs: seq<Doc>, topN: int,
                       rerank: (string, string, seq<Value>, int) -> Result<seq<(nat, real)>>)
    returns (r: Result<seq<Doc>>)
    ensures r == RerankSpec(reranker.model, query, docs, topN, rerank)
  {
    var records := MakeRecords(docs);
    assert FieldsOf(records) == docs;
    ghost var call := RerankCall(reranker.model, query, docs, topN, rerank);
    var reranked := reranker.Invoke(query, records, topN, rerank);
    if reranked.Err? {
      return Err(reranked.error);
    }
    assert call.Ok? && InRange(call.value, |docs|);
    var out := reranked.value;
    ghost var results := call.value;
    ghost var spec := RerankSpec(reranker.model, query, docs, topN, rerank).value;
    forall j | 0 <= j < |results|
      ensures out[j].fields == spec[j]
    {
      var i := results[j].0;
      assert out[j] == records[i] && records[i] in records;
      FinalScoreDistinct(records, results, i);
    }
    assert |out| == |results| == |spec|;
    assert FieldsOf(out) == spec;
    r := Ok(FieldsOf(out));
  }

  /** What RetrieverWithReranker.invoke returns or raises. */
  function RetrieveThenRerank(query: string, topK: Option<int>, topN: Option<int>,
                              search: (string, int) -> Result<seq<Doc>>, model: string,
                              rerank: (string, string, seq<Value>, int) -> Result<seq<(nat, real)>>): Result<seq<Doc>>
  {
    var counts := Derive(topK, topN);
    if counts.Err? then Err(counts.error)
    else
      var retrievals := search(query, counts.value.0);
      if retrievals.Err? then Err(retrievals.error)
      else RerankSpec(model, query, retrievals.value, counts.value.1, rerank)
  }

  class RetrieverWithReranker {
    const reranker: Reranker

    constructor(reranker: Reranker)
      ensures this.reranker == reranker
    {
      this.reranker := reranker;
    }

    method Invoke(query: string, topK: Option<int>, topN: Option<int>, search: (string, int) -> Result<seq<Doc>>,
                  rerank: (string, string, seq<Value>, int) -> Result<seq<(nat, real)>>)
      returns (r: Result<seq<Doc>>)
      ensures r == RetrieveThenRerank(query, topK, topN, search, reranker.model, rerank)
    {
      var counts := Derive(topK, topN);
      if counts.Err? {
        return Err(counts.error);
      }
      var (breadth, final) := counts.value;
      var retrievals := search(query, breadth);
      if retrievals.Err? {
        return Err(retrievals.error);
      }
      r := RerankRecords(reranker, query, retrievals.value, final, rerank);
    }
  }

  /** What HybridRetrieverWithReranker.invoke returns or raises. */
  function HybridThenRerank(query: string, topK: Option<int>, topN: Option<int>,
                            sparse: (string, int) -> Result<seq<Doc>>, dense: (string, int) -> Result<seq<Doc>>,
                            model: string, rerank: (string, string, seq<Value>, int) -> Result<seq<(nat, real)>>): Result<seq<Doc>>
  {
    var counts := Derive(topK, topN);
    if counts.Err? then Err(counts.error)
    else
      var s := sparse(query, counts.value.0);
      if s.Err? then Err(s.error)
      else
        var d := dense(query, counts.value.0);
        if d.Err? then Err(d.error)
        else
          var candidates := DedupedValues(s.value + d.value);
          if candidates.Err? then Err(candidates.error)
          else RerankSpec(model, query, candidates.value, counts.value.1, rerank)
  }

  class HybridRetrieverWithReranker {
    const reranker: Reranker

    constructor(reranker: Reranker)
      ensures this.reranker == reranker
    {
      this.reranker := reranker;
    }

    method Invoke(query: string, topK: Option<int>, topN: Option<int>,
                  sparse: (string, int) -> Result<seq<Doc>>, dense: (string, int) -> Result<seq<Doc>>,
                  rerank: (string, string, seq<Value>, int) -> Result<seq<(nat, real)>>)
      returns (r: Result<seq<Doc>>)
      ensures r == HybridThenRerank(query, topK, topN, sparse, dense, reranker.model, rerank)
    {
      var counts := Derive(topK, topN);
      if counts.Err? {
        return Err(counts.error);
      }
      var (breadth, final) := counts.value;
      var sparseRetrievals := sparse(query, breadth);
      if sparseRetrievals.Err? {
        return Err(sparseRetrievals.error);
      }
      var denseRetrievals := dense(query, breadth);
      if denseRetrievals.Err? {
        return Err(denseRetrievals.error);
      }
      var retrievals := sparseRetrievals.value + denseRetrievals.value;
      var dedupedRetrievals := Dedup(retrievals);
      if dedupedRetrievals.Err? {
        return Err(dedupedRetrievals.error);
      }
      r := RerankRecords(reranker, query, dedupedRetrievals.value, final, rerank);
    }
  }
}
