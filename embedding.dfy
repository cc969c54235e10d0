/** batch_embed: texts are sent to the embedding service in consecutive
    batches and the returned rows are stacked into one matrix. A batch the
    service refuses with a "rate limit exceeded" error is skipped (the
    `i -= batch_size` before `continue` has no effect on the `range`
    iterator); any other error is raised again.

    The service is the parameter `embed`: for a batch of texts it returns
    the rows, or the text of the exception it raises. */
module Embedding {
  import opened Common

  type Vector = seq<real>

  type Embedder = seq<string> -> Result<seq<Vector>>

  /** "rate limit exceeded" in str(e).lower() */
  predicate RateLimited(error: string)
  {
    Contains(Lower(error), "rate limit exceeded")
  }

  /** docs[i : i + size] for each i in range(0, len(docs), size). */
  function Batches<T>(docs: seq<T>, size: nat): seq<seq<T>>
    requires size > 0
    decreases |docs|
  {
    if docs == [] then []
    else
      var n := if |docs| < size then |docs| else size;
      [docs[..n]] + Batches(docs[n..], size)
  }

  /** The rows the loop collects over the batches, or the first error that is
      not a rate-limit error. */
  function Embedded(batches: seq<seq<string>>, embed: Embedder): Result<seq<Vector>>
  {
    if batches == [] then Ok([])
    else
      var first := embed(batches[0]);
      if first.Err? then
        if RateLimited(first.error) then Embedded(batches[1..], embed) else Err(first.error)
      else
        var rest := Embedded(batches[1..], embed);
        if rest.Err? then rest else Ok(first.value + rest.value)
  }

  /** np.stack: raises on an empty list and on rows of different lengths. */
  function Stack(rows: seq<Vector>): Result<seq<Vector>>
  {
    if rows == [] then Err("ValueError: need at least one array to stack")
    else if exists j :: 0 <= j < |rows| && |rows[j]| != |rows[0]| then Err("ValueError: all input arrays must have the same shape")
    else Ok(rows)
  }

  /** What batch_embed returns or raises. A step of zero makes `range`
      raise; a negative step makes it empty. */
  function BatchEmbedSpec(docs: seq<string>, batchSize: int, embed: Embedder): Result<seq<Vector>>
  {
    if batchSize == 0 then Err("ValueError: range() arg 3 must not be zero")
    else if batchSize < 0 then Stack([])
    else
      var rows := Embedded(Batches(docs, batchSize), embed);
      if rows.Err? then rows else Stack(rows.value)
  }

  function Then(acc: seq<Vector>, r: Result<seq<Vector>>): Result<seq<Vector>>
  {
    if r.Err? then r else Ok(acc + r.value)
  }

  /** batch_embed */
  method BatchEmbed(docs: seq<string>, batchSize: int, embed: Embedder) returns (r: Result<seq<Vector>>)
    ensures r == BatchEmbedSpec(docs, batchSize, embed)
  {
    if batchSize == 0 {
      return Err("ValueError: range() arg 3 must not be zero");
    }
    var allEmbeddings: seq<Vector> := [];
    if batchSize > 0 {
      var i := 0;
      assert docs[0..] == docs;
      assert Then([], Embedded(Batches(docs, batchSize), embed)) == Embedded(Batches(docs, batchSize), embed) by {
        var e := Embedded(Batches(docs, batchSize), embed);
        if e.Ok? {
          assert [] + e.value == e.value;
        }
      }
      while i < |docs|
        invariant 0 <= i <= |docs|
        invariant Embedded(Batches(docs, batchSize), embed) == Then(allEmbeddings, Embedded(Batches(docs[i..], batchSize), embed))
        decreases |docs| - i
      {
        var n := if |docs| - i < batchSize then |docs| - i else batchSize;
        var batch := docs[i..i + n];
        BatchesStep(docs, i, batchSize);
        var embeddings := embed(batch);
        if embeddings.Err? {
          if RateLimited(embeddings.error) {
            i := i + n;
            continue;
          } else {
            return Err(embeddings.error);
          }
        }
        ThenAppend(allEmbeddings, embeddings.value, Embedded(Batches(docs[i + n..], batchSize), embed));
        allEmbeddings := allEmbeddings + embeddings.value;
        i := i + n;
      }
      assert docs[i..] == [];
      assert allEmbeddings + [] == allEmbeddings;
    }
    r := Stack(allEmbeddings);
  }

  lemma BatchesStep(docs: seq<string>, i: nat, size: nat)
    requires size > 0 && i < |docs|
    ensures var n := if |docs| - i < size then |docs| - i else size;
      Batches(docs[i..], size) == [docs[i..i + n]] + Batches(docs[i + n..], size)
  {
    var n := if |docs| - i < size then |docs| - i else size;
    assert docs[i..][..n] == docs[i..i + n];
    assert docs[i..][n..] == docs[i + n..];
  }

  lemma ThenAppend(acc: seq<Vector>, rows: seq<Vector>, rest: Result<seq<Vector>>)
    ensures Then(acc, if rest.Err? then rest else Ok(rows + rest.value)) == Then(acc + rows, rest)
  {
    if rest.Ok? {
      assert acc + (rows + rest.value) == acc + rows + rest.value;
    }
  }

  /** Every batch holds between one and `size` texts, and every batch but
      the last exactly `size`; with BatchesFlatten, the batches are the
      consecutive slices docs[0:size], docs[size:2*size], ... */
  lemma {:induction false} BatchesSizes<T>(docs: seq<T>, size: nat)
    requires size > 0
    ensures forall j :: 0 <= j < |Batches(docs, size)| ==> 0 < |Batches(docs, size)[j]| <= size
    ensures forall j :: 0 <= j < |Batches(docs, size)| - 1 ==> |Batches(docs, size)[j]| == size
    decreases |docs|
  {
    if docs != [] {
      var n := if |docs| < size then |docs| else size;
      BatchesSizes(docs[n..], size);
      var bs := Batches(docs, size);
      var brs := Batches(docs[n..], size);
      assert bs == [docs[..n]] + brs;
      if |docs| <= size {
        assert docs[n..] == [];
      }
      forall j | 0 <= j < |bs|
        ensures 0 < |bs[j]| <= size
        ensures j < |bs| - 1 ==> |bs[j]| == size
      {
        if j > 0 {
          assert bs[j] == brs[j - 1];
        } else {
          assert |bs[0]| == n;
          assert |bs| > 1 ==> brs != [] && |docs| > size;
        }
      }
    }
  }

  /** Concatenating the batches gives the texts back. */
  lemma {:induction false} BatchesFlatten<T>(docs: seq<T>, size: nat)
    requires size > 0
    ensures Flatten(Batches(docs, size)) == docs
    decreases |docs|
  {
    if docs != [] {
      var n := if |docs| < size then |docs| else size;
      BatchesFlatten(docs[n..], size);
      assert docs[..n] + docs[n..] == docs;
    }
  }

  /** The call raises exactly when some batch fails with an error other than
      a rate-limit error. */
  lemma {:induction false} EmbeddedErrIff(batches: seq<seq<string>>, embed: Embedder)
    ensures Embedded(batches, embed).Err? <==>
            exists j :: 0 <= j < |batches| && embed(batches[j]).Err? && !RateLimited(embed(batches[j]).error)
  {
    if batches != [] {
      EmbeddedErrIff(batches[1..], embed);
      if exists j :: 0 <= j < |batches[1..]| && embed(batches[1..][j]).Err? && !RateLimited(embed(batches[1..][j]).error) {
        var j :| 0 <= j < |batches[1..]| && embed(batches[1..][j]).Err? && !RateLimited(embed(batches[1..][j]).error);
        assert batches[1..][j] == batches[j + 1];
      }
      if exists j :: 0 <= j < |batches| && embed(batches[j]).Err? && !RateLimited(embed(batches[j]).error) {
        var j :| 0 <= j < |batches| && embed(batches[j]).Err? && !RateLimited(embed(batches[j]).error);
        if j > 0 {
          assert batches[1..][j - 1] == batches[j];
        }
      }
    }
  }

  /** A rate-limited batch is skipped, not retried: the result is the one
      for the other batches. */
  lemma {:induction false} RateLimitSkips(batches: seq<seq<string>>, embed: Embedder, j: nat)
    requires j < |batches| && embed(batches[j]).Err? && RateLimited(embed(batches[j]).error)
    ensures Embedded(batches, embed) == Embedded(batches[..j] + batches[j + 1..], embed)
  {
    if j == 0 {
      assert batches[..0] + batches[1..] == batches[1..];
    } else {
      RateLimitSkips(batches[1..], embed, j - 1);
      var others := batches[..j] + batches[j + 1..];
      assert others[0] == batches[0];
      assert others[1..] == batches[1..][..j - 1] + batches[1..][j..];
    }
  }

  /** An embedder that returns one row per text. */
  ghost predicate RowPerText(embed: Embedder)
  {
    forall b :: embed(b).Ok? ==> |embed(b).value| == |b|
  }

  /** With such an embedder and no errors, row k is the row of text k. */
  lemma {:induction false} EmbeddedAligned(batches: seq<seq<string>>, embed: Embedder)
    requires RowPerText(embed)
    requires forall j :: 0 <= j < |batches| ==> embed(batches[j]).Ok?
    ensures Embedded(batches, embed).Ok?
    ensures |Embedded(batches, embed).value| == |Flatten(batches)|
    ensures Embedded(batches, embed).value == Flatten(seq(|batches|, j requires 0 <= j < |batches| => embed(batches[j]).value))
  {
    if batches != [] {
      assert forall j :: 0 <= j < |batches[1..]| ==> batches[1..][j] == batches[j + 1];
      EmbeddedAligned(batches[1..], embed);
      var rows := seq(|batches|, j requires 0 <= j < |batches| => embed(batches[j]).value);
      assert rows[1..] == seq(|batches[1..]|, j requires 0 <= j < |batches[1..]| => embed(batches[1..][j]).value);
    }
  }

  /** With such an embedder and no error raised, there are never more rows
      than texts, and a skipped batch leaves its texts without rows. */
  lemma {:induction false} EmbeddedShorter(batches: seq<seq<string>>, embed: Embedder)
    requires RowPerText(embed) && Embedded(batches, embed).Ok?
    ensures |Embedded(batches, embed).value| <= |Flatten(batches)|
    ensures forall j :: 0 <= j < |batches| && embed(batches[j]).Err? ==>
              |Embedded(batches, embed).value| <= |Flatten(batches)| - |batches[j]|
  {
    if batches != [] {
      EmbeddedShorter(batches[1..], embed);
      forall j | 0 <= j < |batches| && embed(batches[j]).Err?
        ensures |Embedded(batches, embed).value| <= |Flatten(batches)| - |batches[j]|
      {
        if j > 0 {
          assert batches[1..][j - 1] == batches[j];
        }
      }
    }
  }

  /** batch_embed over texts, a positive batch size and an embedder that
      returns one row per text of equal length and never fails: one row per
      text, in order. */
  lemma BatchEmbedAligned(docs: seq<string>, batchSize: int, embed: Embedder, dim: nat)
    requires batchSize > 0 && docs != [] && RowPerText(embed)
    requires forall b :: embed(b).Ok? && forall k :: 0 <= k < |embed(b).value| ==> |embed(b).value[k]| == dim
    ensures BatchEmbedSpec(docs, batchSize, embed).Ok?
    ensures |BatchEmbedSpec(docs, batchSize, embed).value| == |docs|
  {
    var bs := Batches(docs, batchSize);
    EmbeddedAligned(bs, embed);
    BatchesFlatten(docs, batchSize);
    var rows := Embedded(bs, embed).value;
    assert forall k :: 0 <= k < |rows| ==> |rows[k]| == dim by {
      var parts := seq(|bs|, j requires 0 <= j < |bs| => embed(bs[j]).value);
      forall k | 0 <= k < |rows|
        ensures |rows[k]| == dim
      {
        FlattenMember(parts, k);
      }
    }
  }

  /** Every element of a flattened sequence comes from one of its blocks. */
  lemma {:induction false} FlattenMember<T>(xss: seq<seq<T>>, k: nat)
    requires k < |Flatten(xss)|
    ensures exists j, i :: 0 <= j < |xss| && 0 <= i < |xss[j]| && Flatten(xss)[k] == xss[j][i]
  {
    if k < |xss[0]| {
      assert Flatten(xss)[k] == xss[0][k];
    } else {
      FlattenMember(xss[1..], k - |xss[0]|);
      var j, i :| 0 <= j < |xss[1..]| && 0 <= i < |xss[1..][j]| && Flatten(xss[1..])[k - |xss[0]|] == xss[1..][j][i];
      assert xss[1..][j] == xss[j + 1];
    }
  }
}
