/** chunk_simple: the greedy packer that splits a text into sentences, turns
    each sentence into tokens and packs whole sentences' tokens into chunks
    of at most `chunkSize` tokens, starting a new chunk only when the next
    sentence would not fit into a non-empty one.

    The sentence splitter (nltk's sent_tokenize) and the tokenizer (litellm's
    encode followed by decoding each token on its own) are parameters. */
module TokenPacker {
  import opened Common

  /** The token lists of the chunks the packer emits, given the token lists
      of the sentences, the position of the next sentence and the tokens of
      the chunk being built. */
  function Pack(lists: seq<seq<string>>, i: nat, current: seq<string>, chunkSize: int): seq<seq<string>>
    requires i <= |lists|
    decreases |lists| - i
  {
    if i == |lists| then (if current != [] then [current] else [])
    else if |current| + |lists[i]| > chunkSize && current != [] then
      [current] + Pack(lists, i + 1, lists[i], chunkSize)
    else
      Pack(lists, i + 1, current + lists[i], chunkSize)
  }

  /** The token list of every sentence. */
  function TokenLists(sentences: seq<string>, tokenize: string -> seq<string>): (lists: seq<seq<string>>)
    ensures |lists| == |sentences|
    ensures forall i :: 0 <= i < |sentences| ==> lists[i] == tokenize(sentences[i])
  {
    seq(|sentences|, i requires 0 <= i < |sentences| => tokenize(sentences[i]))
  }

  /** "".join of every group of tokens. */
  function JoinEach(groups: seq<seq<string>>): (chunks: seq<string>)
    ensures |chunks| == |groups|
    ensures forall i :: 0 <= i < |groups| ==> chunks[i] == Flatten(groups[i])
  {
    seq(|groups|, i requires 0 <= i < |groups| => Flatten(groups[i]))
  }

  /** The token groups chunk_simple forms for a text. */
  function TokenGroups(content: string, chunkSize: int,
                       sentTokenize: string -> seq<string>, tokenize: string -> seq<string>): seq<seq<string>>
  {
    Pack(TokenLists(sentTokenize(content), tokenize), 0, [], chunkSize)
  }

  /** What chunk_simple returns for a text. */
  function SimpleChunks(content: string, chunkSize: int,
                        sentTokenize: string -> seq<string>, tokenize: string -> seq<string>): seq<string>
  {
    JoinEach(TokenGroups(content, chunkSize, sentTokenize, tokenize))
  }

  /** All tokens of all sentences of a text, in order. */
  function AllTokens(content: string, sentTokenize: string -> seq<string>, tokenize: string -> seq<string>): seq<string>
  {
    Flatten(TokenLists(sentTokenize(content), tokenize))
  }

  method ChunkSimple(content: string, chunkSize: int,
                     sentTokenize: string -> seq<string>, tokenize: string -> seq<string>)
    returns (chunks: seq<string>)
    ensures chunks == SimpleChunks(content, chunkSize, sentTokenize, tokenize)
  {
    var sentences := sentTokenize(content);
    ghost var lists := TokenLists(sentences, tokenize);
    ghost var groups: seq<seq<string>> := [];
    chunks := [];
    var currentChunk: seq<string> := [];
    var currentLength := 0;
    for i := 0 to |sentences|
      invariant currentLength == |currentChunk|
      invariant chunks == JoinEach(groups)
      invariant groups + Pack(lists, i, currentChunk, chunkSize) == Pack(lists, 0, [], chunkSize)
    {
      var words := tokenize(sentences[i]);
      assert words == lists[i];
      if currentLength + |words| > chunkSize && currentChunk != [] {
        PackClose(groups, lists, i, currentChunk, chunkSize);
        JoinEachSnoc(groups, currentChunk);
        chunks := chunks + [Flatten(currentChunk)];
        groups := groups + [currentChunk];
        currentChunk := words;
        currentLength := |words|;
      } else {
        PackExtend(groups, lists, i, currentChunk, chunkSize);
        currentChunk := currentChunk + words;
        currentLength := currentLength + |words|;
      }
    }
    if currentChunk != [] {
      chunks := chunks + [Flatten(currentChunk)];
      groups := groups + [currentChunk];
    }
  }

  /** The step of the packing that closes the group in progress. */
  lemma PackClose(groups: seq<seq<string>>, lists: seq<seq<string>>, i: nat, current: seq<string>, chunkSize: int)
    requires i < |lists| && |current| + |lists[i]| > chunkSize && current != []
    ensures groups + Pack(lists, i, current, chunkSize) == (groups + [current]) + Pack(lists, i + 1, lists[i], chunkSize)
  {
    var rest := Pack(lists, i + 1, lists[i], chunkSize);
    assert Pack(lists, i, current, chunkSize) == [current] + rest;
    assert groups + ([current] + rest) == (groups + [current]) + rest;
  }

  /** The step of the packing that adds a sentence to the group in progress. */
  lemma PackExtend(groups: seq<seq<string>>, lists: seq<seq<string>>, i: nat, current: seq<string>, chunkSize: int)
    requires i < |lists| && !(|current| + |lists[i]| > chunkSize && current != [])
    ensures groups + Pack(lists, i, current, chunkSize) == groups + Pack(lists, i + 1, current + lists[i], chunkSize)
  {
  }

  lemma JoinEachSnoc(groups: seq<seq<string>>, g: seq<string>)
    ensures JoinEach(groups + [g]) == JoinEach(groups) + [Flatten(g)]
  {
    assert forall k :: 0 <= k < |groups| ==> (groups + [g])[k] == groups[k];
  }

  /** Packing loses and reorders no token. */
  lemma {:induction false} PackFlatten(lists: seq<seq<string>>, i: nat, current: seq<string>, chunkSize: int)
    requires i <= |lists|
    ensures Flatten(Pack(lists, i, current, chunkSize)) == current + Flatten(lists[i..])
    decreases |lists| - i
  {
    if i == |lists| {
      if current != [] {
        assert Flatten([current]) == current + Flatten<string>([]);
      }
    } else {
      assert lists[i..][1..] == lists[i + 1..];
      if |current| + |lists[i]| > chunkSize && current != [] {
        PackFlatten(lists, i + 1, lists[i], chunkSize);
        assert Flatten([current] + Pack(lists, i + 1, lists[i], chunkSize))
            == current + Flatten(Pack(lists, i + 1, lists[i], chunkSize));
      } else {
        PackFlatten(lists, i + 1, current + lists[i], chunkSize);
      }
    }
  }

  /** At most one chunk per remaining sentence, plus the chunk in progress. */
  lemma {:induction false} PackCount(lists: seq<seq<string>>, i: nat, current: seq<string>, chunkSize: int)
    requires i <= |lists|
    ensures |Pack(lists, i, current, chunkSize)| <= |lists| - i + (if current == [] then 0 else 1)
    decreases |lists| - i
  {
    if i < |lists| {
      if |current| + |lists[i]| > chunkSize && current != [] {
        PackCount(lists, i + 1, lists[i], chunkSize);
      } else {
        PackCount(lists, i + 1, current + lists[i], chunkSize);
      }
    }
  }

  /** The packing is greedy: a group is closed only when the tokens that
      follow it would not fit into it, so no two neighbouring groups fit
      into chunk_size together. The first group holds at least the tokens in
      progress. */
  lemma {:induction false} PackGreedy(lists: seq<seq<string>>, i: nat, current: seq<string>, chunkSize: int)
    requires i <= |lists|
    ensures var g := Pack(lists, i, current, chunkSize);
      && (|g| > 0 ==> |g[0]| >= |current|)
      && forall k | 0 <= k < |g| - 1 :: |g[k]| + |g[k + 1]| > chunkSize
    decreases |lists| - i
  {
    if i < |lists| {
      if |current| + |lists[i]| > chunkSize && current != [] {
        PackGreedy(lists, i + 1, lists[i], chunkSize);
        var rest := Pack(lists, i + 1, lists[i], chunkSize);
        var g := [current] + rest;
        assert Pack(lists, i, current, chunkSize) == g;
        forall k | 0 <= k < |g| - 1
          ensures |g[k]| + |g[k + 1]| > chunkSize
        {
          if k > 0 { assert g[k] == rest[k - 1] && g[k + 1] == rest[k]; }
        }
      } else {
        PackGreedy(lists, i + 1, current + lists[i], chunkSize);
      }
    }
  }

  /** Every chunk holds at least one token, and a chunk goes over the budget
      only when it is exactly the tokens of one sentence (or the chunk that
      was in progress). */
  lemma {:induction false} PackBudget(lists: seq<seq<string>>, i: nat, current: seq<string>, chunkSize: int)
    requires i <= |lists|
    ensures forall g | g in Pack(lists, i, current, chunkSize) :: g != []
    ensures forall g | g in Pack(lists, i, current, chunkSize) ::
              |g| <= chunkSize || g == current || exists k :: i <= k < |lists| && g == lists[k]
    decreases |lists| - i
  {
    if i < |lists| {
      if |current| + |lists[i]| > chunkSize && current != [] {
        PackBudget(lists, i + 1, lists[i], chunkSize);
      } else {
        PackBudget(lists, i + 1, current + lists[i], chunkSize);
        assert current == [] ==> current + lists[i] == lists[i];
      }
    }
  }

  /** The concatenated chunks are the concatenated tokens of all sentences. */
  lemma SimpleChunksLossless(content: string, chunkSize: int,
                             sentTokenize: string -> seq<string>, tokenize: string -> seq<string>)
    ensures Flatten(SimpleChunks(content, chunkSize, sentTokenize, tokenize))
         == Flatten(AllTokens(content, sentTokenize, tokenize))
  {
    var lists := TokenLists(sentTokenize(content), tokenize);
    var groups := Pack(lists, 0, [], chunkSize);
    PackFlatten(lists, 0, [], chunkSize);
    assert lists[0..] == lists;
    assert Flatten(groups) == Flatten(lists);
    FlattenJoinEach(groups);
  }

  lemma {:induction false} FlattenJoinEach(groups: seq<seq<string>>)
    ensures Flatten(JoinEach(groups)) == Flatten(Flatten(groups))
  {
    if groups != [] {
      assert JoinEach(groups)[1..] == JoinEach(groups[1..]);
      FlattenJoinEach(groups[1..]);
      FlattenAppend(groups[0], Flatten(groups[1..]));
    }
  }

  /** The packer's promises for a whole text: no empty chunk, no more chunks
      than sentences, and a chunk over the budget is one sentence's tokens. */
  lemma TokenGroupsBudget(content: string, chunkSize: int,
                          sentTokenize: string -> seq<string>, tokenize: string -> seq<string>)
    ensures |TokenGroups(content, chunkSize, sentTokenize, tokenize)| <= |sentTokenize(content)|
    ensures forall g | g in TokenGroups(content, chunkSize, sentTokenize, tokenize) ::
              g != [] && (|g| <= chunkSize || exists k :: 0 <= k < |sentTokenize(content)| && g == tokenize(sentTokenize(content)[k]))
    ensures var gs := TokenGroups(content, chunkSize, sentTokenize, tokenize);
              forall k | 0 <= k < |gs| - 1 :: |gs[k]| + |gs[k + 1]| > chunkSize
  {
    var lists := TokenLists(sentTokenize(content), tokenize);
    PackCount(lists, 0, [], chunkSize);
    PackBudget(lists, 0, [], chunkSize);
    PackGreedy(lists, 0, [], chunkSize);
  }
}
