/**
 The vector backfill, apps/api/captureos/corpus/ingest.py `embed_pending`. The provider is a parameter: it
 answers each attempt at a batch with vectors or with an error.
 */
module CorpusEmbed {
  import opened Wrappers
  import Corpus
  import opened CorpusStore

  // texts, batch number, attempt
  type Provider = (seq<string>, nat, nat) -> Option<seq<Vector>>

  const MAX_ATTEMPTS := 5

  // A mismatch is the ValueError of a strict zip: the answer had the wrong number of vectors.
  datatype Outcome = Completed(total: nat) | Abandoned(total: nat) | Mismatched

  function Pending(chunks: seq<ChunkRow>): nat {
    if chunks == [] then 0
    else Pending(chunks[..|chunks| - 1]) + if chunks[|chunks| - 1].embedding.None? then 1 else 0
  }

  lemma {:induction false} PendingZero(chunks: seq<ChunkRow>)
    ensures Pending(chunks) == 0 <==> forall i | 0 <= i < |chunks| :: chunks[i].embedding.Some?
  {
    if chunks != [] {
      PendingZero(chunks[..|chunks| - 1]);
    }
  }

  lemma {:induction false} FillOne(chunks: seq<ChunkRow>, i: nat, v: Vector)
    requires i < |chunks| && chunks[i].embedding.None?
    ensures Pending(chunks[i := chunks[i].(embedding := Some(v))]) == Pending(chunks) - 1
  {
    var n := |chunks| - 1;
    var c := chunks[i].(embedding := Some(v));
    if i == n {
      assert chunks[i := c][..n] == chunks[..n];
    } else {
      assert chunks[i := c][..n] == chunks[..n][i := c];
      FillOne(chunks[..n], i, v);
    }
  }

  // Vectors are only added: nothing else changes, and what is there stays.
  predicate OnlyFilled(before: seq<ChunkRow>, after: seq<ChunkRow>) {
    |before| == |after| &&
    forall i | 0 <= i < |before| ::
      after[i] == before[i] || (before[i].embedding.None? && after[i] == before[i].(embedding := after[i].embedding))
  }

  // Every vector that was added is the embedding of that chunk's own text.
  predicate OwnVectors(before: seq<ChunkRow>, after: seq<ChunkRow>, embedding: string -> Vector)
    requires |before| == |after|
  {
    forall i | 0 <= i < |before| && before[i].embedding.None? && after[i].embedding.Some? ::
      after[i].embedding.value == embedding(after[i].text)
  }

  // A provider that, when it answers, embeds text by text.
  ghost predicate Pointwise(provider: Provider, embedding: string -> Vector) {
    forall texts, b, a | provider(texts, b, a).Some? ::
      var vs := provider(texts, b, a).value;
      |vs| == |texts| && forall i | 0 <= i < |vs| :: vs[i] == embedding(texts[i])
  }

  // Up to n pending rows; the query has no order, so nothing is said about which.
  method SelectPending(chunks: seq<ChunkRow>, n: nat) returns (picked: seq<nat>)
    ensures |picked| == Min(n, Pending(chunks))
    ensures forall i | 0 <= i < |picked| :: picked[i] < |chunks| && chunks[picked[i]].embedding.None?
    ensures forall i, j | 0 <= i < j < |picked| :: picked[i] != picked[j]
  {
    picked := [];
    for i := 0 to |chunks|
      invariant |picked| == Min(n, Pending(chunks[..i]))
      invariant forall k | 0 <= k < |picked| :: picked[k] < i && chunks[picked[k]].embedding.None?
      invariant forall k, m | 0 <= k < m < |picked| :: picked[k] != picked[m]
    {
      assert chunks[..i + 1][..i] == chunks[..i];
      if |picked| < n && chunks[i].embedding.None? {
        picked := picked + [i];
      }
    }
    assert chunks[..|chunks|] == chunks;
  }

  // Attempt a is the first to be answered.
  predicate AnsweredAt(provider: Provider, texts: seq<string>, batch: nat, a: nat) {
    a < 5 && provider(texts, batch, a).Some? && forall earlier: nat | earlier < a ::
      provider(texts, batch, earlier).None?
  }

  predicate FailsOn(provider: Provider, texts: seq<string>, batch: nat) {
    forall a: nat | a < 5 :: provider(texts, batch, a).None?
  }

  // Attempts with backoff; None once the last one failed too.
  method EmbedBatch(texts: seq<string>, batch: nat, provider: Provider) returns (vectors: Option<seq<Vector>>)
    ensures vectors.Some? ==> exists a: nat ::
      AnsweredAt(provider, texts, batch, a) && vectors == provider(texts, batch, a)
    ensures vectors.None? <==> FailsOn(provider, texts, batch)
  {
    vectors := None;
    for attempt := 0 to MAX_ATTEMPTS
      invariant vectors.None? && forall a: nat | a < attempt :: provider(texts, batch, a).None?
    {
      vectors := provider(texts, batch, attempt);
      if vectors.Some? {
        assert AnsweredAt(provider, texts, batch, attempt);
        return;
      }
    }
  }

  function Texts(chunks: seq<ChunkRow>, picked: seq<nat>): seq<string>
    requires forall i | 0 <= i < |picked| :: picked[i] < |chunks|
  {
    seq(|picked|, i requires 0 <= i < |picked| => chunks[picked[i]].text)
  }

  method AssignVectors(chunks: seq<ChunkRow>, picked: seq<nat>, vectors: seq<Vector>) returns (filled: seq<ChunkRow>)
    requires |vectors| == |picked|
    requires forall i | 0 <= i < |picked| :: picked[i] < |chunks| && chunks[picked[i]].embedding.None?
    requires forall i, j | 0 <= i < j < |picked| :: picked[i] != picked[j]
    ensures OnlyFilled(chunks, filled) && Pending(filled) == Pending(chunks) - |picked|
    ensures forall i | 0 <= i < |picked| :: filled[picked[i]].embedding == Some(vectors[i])
    ensures forall j | 0 <= j < |chunks| && j !in picked :: filled[j] == chunks[j]
  {
    filled := chunks;
    for i := 0 to |picked|
      invariant OnlyFilled(chunks, filled) && Pending(filled) == Pending(chunks) - i
      invariant forall k | 0 <= k < i :: filled[picked[k]].embedding == Some(vectors[k])
      invariant forall j | 0 <= j < |chunks| && j !in picked[..i] :: filled[j] == chunks[j]
    {
      assert picked[i] !in picked[..i];
      FillOne(filled, picked[i], vectors[i]);
      filled := filled[picked[i] := filled[picked[i]].(embedding := Some(vectors[i]))];
    }
    assert picked[..|picked|] == picked;
  }

  lemma FilledAgain(a: seq<ChunkRow>, b: seq<ChunkRow>, c: seq<ChunkRow>, embedding: string -> Vector)
    requires OnlyFilled(a, b) && OnlyFilled(b, c)
    ensures OnlyFilled(a, c)
    ensures OwnVectors(a, b, embedding) && OwnVectors(b, c, embedding) ==> OwnVectors(a, c, embedding)
  {
  }

  lemma FilledKeepsValid(docs: seq<Corpus.Doc>, before: seq<ChunkRow>, after: seq<ChunkRow>)
    requires OnlyFilled(before, after) && ChunksFollow(docs, before)
    ensures ChunksFollow(docs, after)
  {
    forall i | 0 <= i < |after| ensures after[i].doc == before[i].doc && after[i].current == before[i].current {}
  }

  // One batch, committed.
  method StoreVectors(store: Store, picked: seq<nat>, vectors: seq<Vector>, ghost embedding: string -> Vector)
    requires |vectors| == |picked|
    requires forall i | 0 <= i < |picked| :: picked[i] < |store.chunks| && store.chunks[picked[i]].embedding.None?
    requires forall i, j | 0 <= i < j < |picked| :: picked[i] != picked[j]
    modifies store`chunks
    ensures OnlyFilled(old(store.chunks), store.chunks) &&
      Pending(store.chunks) == Pending(old(store.chunks)) - |picked|
    ensures (forall i | 0 <= i < |picked| :: vectors[i] == embedding(old(store.chunks)[picked[i]].text)) ==>
      OwnVectors(old(store.chunks), store.chunks, embedding)
  {
    ghost var before := store.chunks;
    store.chunks := AssignVectors(store.chunks, picked, vectors);
    if forall i | 0 <= i < |picked| :: vectors[i] == embedding(before[picked[i]].text) {
      forall j | 0 <= j < |before| && before[j].embedding.None? && store.chunks[j].embedding.Some?
        ensures store.chunks[j].embedding.value == embedding(store.chunks[j].text)
      {
        var k :| 0 <= k < |picked| && picked[k] == j;
      }
    }
  }

  // Pending chunks as the query may pick them.
  predicate IsBatch(chunks: seq<ChunkRow>, picked: seq<nat>, n: nat) {
    && |picked| == Min(n, Pending(chunks))
    && (forall i | 0 <= i < |picked| :: picked[i] < |chunks| && chunks[picked[i]].embedding.None?)
    && forall i, j | 0 <= i < j < |picked| :: picked[i] != picked[j]
  }

  // The first answer has the wrong number of vectors.
  predicate WrongOn(provider: Provider, texts: seq<string>, batch: nat) {
    exists a: nat | a < 5 :: AnsweredAt(provider, texts, batch, a) && |provider(texts, batch, a).value| != |texts|
  }

  // Five times in a row the provider failed on one batch.
  ghost predicate GaveUp(chunks: seq<ChunkRow>, n: nat, provider: Provider) {
    exists picked, batch: nat ::
      picked != [] && IsBatch(chunks, picked, n) && FailsOn(provider, Texts(chunks, picked), batch)
  }

  ghost predicate AnsweredWrong(chunks: seq<ChunkRow>, n: nat, provider: Provider) {
    exists picked, batch: nat ::
      picked != [] && IsBatch(chunks, picked, n) && WrongOn(provider, Texts(chunks, picked), batch)
  }

  // One of any five attempts is answered, the first time with one vector to each text.
  ghost predicate Reliable(provider: Provider) {
    forall texts, batch: nat :: !FailsOn(provider, texts, batch) && !WrongOn(provider, texts, batch)
  }

  // How the walk may end. A batch size of zero does nothing.
  ghost predicate EndsFairly(outcome: Outcome, before: seq<ChunkRow>, after: seq<ChunkRow>, n: nat,
      provider: Provider)
  {
    && (outcome.Abandoned? ==> GaveUp(after, n, provider))
    && (outcome.Mismatched? ==> AnsweredWrong(after, n, provider))
    && (outcome.Completed? && n > 0 ==> forall i | 0 <= i < |after| :: after[i].embedding.Some?)
    && (!outcome.Mismatched? ==> outcome.total == Pending(before) - Pending(after))
    && (n == 0 ==> outcome == Completed(0) && after == before)
  }

  // Batches are committed one by one and each lowers the number of pending chunks, so the walk ends. It
  // returns how many chunks it embedded; when it completes none is pending; when it gives up or raises,
  // the committed batches stand, and the provider failed five times on a batch, or answered it wrong. With a reliable
  // provider it completes. A valid store stays valid.
  method EmbedPending(store: Store, batchSize: nat, provider: Provider, ghost embedding: string -> Vector)
      returns (outcome: Outcome)
    modifies store`chunks
    ensures old(store.Valid()) ==> store.Valid()
    ensures OnlyFilled(old(store.chunks), store.chunks)
    ensures Pointwise(provider, embedding) ==>
      OwnVectors(old(store.chunks), store.chunks, embedding) && !outcome.Mismatched?
    ensures EndsFairly(outcome, old(store.chunks), store.chunks, batchSize, provider)
    ensures Reliable(provider) && batchSize > 0 ==>
      outcome == Completed(Pending(old(store.chunks))) && forall i | 0 <= i < |store.chunks| ::
        store.chunks[i].embedding.Some?
  {
    outcome := EmbedBatches(store, batchSize, provider, embedding);
    if old(store.Valid()) {
      FilledKeepsValid(store.docs, old(store.chunks), store.chunks);
    }
    if Reliable(provider) && batchSize > 0 {
      assert !GaveUp(store.chunks, batchSize, provider) && !AnsweredWrong(store.chunks, batchSize, provider);
      PendingZero(store.chunks);
    }
  }

  method EmbedBatches(store: Store, batchSize: nat, provider: Provider, ghost embedding: string -> Vector)
      returns (outcome: Outcome)
    modifies store`chunks
    ensures OnlyFilled(old(store.chunks), store.chunks)
    ensures Pointwise(provider, embedding) ==>
      OwnVectors(old(store.chunks), store.chunks, embedding) && !outcome.Mismatched?
    ensures EndsFairly(outcome, old(store.chunks), store.chunks, batchSize, provider)
  {
    var total, batch := 0, 0;
    while true
      invariant OnlyFilled(old(store.chunks), store.chunks)
      invariant Pointwise(provider, embedding) ==> OwnVectors(old(store.chunks), store.chunks, embedding)
      invariant total == Pending(old(store.chunks)) - Pending(store.chunks)
      invariant batchSize == 0 ==> total == 0 && store.chunks == old(store.chunks)
      decreases Pending(store.chunks)
    {
      var picked := SelectPending(store.chunks, batchSize);
      if picked == [] {
        PendingZero(store.chunks);
        return Completed(total);
      }
      assert IsBatch(store.chunks, picked, batchSize);
      var vectors := EmbedBatch(Texts(store.chunks, picked), batch, provider);
      if vectors.None? {
        return Abandoned(total);
      }
      if |vectors.value| != |picked| {
        assert WrongOn(provider, Texts(store.chunks, picked), batch);
        return Mismatched;
      }
      ghost var before := store.chunks;
      StoreVectors(store, picked, vectors.value, embedding);
      FilledAgain(old(store.chunks), before, store.chunks, embedding);
      total, batch := total + |picked|, batch + 1;
    }
  }
}
