/**
 Corpus ingest with its chunks, apps/api/captureos/corpus/ingest.py `ingest_corpus_item` and
 `ingest_items`. The hash is a parameter, compared only for equality; so is the embedder.
 */
module CorpusStore {
  import opened Wrappers
  import opened Sums
  import opened Corpus
  import opened VersionLabels
  import Chunking
  import ChunkingLaws

  datatype Item = Item(key: Key, text: string)

  type Vector = seq<real>

  type Embedder = Option<string -> Vector>

  datatype ChunkRow = ChunkRow(doc: nat, ordinal: nat, text: string, current: bool, embedding: Option<Vector>)

  // chunk_document's defaults
  const TARGET := 1200
  const OVERLAP := 150

  function PiecesOf(text: string): seq<string> {
    Chunking.Pieces(text, TARGET, OVERLAP)
  }

  function RetireChunk(c: ChunkRow, doc: Option<nat>): ChunkRow {
    if Some(c.doc) == doc then c.(current := false) else c
  }

  function RetireChunks(chunks: seq<ChunkRow>, doc: Option<nat>): seq<ChunkRow> {
    seq(|chunks|, i requires 0 <= i < |chunks| => RetireChunk(chunks[i], doc))
  }

  function NewChunk(doc: nat, i: nat, text: string, embed: Embedder): ChunkRow {
    ChunkRow(doc, i, text, true, if embed.Some? then Some(embed.value(text)) else None)
  }

  // The rows for a new document; without an embedder they are stored for a later backfill.
  function NewChunks(doc: nat, pieces: seq<string>, embed: Embedder): seq<ChunkRow> {
    seq(|pieces|, i requires 0 <= i < |pieces| => NewChunk(doc, i, pieces[i], embed))
  }

  function IngestChunks(docs: seq<Doc>, chunks: seq<ChunkRow>, c: Call, pieces: seq<string>,
      embed: Embedder): seq<ChunkRow> {
    if StatusOf(docs, c).Unchanged? then chunks
    else RetireChunks(chunks, Current(docs, c.key)) + NewChunks(|docs|, pieces, embed)
  }

  // One row to each piece in order, current and with the vector of its text if there is an embedder; the rows of the
  // prior version are retired, and nothing else about the old rows changes.
  predicate Added(before: seq<ChunkRow>, after: seq<ChunkRow>, prior: Option<nat>, doc: nat, pieces: seq<string>,
      embed: Embedder)
  {
    && |after| == |before| + |pieces|
    && (forall i | 0 <= i < |before| ::
          after[i] == ChunkRow(before[i].doc, before[i].ordinal, before[i].text,
                               before[i].current && Some(before[i].doc) != prior, before[i].embedding))
    && forall i | 0 <= i < |pieces| ::
         var row := after[|before| + i];
         && row.doc == doc && row.ordinal == i && row.text == pieces[i] && row.current
         && row.embedding == match embed case None => None case Some(vector) => Some(vector(pieces[i]))
  }

  lemma RowsAdded(chunks: seq<ChunkRow>, prior: Option<nat>, doc: nat, pieces: seq<string>, embed: Embedder)
    ensures Added(chunks, RetireChunks(chunks, prior) + NewChunks(doc, pieces, embed), prior, doc, pieces, embed)
  {
  }

  // The chunk rows of an ingestion, with the defaults of chunk_document.
  lemma ChunksAdded(docs: seq<Doc>, chunks: seq<ChunkRow>, c: Call, text: string, embed: Embedder)
    ensures var after := IngestChunks(docs, chunks, c, PiecesOf(text), embed);
      if HashAt(docs, c.key) == Some(c.hash) then after == chunks
      else Added(chunks, after, Current(docs, c.key), |docs|, Chunking.Pieces(text, 1200, 150), embed)
  {
    StatusByHash(docs, c);
    RowsAdded(chunks, Current(docs, c.key), |docs|, PiecesOf(text), embed);
  }

  // A chunk is current exactly with its document.
  predicate ChunksFollow(docs: seq<Doc>, chunks: seq<ChunkRow>) {
    forall i | 0 <= i < |chunks| :: chunks[i].doc < |docs| && chunks[i].current == docs[chunks[i].doc].current
  }

  lemma IngestKeepsChunks(docs: seq<Doc>, chunks: seq<ChunkRow>, c: Call, pieces: seq<string>, embed: Embedder)
    requires ChunksFollow(docs, chunks)
    ensures ChunksFollow(Ingest(docs, c), IngestChunks(docs, chunks, c, pieces, embed))
  {
  }

  // The status tells how the current hash of the key stood; afterwards it is the one ingested.
  lemma IngestedHash(calls: seq<Call>, c: Call)
    ensures HashAt(Ingest(Run(calls), c), c.key) == Some(c.hash)
    ensures StatusOf(Run(calls), c).Unchanged? <==> HashAt(Run(calls), c.key) == Some(c.hash)
    ensures StatusOf(Run(calls), c).Created? <==> HashAt(Run(calls), c.key).None?
  {
    VersionChain(calls);
    IngestCounts(Run(calls), c, c.key);
    StatusByHash(Run(calls), c);
  }

  // The documents that supersede none.
  function Firsts(docs: seq<Doc>): int {
    Sum(First(), docs)
  }

  class Store {
    const hash: string -> string
    var docs: seq<Doc>
    var chunks: seq<ChunkRow>
    ghost var calls: seq<Call>   // every ingestion so far

    // The tables are the outcome of the ingestions, and the chunks follow the documents.
    ghost predicate Valid()
      reads this
    {
      docs == Run(calls) && ChunksFollow(docs, chunks)
    }

    constructor (hash: string -> string)
      ensures Valid() && docs == [] && chunks == [] && calls == [] && this.hash == hash
    {
      this.hash, docs, chunks, calls := hash, [], [], [];
    }

    method RetireChunksOf(id: nat)
      modifies this`chunks
      ensures chunks == RetireChunks(old(chunks), Some(id))
    {
      for i := 0 to |chunks|
        invariant |chunks| == |old(chunks)|
        invariant forall j | 0 <= j < i :: chunks[j] == RetireChunk(old(chunks)[j], Some(id))
        invariant forall j | i <= j < |chunks| :: chunks[j] == old(chunks)[j]
      {
        if chunks[i].doc == id {
          chunks := chunks[i := chunks[i].(current := false)];
        }
      }
    }

    method AddChunks(doc: nat, rows: seq<ChunkingLaws.Chunk>, embed: Embedder, ghost pieces: seq<string>)
      requires ChunkingLaws.Numbers(rows, ChunkingLaws.Enumerated(pieces))
      modifies this`chunks
      ensures chunks == old(chunks) + NewChunks(doc, pieces, embed)
    {
      for i := 0 to |rows|
        invariant chunks == old(chunks) + NewChunks(doc, pieces, embed)[..i]
      {
        chunks := chunks + [ChunkRow(doc, rows[i].ordinal, rows[i].text, true,
                                     if embed.Some? then Some(embed.value(rows[i].text)) else None)];
      }
    }

    // The document half: touch, or retire the prior version and add the next one.
    method RecordDocument(c: Call) returns (status: IngestStatus, prior: Option<nat>)
      modifies this`docs
      ensures docs == Ingest(old(docs), c) && status == StatusOf(old(docs), c) && prior == Current(old(docs), c.key)
    {
      prior := Current(docs, c.key);
      if prior.Some? && docs[prior.value].hash == c.hash {
        docs := docs[prior.value := docs[prior.value].(asOf := c.today)];
        return Unchanged, prior;
      }
      status := Created;
      var version := "v1";
      if prior.Some? {
        docs := docs[prior.value := docs[prior.value].(current := false)];
        version := NextVersion(docs[prior.value].version);
        status := Updated;
      }
      docs := docs + [Doc(c.key, true, prior, version, c.hash, c.today)];
    }

    // The new version's chunks, and the retirement of the prior one's.
    method ReplaceChunks(doc: nat, prior: Option<nat>, text: string, embed: Embedder)
      modifies this`chunks
      ensures chunks == RetireChunks(old(chunks), prior) + NewChunks(doc, PiecesOf(text), embed)
    {
      if prior.Some? {
        RetireChunksOf(prior.value);
      }
      assert chunks == RetireChunks(old(chunks), prior);
      var rows := ChunkingLaws.ChunkDocument(text, [], TARGET, OVERLAP);
      AddChunks(doc, rows, embed, PiecesOf(text));
    }

    method UpdateTables(c: Call, text: string, embed: Embedder) returns (status: IngestStatus)
      modifies this`docs, this`chunks
      ensures docs == Ingest(old(docs), c) && status == StatusOf(old(docs), c)
      ensures chunks == IngestChunks(old(docs), old(chunks), c, PiecesOf(text), embed)
    {
      var doc := |docs|;
      var prior;
      status, prior := RecordDocument(c);
      if !status.Unchanged? {
        ReplaceChunks(doc, prior, text, embed);
      }
    }

    method IngestItem(item: Item, today: int, embed: Embedder) returns (status: IngestStatus)
      requires Valid()
      modifies this
      ensures Valid() && calls == old(calls) + [Call(item.key, hash(item.text), today)]
      ensures docs == Ingest(old(docs), CallOf(item, today)) && status == StatusOf(old(docs), CallOf(item, today))
      ensures chunks == IngestChunks(old(docs), old(chunks), CallOf(item, today), PiecesOf(item.text), embed)
      ensures HashAt(docs, item.key) == Some(hash(item.text))
      ensures status.Unchanged? <==> HashAt(old(docs), item.key) == Some(hash(item.text))
      ensures status.Created? <==> HashAt(old(docs), item.key).None?
      ensures if status.Unchanged? then chunks == old(chunks) else
        Added(old(chunks), chunks, Current(old(docs), item.key), |old(docs)|, Chunking.Pieces(item.text, 1200, 150),
          embed)
    {
      var c := CallOf(item, today);
      IngestKeepsChunks(docs, chunks, c, PiecesOf(item.text), embed);
      RunAppend(calls, c);
      IngestedHash(calls, c);
      ChunksAdded(docs, chunks, c, item.text, embed);
      status := UpdateTables(c, item.text, embed);
      calls := calls + [c];
    }

    function CallOf(item: Item, today: int): Call {
      Call(item.key, hash(item.text), today)
    }

    // IngestItem, forgetting all but what a batch counts.
    method IngestNext(item: Item, today: int, embed: Embedder) returns (status: IngestStatus)
      requires Valid()
      modifies this
      ensures Valid() && calls == old(calls) + [CallOf(item, today)]
      ensures |docs| == |old(docs)| + if status.Unchanged? then 0 else 1
      ensures Firsts(docs) == Firsts(old(docs)) + if status.Created? then 1 else 0
    {
      CreatedAddsFirst(docs, CallOf(item, today));
      status := IngestItem(item, today, embed);
    }

    // The first n items were ingested after what was before.
    predicate Logged(before: seq<Call>, now: seq<Call>, items: seq<Item>, n: nat, today: int)
      requires n <= |items|
    {
      |now| == |before| + n && before <= now && forall i | 0 <= i < n :: now[|before| + i] == CallOf(items[i], today)
    }

    lemma LoggedNext(before: seq<Call>, now: seq<Call>, items: seq<Item>, n: nat, today: int)
      requires n < |items| && Logged(before, now, items, n, today)
      ensures Logged(before, now + [CallOf(items[n], today)], items, n + 1, today)
    {
    }

    method IngestItems(items: seq<Item>, today: int, embed: Embedder)
        returns (created: nat, updated: nat, unchanged_: nat)
      requires Valid()
      modifies this
      ensures Valid() && Logged(old(calls), calls, items, |items|, today)
      ensures created + updated + unchanged_ == |items| && created + updated == |docs| - |old(docs)|
      ensures created == Firsts(docs) - Firsts(old(docs))
    {
      created, updated, unchanged_ := 0, 0, 0;
      for i := 0 to |items|
        invariant Valid() && Logged(old(calls), calls, items, i, today)
        invariant created + updated + unchanged_ == i && created + updated == |docs| - |old(docs)|
        invariant created == Firsts(docs) - Firsts(old(docs))
      {
        LoggedNext(old(calls), calls, items, i, today);
        var status := IngestNext(items[i], today, embed);
        match status
        case Created => created := created + 1;
        case Updated => updated := updated + 1;
        case Unchanged => unchanged_ := unchanged_ + 1;
      }
    }
  }
}
