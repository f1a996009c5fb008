/**
 The document table of the versioned corpus, apps/api/captureos/corpus/ingest.py. Change detection
 compares content hashes; a changed item retires the current document and adds a new current version.
 */
module Corpus {
  import opened Wrappers
  import opened Sums
  import opened VersionLabels

  datatype Key = Key(authority: string, externalId: string)

  // A document's id is its position.
  datatype Doc = Doc(key: Key, current: bool, supersedes: Option<nat>, version: string, hash: string, asOf: int)

  // One ingestion as the document table sees it.
  datatype Call = Call(key: Key, hash: string, today: int)

  datatype IngestStatus = Created | Updated | Unchanged

  function Last(docs: seq<Doc>, k: Key): Option<nat> {
    if docs == [] then None
    else if docs[|docs| - 1].key == k then Some(|docs| - 1)
    else Last(docs[..|docs| - 1], k)
  }

  function Current(docs: seq<Doc>, k: Key): (c: Option<nat>)
    ensures c.Some? ==> c.value < |docs| && docs[c.value].key == k && docs[c.value].current
    ensures c.None? ==> forall i | 0 <= i < |docs| :: !(docs[i].key == k && docs[i].current)
  {
    if docs == [] then None
    else if docs[|docs| - 1].key == k && docs[|docs| - 1].current then Some(|docs| - 1)
    else Current(docs[..|docs| - 1], k)
  }

  function StatusOf(docs: seq<Doc>, c: Call): IngestStatus {
    match Current(docs, c.key)
    case None => Created
    case Some(i) => if docs[i].hash == c.hash then Unchanged else Updated
  }

  function Retired(docs: seq<Doc>, i: Option<nat>): seq<Doc>
    requires i.Some? ==> i.value < |docs|
  {
    if i.Some? then docs[i.value := docs[i.value].(current := false)] else docs
  }

  function NewDoc(docs: seq<Doc>, c: Call): Doc {
    var i := Current(docs, c.key);
    Doc(c.key, true, i, if i.Some? then NextVersion(docs[i.value].version) else "v1", c.hash, c.today)
  }

  function Ingest(docs: seq<Doc>, c: Call): seq<Doc> {
    var i := Current(docs, c.key);
    if StatusOf(docs, c).Unchanged? then docs[i.value := docs[i.value].(asOf := c.today)]
    else Retired(docs, i) + [NewDoc(docs, c)]
  }

  function Run(calls: seq<Call>): seq<Doc> {
    if calls == [] then [] else Ingest(Run(calls[..|calls| - 1]), calls[|calls| - 1])
  }

  lemma RunAppend(calls: seq<Call>, c: Call)
    ensures Run(calls + [c]) == Ingest(Run(calls), c)
  {
    assert (calls + [c])[..|calls|] == calls;
  }

  // ---------------------------------------------------------------------------
  // Version chains
  // ---------------------------------------------------------------------------

  function Count(docs: seq<Doc>, k: Key): nat {
    if docs == [] then 0 else Count(docs[..|docs| - 1], k) + if docs[|docs| - 1].key == k then 1 else 0
  }

  // The document is the next version of what came before it under its key, and current when it is the last.
  predicate ChainedAt(docs: seq<Doc>, i: nat)
    requires i < |docs|
  {
    var k := docs[i].key;
    && docs[i].version == Label(Count(docs[..i], k) + 1)
    && docs[i].supersedes == Last(docs[..i], k)
    && (docs[i].current <==> Last(docs, k) == Some(i))
  }

  predicate Chained(docs: seq<Doc>) {
    forall i | 0 <= i < |docs| :: ChainedAt(docs, i)
  }

  function HashesOf(calls: seq<Call>, k: Key): seq<string> {
    if calls == [] then []
    else
      var c, before := calls[|calls| - 1], HashesOf(calls[..|calls| - 1], k);
      if c.key == k then before + [c.hash] else before
  }

  // The number of maximal runs of equal neighbours.
  function Runs(hashes: seq<string>): nat {
    if hashes == [] then 0
    else if |hashes| == 1 then 1
    else Runs(hashes[..|hashes| - 1]) + if hashes[|hashes| - 1] == hashes[|hashes| - 2] then 0 else 1
  }

  lemma {:induction false} LastMeaning(docs: seq<Doc>, k: Key)
    ensures match Last(docs, k)
      case None => Count(docs, k) == 0 && forall i | 0 <= i < |docs| :: docs[i].key != k
      case Some(i) => i < |docs| && docs[i].key == k && (forall j | i < j < |docs| :: docs[j].key != k)
                      && Count(docs, k) == Count(docs[..i], k) + 1
  {
    if docs != [] {
      var front := docs[..|docs| - 1];
      LastMeaning(front, k);
      if docs[|docs| - 1].key != k && Last(front, k).Some? {
        assert front[..Last(front, k).value] == docs[..Last(front, k).value];
      }
    }
  }

  lemma CurrentIsLast(docs: seq<Doc>, k: Key)
    requires Chained(docs)
    ensures Current(docs, k) == Last(docs, k)
  {
    LastMeaning(docs, k);
    if Last(docs, k).Some? {
      assert ChainedAt(docs, Last(docs, k).value);
    }
    if Current(docs, k).Some? {
      assert ChainedAt(docs, Current(docs, k).value);
    }
  }

  predicate KeysAgree(a: seq<Doc>, b: seq<Doc>) {
    |a| == |b| && forall i | 0 <= i < |a| :: a[i].key == b[i].key
  }

  // Only the keys decide Count and Last.
  lemma {:induction false} SameKeys(a: seq<Doc>, b: seq<Doc>, k: Key)
    requires KeysAgree(a, b)
    ensures Last(a, k) == Last(b, k) && Count(a, k) == Count(b, k)
  {
    if a != [] {
      SameKeys(a[..|a| - 1], b[..|b| - 1], k);
    }
  }

  lemma NextLabel(docs: seq<Doc>, i: nat)
    requires i < |docs| && ChainedAt(docs, i)
    ensures NextVersion(docs[i].version) == Label(Count(docs[..i], docs[i].key) + 2)
  {
    LabelsCountUp(Count(docs[..i], docs[i].key) + 1, 0);
  }

  // The new document continues the chain of its key.
  lemma NewDocContinues(docs: seq<Doc>, c: Call)
    requires Chained(docs)
    ensures NewDoc(docs, c).supersedes == Last(docs, c.key)
    ensures NewDoc(docs, c).version == Label(Count(docs, c.key) + 1)
  {
    CurrentIsLast(docs, c.key);
    LastMeaning(docs, c.key);
    match Last(docs, c.key)
    case None => assert Label(1) == "v1";
    case Some(i) => NextLabel(docs, i);
  }

  lemma LastOfMore(docs: seq<Doc>, d: Doc, k: Key)
    ensures Last(docs + [d], k) == if d.key == k then Some(|docs|) else Last(docs, k)
    ensures Count(docs + [d], k) == Count(docs, k) + if d.key == k then 1 else 0
  {
    assert (docs + [d])[..|docs|] == docs;
  }

  lemma OldDocStaysChained(docs: seq<Doc>, c: Call, i: nat)
    requires Chained(docs) && !StatusOf(docs, c).Unchanged? && i < |docs|
    ensures ChainedAt(Ingest(docs, c), i)
  {
    var cur := Current(docs, c.key);
    var retired, d := Retired(docs, cur), NewDoc(docs, c);
    var all, k := retired + [d], docs[i].key;
    assert ChainedAt(docs, i);
    assert cur == Last(docs, c.key) by { CurrentIsLast(docs, c.key); }
    assert Last(all, k) == if c.key == k then Some(|docs|) else Last(docs, k) by {
      LastOfMore(retired, d, k);
      SameKeys(retired, docs, k);
    }
    assert Last(all[..i], k) == Last(docs[..i], k) && Count(all[..i], k) == Count(docs[..i], k) by {
      SameKeys(all[..i], docs[..i], k);
    }
    assert c.key == k && docs[i].current ==> cur == Some(i);
  }

  lemma NewDocChained(docs: seq<Doc>, c: Call)
    requires Chained(docs) && !StatusOf(docs, c).Unchanged?
    ensures ChainedAt(Ingest(docs, c), |docs|)
  {
    var retired, all := Retired(docs, Current(docs, c.key)), Ingest(docs, c);
    NewDocContinues(docs, c);
    LastOfMore(retired, NewDoc(docs, c), c.key);
    SameKeys(retired, docs, c.key);
    assert all[..|docs|] == retired;
  }

  lemma TouchedStaysChained(docs: seq<Doc>, c: Call, i: nat)
    requires Chained(docs) && StatusOf(docs, c).Unchanged? && i < |docs|
    ensures ChainedAt(Ingest(docs, c), i)
  {
    var all := Ingest(docs, c);
    assert ChainedAt(docs, i);
    SameKeys(all[..i], docs[..i], docs[i].key);
    SameKeys(all, docs, docs[i].key);
  }

  lemma IngestKeepsChain(docs: seq<Doc>, c: Call)
    requires Chained(docs)
    ensures Chained(Ingest(docs, c))
  {
    forall i | 0 <= i < |Ingest(docs, c)| ensures ChainedAt(Ingest(docs, c), i) {
      if StatusOf(docs, c).Unchanged? {
        TouchedStaysChained(docs, c, i);
      } else if i < |docs| {
        OldDocStaysChained(docs, c, i);
      } else {
        NewDocChained(docs, c);
      }
    }
  }

  // After any ingestions each key's documents are versions v1, v2, ... along one supersedes chain, and
  // exactly the last of them is current.
  lemma {:induction false} VersionChain(calls: seq<Call>)
    ensures Chained(Run(calls))
  {
    if calls != [] {
      VersionChain(calls[..|calls| - 1]);
      IngestKeepsChain(Run(calls[..|calls| - 1]), calls[|calls| - 1]);
    }
  }

  // What one ingestion does to a key.
  lemma IngestCounts(docs: seq<Doc>, c: Call, k: Key)
    requires Chained(docs)
    ensures var docs' := Ingest(docs, c);
      && Count(docs', k) == Count(docs, k) + (if c.key == k && !StatusOf(docs, c).Unchanged? then 1 else 0)
      && HashAt(docs', k) == (if c.key == k then Some(c.hash) else HashAt(docs, k))
  {
    var docs' := Ingest(docs, c);
    IngestKeepsChain(docs, c);
    CurrentIsLast(docs, k);
    CurrentIsLast(docs', k);
    CurrentIsLast(docs, c.key);
    LastMeaning(docs, k);
    if StatusOf(docs, c).Unchanged? {
      SameKeys(docs', docs, k);
    } else {
      var retired := Retired(docs, Current(docs, c.key));
      SameKeys(retired, docs, k);
      LastOfMore(retired, NewDoc(docs, c), k);
    }
  }

  // The document current for the key afterwards carries today's date, and no other document's date moves.
  lemma IngestIsFresh(docs: seq<Doc>, c: Call)
    requires Chained(docs)
    ensures var docs' := Ingest(docs, c);
      && Current(docs', c.key).Some? && docs'[Current(docs', c.key).value].asOf == c.today
      && forall i | 0 <= i < |docs| && Current(docs', c.key) != Some(i) :: docs'[i].asOf == docs[i].asOf
  {
    var docs' := Ingest(docs, c);
    IngestKeepsChain(docs, c);
    CurrentIsLast(docs, c.key);
    CurrentIsLast(docs', c.key);
    if StatusOf(docs, c).Unchanged? {
      SameKeys(docs', docs, c.key);
    } else {
      LastOfMore(Retired(docs, Current(docs, c.key)), NewDoc(docs, c), c.key);
    }
  }

  // No version is ever lost or rewritten: only the current flag and the date of a stored document change.
  lemma IngestKeepsHistory(docs: seq<Doc>, c: Call)
    ensures |docs| <= |Ingest(docs, c)|
    ensures forall i | 0 <= i < |docs| ::
      Ingest(docs, c)[i] == Doc(docs[i].key, Ingest(docs, c)[i].current, docs[i].supersedes, docs[i].version,
                                docs[i].hash, Ingest(docs, c)[i].asOf)
    ensures forall i | |docs| <= i < |Ingest(docs, c)| :: Ingest(docs, c)[i].key == c.key
  {
  }

  // The hash of the current document of a key.
  function HashAt(docs: seq<Doc>, k: Key): Option<string> {
    match Current(docs, k) case None => None case Some(i) => Some(docs[i].hash)
  }

  // The table agrees with the hashes ingested for the key.
  predicate Tracks(docs: seq<Doc>, hashes: seq<string>, k: Key) {
    && Count(docs, k) == Runs(hashes)
    && HashAt(docs, k) == if hashes == [] then None else Some(hashes[|hashes| - 1])
  }

  lemma RunsMore(hashes: seq<string>, h: string)
    ensures Runs(hashes + [h]) == Runs(hashes) + if hashes != [] && hashes[|hashes| - 1] == h then 0 else 1
  {
    assert (hashes + [h])[..|hashes|] == hashes;
  }

  lemma StatusByHash(docs: seq<Doc>, c: Call)
    ensures StatusOf(docs, c).Unchanged? <==> HashAt(docs, c.key) == Some(c.hash)
  {
  }

  lemma IngestTracks(docs: seq<Doc>, hashes: seq<string>, c: Call, k: Key)
    requires Chained(docs) && Tracks(docs, hashes, k)
    ensures Tracks(Ingest(docs, c), if c.key == k then hashes + [c.hash] else hashes, k)
  {
    IngestCounts(docs, c, k);
    StatusByHash(docs, c);
    RunsMore(hashes, c.hash);
  }

  lemma RunTracks(calls: seq<Call>, hashes: seq<string>, c: Call, k: Key)
    requires Tracks(Run(calls), hashes, k)
    ensures Tracks(Ingest(Run(calls), c), if c.key == k then hashes + [c.hash] else hashes, k)
  {
    VersionChain(calls);
    IngestTracks(Run(calls), hashes, c, k);
  }

  // Exactly the keys ever ingested have a current document; it holds the last hash ingested for the key,
  // and there are as many versions as there were runs of equal hashes.
  lemma {:induction false} VersionsCountRuns(calls: seq<Call>, k: Key)
    ensures Tracks(Run(calls), HashesOf(calls, k), k)
  {
    if calls != [] {
      var n := |calls| - 1;
      VersionsCountRuns(calls[..n], k);
      RunTracks(calls[..n], HashesOf(calls[..n], k), calls[n], k);
    }
  }

  lemma {:induction false} CountGrows(docs: seq<Doc>, k: Key, i: nat, j: nat)
    requires i < j <= |docs| && docs[i].key == k
    ensures Count(docs[..i], k) < Count(docs[..j], k)
  {
    assert docs[..j][..j - 1] == docs[..j - 1];
    if i < j - 1 {
      CountGrows(docs, k, i, j - 1);
    }
  }

  // The uniqueness of (authority, external id, version) is never at stake.
  lemma LabelsUnique(calls: seq<Call>, i: nat, j: nat)
    requires i < j < |Run(calls)|
    ensures Run(calls)[i].key == Run(calls)[j].key ==> Run(calls)[i].version != Run(calls)[j].version
  {
    var docs := Run(calls);
    var k := docs[i].key;
    VersionChain(calls);
    assert ChainedAt(docs, i) && ChainedAt(docs, j);
    LabelsCountUp(Count(docs[..i], k) + 1, Count(docs[..j], k) + 1);
    CountGrows(docs, k, i, j);
  }

  function First(): Doc -> int {
    (d: Doc) => if d.supersedes.None? then 1 else 0
  }

  // A key is created once: that ingestion and no other adds a document that supersedes nothing.
  lemma CreatedAddsFirst(docs: seq<Doc>, c: Call)
    ensures Sum(First(), Ingest(docs, c)) == Sum(First(), docs) + if StatusOf(docs, c).Created? then 1 else 0
    ensures |Ingest(docs, c)| == |docs| + if StatusOf(docs, c).Unchanged? then 0 else 1
  {
    var i := Current(docs, c.key);
    if i.Some? {
      SumUpdate(First(), docs, i.value, docs[i.value].(asOf := c.today));
      SumUpdate(First(), docs, i.value, docs[i.value].(current := false));
    }
    SumAppend(First(), Retired(docs, i), NewDoc(docs, c));
  }
}
