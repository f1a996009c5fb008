/**
 The upsert half of `apply_budget_translation` in apps/api/captureos/services/spend.py. Budgets (keyed
 by the three scope columns) and merchant rules (keyed by kind, match type and value) go through the
 same two loops: index the stored rows by key, then update or append a row for each translated entry.
 The index is not extended while rows are appended.
 */
module SpendTranslation {
  import opened Lists
  import opened Wrappers

  datatype Row<K, V> = Row(key: K, value: V)

  // The value of the last row with the key, the row a dict built from the rows keeps.
  function Lookup<K(==), V>(rows: seq<Row<K, V>>, k: K): Option<V> {
    if rows == [] then None
    else if rows[|rows| - 1].key == k then Some(rows[|rows| - 1].value)
    else Lookup(rows[..|rows| - 1], k)
  }

  predicate IsLast<K(==), V>(rows: seq<Row<K, V>>, i: nat) {
    i < |rows| && forall j | i < j < |rows| :: rows[j].key != rows[i].key
  }

  predicate IsIndex<K(==), V>(rows: seq<Row<K, V>>, index: map<K, nat>) {
    && (forall k | k in index :: index[k] < |rows| && rows[index[k]].key == k && IsLast(rows, index[k]))
    && forall i | 0 <= i < |rows| :: rows[i].key in index
  }

  function Upsert<K(==), V>(rows: seq<Row<K, V>>, index: map<K, nat>, edits: seq<Row<K, V>>): (r: seq<Row<K, V>>)
    requires forall k | k in index :: index[k] < |rows|
    ensures |rows| <= |r|
  {
    if edits == [] then rows
    else
      var prior := Upsert(rows, index, edits[..|edits| - 1]);
      var t := edits[|edits| - 1];
      if t.key in index then prior[index[t.key] := t] else prior + [t]
  }

  method ApplyTranslation<K(==), V>(stored: seq<Row<K, V>>, edits: seq<Row<K, V>>)
      returns (rows: seq<Row<K, V>>, index: map<K, nat>, written: nat)
    ensures IsIndex(stored, index)
    ensures rows == Upsert(stored, index, edits) && written == |edits|
  {
    index := map[];
    for i := 0 to |stored|
      invariant IsIndex(stored[..i], index)
    {
      index := index[stored[i].key := i];
      assert stored[..i + 1] == stored[..i] + [stored[i]];
    }
    assert stored[..|stored|] == stored;
    rows, written := stored, 0;
    for i := 0 to |edits|
      invariant rows == Upsert(stored, index, edits[..i]) && written == i
    {
      assert edits[..i + 1][..i] == edits[..i];
      var t := edits[i];
      if t.key in index {
        rows := rows[index[t.key] := t];
      } else {
        rows := rows + [t];
      }
      written := written + 1;
    }
    assert edits[..|edits|] == edits;
  }

  lemma {:induction false} LookupAt<K, V>(rows: seq<Row<K, V>>, i: nat)
    requires IsLast(rows, i)
    ensures Lookup(rows, rows[i].key) == Some(rows[i].value)
  {
    if i < |rows| - 1 {
      LookupAt(rows[..|rows| - 1], i);
    }
  }

  lemma {:induction false} LookupNone<K, V>(rows: seq<Row<K, V>>, k: K)
    ensures Lookup(rows, k).None? <==> forall r | r in rows :: r.key != k
  {
    if rows != [] {
      LookupNone(rows[..|rows| - 1], k);
      assert rows == rows[..|rows| - 1] + [rows[|rows| - 1]];
    }
  }

  // Positions keep their keys; appended rows carry only keys that were not indexed.
  lemma {:induction false} UpsertKeys<K, V>(rows: seq<Row<K, V>>, index: map<K, nat>, edits: seq<Row<K, V>>)
    requires IsIndex(rows, index)
    ensures var r := Upsert(rows, index, edits);
      && (forall i | 0 <= i < |rows| :: r[i].key == rows[i].key)
      && (forall i | |rows| <= i < |r| :: r[i].key !in index)
  {
    if edits != [] {
      UpsertKeys(rows, index, edits[..|edits| - 1]);
      assert edits == edits[..|edits| - 1] + [edits[|edits| - 1]];
    }
  }

  // The stored value of every key afterwards is the last one written for it, by the translation if it
  // wrote one and before it otherwise.
  lemma {:induction false} UpsertMeaning<K, V>(rows: seq<Row<K, V>>, index: map<K, nat>, edits: seq<Row<K, V>>, k: K)
    requires IsIndex(rows, index)
    ensures Lookup(Upsert(rows, index, edits), k) ==
      (if Lookup(edits, k).Some? then Lookup(edits, k) else Lookup(rows, k))
  {
    if edits != [] {
      var n := |edits| - 1;
      var prior, t := Upsert(rows, index, edits[..n]), edits[n];
      UpsertMeaning(rows, index, edits[..n], k);
      UpsertKeys(rows, index, edits[..n]);
      var r := Upsert(rows, index, edits);
      if t.key in index {
        var i := index[t.key];
        assert IsLast(prior, i) && IsLast(r, i);
        if k == t.key {
          LookupAt(r, i);
        } else {
          LookupElsewhere(prior, t, i, k);
        }
      } else {
        assert r[..|prior|] == prior;
      }
    }
  }

  lemma {:induction false} LookupElsewhere<K, V>(rows: seq<Row<K, V>>, t: Row<K, V>, i: nat, k: K)
    requires i < |rows| && rows[i].key == t.key != k
    ensures Lookup(rows[i := t], k) == Lookup(rows, k)
  {
    var n := |rows| - 1;
    if i < n {
      assert rows[i := t][..n] == rows[..n][i := t];
      LookupElsewhere(rows[..n], t, i, k);
    } else {
      assert rows[i := t][..n] == rows[..n];
    }
  }

  // What a stored row becomes: the last row of an edited key takes the last value written for the key, and
  // every other row stays as it was.
  function Rewritten<K(==), V>(rows: seq<Row<K, V>>, i: nat, edits: seq<Row<K, V>>): Row<K, V>
    requires i < |rows|
  {
    var written := Lookup(edits, rows[i].key);
    if IsLast(rows, i) && written.Some? then Row(rows[i].key, written.value) else rows[i]
  }

  lemma {:induction false} UpsertInPlace<K, V>(rows: seq<Row<K, V>>, index: map<K, nat>, edits: seq<Row<K, V>>)
    requires IsIndex(rows, index)
    ensures var r := Upsert(rows, index, edits);
      && (forall i | 0 <= i < |rows| :: r[i] == Rewritten(rows, i, edits))
      && ((forall t | t in edits :: t.key in index) ==> |r| == |rows|)
  {
    if edits != [] {
      var n := |edits| - 1;
      var t := edits[n];
      assert edits == edits[..n] + [t];
      UpsertInPlace(rows, index, edits[..n]);
      forall i | 0 <= i < |rows| ensures Upsert(rows, index, edits)[i] == Rewritten(rows, i, edits) {
        if t.key in index && rows[i].key == t.key && i != index[t.key] {
          assert !IsLast(rows, i);
        }
      }
    }
  }

  predicate KeysDistinct<K(==), V>(rows: seq<Row<K, V>>) {
    forall i, j | 0 <= i < j < |rows| :: rows[i].key != rows[j].key
  }

  function Fresh<K(==), V>(index: map<K, nat>, edits: seq<Row<K, V>>): seq<Row<K, V>> {
    if edits == [] then []
    else
      var front, t := Fresh(index, edits[..|edits| - 1]), edits[|edits| - 1];
      if t.key in index then front else front + [t]
  }

  lemma {:induction false} UpsertAppendsFresh<K, V>(rows: seq<Row<K, V>>, index: map<K, nat>, edits: seq<Row<K, V>>)
    requires IsIndex(rows, index)
    ensures Upsert(rows, index, edits)[|rows|..] == Fresh(index, edits)
  {
    if edits != [] {
      var n := |edits| - 1;
      UpsertAppendsFresh(rows, index, edits[..n]);
      var prior, r := Upsert(rows, index, edits[..n]), Upsert(rows, index, edits);
      if edits[n].key in index {
        assert r[|rows|..] == prior[|rows|..];
      } else {
        assert r[|rows|..] == prior[|rows|..] + [edits[n]];
      }
    }
  }

  // One row per key is kept exactly when the translation does not name a new key twice.
  lemma UpsertKeepsKeysDistinct<K, V>(rows: seq<Row<K, V>>, index: map<K, nat>, edits: seq<Row<K, V>>)
    requires IsIndex(rows, index) && KeysDistinct(rows)
    ensures KeysDistinct(Upsert(rows, index, edits)) <==> KeysDistinct(Fresh(index, edits))
  {
    var r := Upsert(rows, index, edits);
    UpsertKeys(rows, index, edits);
    UpsertAppendsFresh(rows, index, edits);
    var added := Fresh(index, edits);
    assert forall i | 0 <= i < |added| :: added[i] == r[|rows| + i];
    assert forall i | |rows| <= i < |r| :: r[i] == added[i - |rows|];
    if KeysDistinct(added) {
      forall i, j | 0 <= i < j < |r| ensures r[i].key != r[j].key {
        if i < |rows| {
          assert rows[i] in rows;
        } else {
          assert added[i - |rows|].key != added[j - |rows|].key;
        }
      }
    }
  }

  // ---------------------------------------------------------------------------
  // Applying a translation again
  // ---------------------------------------------------------------------------

  // The rows hold what the edits say wherever the edits say anything.
  predicate Agrees<K(==), V(==)>(rows: seq<Row<K, V>>, edits: seq<Row<K, V>>) {
    forall i | 0 <= i < |rows| :: AgreesAt(rows[i], edits)
  }

  predicate AgreesAt<K(==), V(==)>(r: Row<K, V>, edits: seq<Row<K, V>>) {
    Lookup(edits, r.key).Some? ==> r.value == Lookup(edits, r.key).value
  }

  // The rows come back in any order: no query of the translation has an ORDER BY.
  ghost predicate Idempotent<K(!new), V(!new)>(rows: seq<Row<K, V>>, index: map<K, nat>, edits: seq<Row<K, V>>)
    requires IsIndex(rows, index)
  {
    forall again, index' | multiset(again) == multiset(Upsert(rows, index, edits)) && IsIndex(again, index') ::
      Upsert(again, index', edits) == again
  }

  lemma {:induction false} IndexExists<K, V>(rows: seq<Row<K, V>>) returns (index: map<K, nat>)
    ensures IsIndex(rows, index)
  {
    index := map[];
    if rows != [] {
      var n := |rows| - 1;
      index := IndexExists(rows[..n]);
      index := index[rows[n].key := n];
      assert rows == rows[..n] + [rows[n]];
    }
  }

  lemma AgreeingStay<K, V>(rows: seq<Row<K, V>>, index: map<K, nat>, edits: seq<Row<K, V>>)
    requires IsIndex(rows, index) && Agrees(rows, edits) && forall t | t in edits :: t.key in index
    ensures Upsert(rows, index, edits) == rows
  {
    UpsertInPlace(rows, index, edits);
    forall i | 0 <= i < |rows| ensures Rewritten(rows, i, edits) == rows[i] {
      assert AgreesAt(rows[i], edits);
    }
  }

  lemma AgreesAnyOrder<K, V>(rows: seq<Row<K, V>>, again: seq<Row<K, V>>, edits: seq<Row<K, V>>)
    requires Agrees(rows, edits) && multiset(again) == multiset(rows)
    ensures Agrees(again, edits)
  {
    SameMembers(again, rows);
    forall i | 0 <= i < |again| ensures AgreesAt(again[i], edits) {
      assert again[i] in rows;
    }
  }

  lemma EditedAreStored<K, V>(
      rows: seq<Row<K, V>>, index: map<K, nat>, edits: seq<Row<K, V>>, again: seq<Row<K, V>>, index': map<K, nat>)
    requires IsIndex(rows, index) && multiset(again) == multiset(Upsert(rows, index, edits)) && IsIndex(again, index')
    ensures forall t | t in edits :: t.key in index'
  {
    var r := Upsert(rows, index, edits);
    SameMembers(again, r);
    forall t | t in edits ensures t.key in index' {
      UpsertMeaning(rows, index, edits, t.key);
      LookupNone(edits, t.key);
      LookupNone(r, t.key);
      var x :| x in r && x.key == t.key;
      assert x in again;
    }
  }

  // A row that disagrees is rewritten as soon as it is read last.
  lemma DisagreeingMoves<K(!new), V(!new)>(
      rows: seq<Row<K, V>>, index: map<K, nat>, edits: seq<Row<K, V>>, x: Row<K, V>)
    requires IsIndex(rows, index) && x in Upsert(rows, index, edits)
    requires !AgreesAt(x, edits)
    ensures !Idempotent(rows, index, edits)
  {
    var again := MoveToBack(Upsert(rows, index, edits), x);
    var index' := IndexExists(again);
    UpsertInPlace(again, index', edits);
    assert IsLast(again, |again| - 1);
    assert Upsert(again, index', edits)[|again| - 1] == Rewritten(again, |again| - 1, edits) != x;
  }

  lemma StoredAgree<K(!new), V(!new)>(rows: seq<Row<K, V>>, index: map<K, nat>, edits: seq<Row<K, V>>)
    requires IsIndex(rows, index)
    ensures Agrees(Upsert(rows, index, edits), edits) <==> Idempotent(rows, index, edits)
  {
    var r := Upsert(rows, index, edits);
    if Agrees(r, edits) {
      forall again, index' | multiset(again) == multiset(r) && IsIndex(again, index')
        ensures Upsert(again, index', edits) == again
      {
        AgreesAnyOrder(r, again, edits);
        EditedAreStored(rows, index, edits, again, index');
        AgreeingStay(again, index', edits);
      }
    } else {
      var i :| 0 <= i < |r| && !AgreesAt(r[i], edits);
      DisagreeingMoves(rows, index, edits, r[i]);
    }
  }

  // What a caller can check beforehand: rows stored twice under a key already agree with the translation, and it
  // names no new key with two values.
  predicate OneValuePerKey<K(==), V(==)>(rows: seq<Row<K, V>>, index: map<K, nat>, edits: seq<Row<K, V>>) {
    && (forall i | 0 <= i < |rows| && !IsLast(rows, i) :: AgreesAt(rows[i], edits))
    && forall i | 0 <= i < |edits| && edits[i].key !in index :: AgreesAt(edits[i], edits)
  }

  lemma {:induction false} FreshAgree<K, V>(index: map<K, nat>, edits: seq<Row<K, V>>, all: seq<Row<K, V>>)
    ensures Agrees(Fresh(index, edits), all) <==> forall i | 0 <= i < |edits| && edits[i].key !in index ::
      AgreesAt(edits[i], all)
  {
    if edits != [] {
      var n := |edits| - 1;
      FreshAgree(index, edits[..n], all);
      assert forall i | 0 <= i < n :: edits[..n][i] == edits[i];
      assert Agrees([edits[n]], all) <==> AgreesAt([edits[n]][0], all);
      BothAgree(Fresh(index, edits[..n]), [edits[n]], all);
    }
  }

  lemma BothAgree<K, V>(a: seq<Row<K, V>>, b: seq<Row<K, V>>, edits: seq<Row<K, V>>)
    ensures Agrees(a + b, edits) <==> Agrees(a, edits) && Agrees(b, edits)
  {
    assert forall i | 0 <= i < |a| :: (a + b)[i] == a[i];
    assert forall i | 0 <= i < |b| :: (a + b)[|a| + i] == b[i];
    assert forall i | |a| <= i < |a + b| :: (a + b)[i] == b[i - |a|];
  }

  lemma StoredPartAgrees<K, V>(rows: seq<Row<K, V>>, part: seq<Row<K, V>>, edits: seq<Row<K, V>>)
    requires |part| == |rows| && forall i | 0 <= i < |rows| :: part[i] == Rewritten(rows, i, edits)
    ensures Agrees(part, edits) <==> forall i | 0 <= i < |rows| && !IsLast(rows, i) :: AgreesAt(rows[i], edits)
  {
    forall i | 0 <= i < |rows| ensures AgreesAt(part[i], edits) <==> IsLast(rows, i) || AgreesAt(rows[i], edits) {
      assert part[i] == Rewritten(rows, i, edits);
    }
  }

  lemma AgreeExactly<K, V>(rows: seq<Row<K, V>>, index: map<K, nat>, edits: seq<Row<K, V>>)
    requires IsIndex(rows, index)
    ensures Agrees(Upsert(rows, index, edits), edits) <==> OneValuePerKey(rows, index, edits)
  {
    var r := Upsert(rows, index, edits);
    UpsertInPlace(rows, index, edits);
    UpsertAppendsFresh(rows, index, edits);
    assert r == r[..|rows|] + r[|rows|..];
    BothAgree(r[..|rows|], r[|rows|..], edits);
    StoredPartAgrees(rows, r[..|rows|], edits);
    FreshAgree(index, edits, edits);
  }

  // Applying a translation again changes nothing, in whatever order the rows are read back, if and only if rows
  // stored twice under an edited key already agree with it and it names no new key with two values.
  lemma IdempotentExactly<K(!new), V(!new)>(rows: seq<Row<K, V>>, index: map<K, nat>, edits: seq<Row<K, V>>)
    requires IsIndex(rows, index)
    ensures Idempotent(rows, index, edits) <==> OneValuePerKey(rows, index, edits)
  {
    StoredAgree(rows, index, edits);
    AgreeExactly(rows, index, edits);
  }

  // So it does when keys are stored once and named once.
  lemma TranslationIdempotent<K(!new), V(!new)>(rows: seq<Row<K, V>>, index: map<K, nat>, edits: seq<Row<K, V>>)
    requires IsIndex(rows, index) && KeysDistinct(rows) && KeysDistinct(edits)
    ensures Idempotent(rows, index, edits)
  {
    forall i | 0 <= i < |edits| ensures AgreesAt(edits[i], edits) {
      LookupAt(edits, i);
    }
    IdempotentExactly(rows, index, edits);
  }

  lemma UpsertMore<K, V>(rows: seq<Row<K, V>>, index: map<K, nat>, edits: seq<Row<K, V>>, t: Row<K, V>)
    requires forall k | k in index :: index[k] < |rows|
    ensures var prior := Upsert(rows, index, edits);
      Upsert(rows, index, edits + [t]) == if t.key in index then prior[index[t.key] := t] else prior + [t]
  {
    assert (edits + [t])[..|edits|] == edits;
  }

  // Two limits for one new merchant are both stored, and what the next application makes of them depends on the
  // order in which they are read.
  lemma TwoValuesNotIdempotent(merchant: string)
    ensures var a, b := Row(merchant, 1), Row(merchant, 2);
      && Upsert([], map[], [a, b]) == [a, b]
      && Upsert([b, a], map[merchant := 1], [a, b]) == [b, b]
      && !Idempotent([], map[], [a, b])
  {
    var a, b := Row(merchant, 1), Row(merchant, 2);
    assert [] + [a] == [a] && [a] + [b] == [a, b];
    UpsertMore([], map[], [], a);
    UpsertMore([], map[], [a], b);
    UpsertMore([b, a], map[merchant := 1], [], a);
    UpsertMore([b, a], map[merchant := 1], [a], b);
    assert !AgreesAt([a, b][0], [a, b]);
    IdempotentExactly([], map[], [a, b]);
  }
}
