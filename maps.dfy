/** A sequence of `Map.put` calls on a Java map: later entries overwrite
    earlier ones with the same key. */
module Maps {

  /** The map obtained from `m` by putting every entry of `entries`, in order. */
  function PutAll<K, V>(m: map<K, V>, entries: seq<(K, V)>): map<K, V>
    decreases |entries|
  {
    if entries == [] then m
    else
      var last := entries[|entries| - 1];
      PutAll(m, entries[..|entries| - 1])[last.0 := last.1]
  }

  /** The keys after the puts are the old keys and the keys put. */
  lemma {:induction false} PutAllKeys<K, V>(m: map<K, V>, entries: seq<(K, V)>)
    ensures PutAll(m, entries).Keys == m.Keys + (set e | e in entries :: e.0)
    decreases |entries|
  {
    if entries != [] {
      var n := |entries| - 1;
      PutAllKeys(m, entries[..n]);
      assert entries == entries[..n] + [entries[n]];
    }
  }

  /** Putting one more entry is one more `put`. */
  lemma PutAllSnoc<K, V>(m: map<K, V>, entries: seq<(K, V)>, e: (K, V))
    ensures PutAll(m, entries + [e]) == PutAll(m, entries)[e.0 := e.1]
  {
    assert (entries + [e])[..|entries|] == entries;
  }

  /** Putting two runs of entries is putting the first run, then the second. */
  lemma {:induction false} PutAllAppend<K, V>(m: map<K, V>, a: seq<(K, V)>, b: seq<(K, V)>)
    ensures PutAll(m, a + b) == PutAll(PutAll(m, a), b)
    decreases |b|
  {
    if b != [] {
      var n := |b| - 1;
      PutAllAppend(m, a, b[..n]);
      assert (a + b)[..|a + b| - 1] == a + b[..n];
    } else {
      assert a + b == a;
    }
  }

  /** The value under a key is the one of its last entry; a key with no entry keeps its old value. */
  lemma {:induction false} PutAllLastWins<K, V>(m: map<K, V>, entries: seq<(K, V)>, k: K)
    ensures (exists i :: 0 <= i < |entries| && entries[i].0 == k) || k in m <==> k in PutAll(m, entries)
    ensures forall i :: 0 <= i < |entries| && entries[i].0 == k ==>
              (forall j :: i < j < |entries| ==> entries[j].0 != k) ==> PutAll(m, entries)[k] == entries[i].1
    ensures (forall i :: 0 <= i < |entries| ==> entries[i].0 != k) && k in m ==> PutAll(m, entries)[k] == m[k]
    decreases |entries|
  {
    if entries != [] {
      var n := |entries| - 1;
      var init := entries[..n];
      PutAllLastWins(m, init, k);
      forall i | 0 <= i < n && init[i].0 == k
        ensures entries[i].0 == k
      {
      }
    }
  }

  /** When every entry under `k` carries the same value `v`, and there is one, `k` maps to `v`. */
  lemma {:induction false} PutAllUniformValue<K, V>(m: map<K, V>, entries: seq<(K, V)>, k: K, v: V)
    requires exists i :: 0 <= i < |entries| && entries[i].0 == k
    requires forall i :: 0 <= i < |entries| && entries[i].0 == k ==> entries[i].1 == v
    ensures k in PutAll(m, entries) && PutAll(m, entries)[k] == v
    decreases |entries|
  {
    var n := |entries| - 1;
    if entries[n].0 != k {
      var init := entries[..n];
      var i :| 0 <= i < |entries| && entries[i].0 == k;
      assert init[i].0 == k;
      PutAllUniformValue(m, init, k, v);
    }
  }
}
