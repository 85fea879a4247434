/** The query for a batch: pending rows, oldest first, at most a batch of them
    (app/workers/ingest_and_parse.py). */
module BatchQuery {
  import opened Basics
  import opened RawQueue
  import opened Sorting

  /** A row in the query's order, its position breaking ties. */
  datatype Key = Key(created: int, row: nat)

  predicate OlderOrSame(a: Key, b: Key) { a.created < b.created || (a.created == b.created && a.row <= b.row) }

  lemma AgeIsTotal()
    ensures TotalOrder(OlderOrSame)
  {
  }

  function KeyOf(rows: seq<Row>, i: nat): Key
    requires i < |rows|
  {
    Key(rows[i].created, i)
  }

  lemma {:induction false} InsertedKeys(key: Key, keys: seq<Key>)
    requires key !in keys && Distinct(keys)
    ensures Distinct(Insert(key, keys, OlderOrSame))
    ensures forall k :: k in Insert(key, keys, OlderOrSame) <==> k == key || k in keys
  {
    if keys == [] || OlderOrSame(key, keys[0]) {
    } else {
      InsertedKeys(key, keys[1..]);
      assert keys == [keys[0]] + keys[1..];
      assert keys[0] !in keys[1..];
    }
  }

  /** The keys of the pending rows, in order. */
  predicate AgeList(rows: seq<Row>, keys: seq<Key>) {
    && Sorted(keys, OlderOrSame) && Distinct(keys)
    && (forall k | 0 <= k < |keys| :: keys[k].row in PendingSet(rows) && keys[k] == KeyOf(rows, keys[k].row))
    && (forall i | i in PendingSet(rows) :: KeyOf(rows, i) in keys)
  }

  method PendingByAge(rows: seq<Row>) returns (keys: seq<Key>)
    ensures AgeList(rows, keys)
  {
    AgeIsTotal();
    keys := [];
    for i := 0 to |rows|
      invariant Sorted(keys, OlderOrSame) && Distinct(keys)
      invariant forall k | k in keys :: k.row < i && k.row in PendingSet(rows) && k == KeyOf(rows, k.row)
      invariant forall j: nat | j < i && rows[j].status == Pending :: KeyOf(rows, j) in keys
    {
      if rows[i].status == Pending {
        InsertKeeps(KeyOf(rows, i), keys, OlderOrSame);
        InsertedKeys(KeyOf(rows, i), keys);
        keys := Insert(KeyOf(rows, i), keys, OlderOrSame);
      }
    }
  }

  lemma KeysArePending(rows: seq<Row>, keys: seq<Key>)
    requires AgeList(rows, keys)
    ensures |keys| == |PendingSet(rows)|
  {
    var positions: seq<nat> := seq(|keys|, k requires 0 <= k < |keys| => keys[k].row);
    DistinctCount(positions);
    forall i | i in PendingSet(rows) ensures i in positions {
      var k :| 0 <= k < |keys| && keys[k] == KeyOf(rows, i);
      assert positions[k] == i;
    }
    assert Elements(positions) == PendingSet(rows);
  }

  lemma PrefixIsOldest(rows: seq<Row>, keys: seq<Key>, batch: seq<nat>)
    requires AgeList(rows, keys) && |keys| == |PendingSet(rows)|
    requires |batch| == Min(BATCH, |keys|) && forall k | 0 <= k < |batch| :: batch[k] == keys[k].row
    ensures IsOldestBatch(rows, batch)
  {
    forall a, b | 0 <= a < b < |batch|
      ensures batch[a] != batch[b] && rows[batch[a]].created <= rows[batch[b]].created
    {
      assert OlderOrSame(keys[a], keys[b]) && keys[a] != keys[b];
    }
    forall i, j | i in batch && j in PendingSet(rows) && j !in batch
      ensures rows[i].created <= rows[j].created
    {
      var a :| 0 <= a < |batch| && batch[a] == i;
      var b :| 0 <= b < |keys| && keys[b] == KeyOf(rows, j);
      assert b >= |batch|;
      assert OlderOrSame(keys[a], keys[b]);
    }
  }

  method OldestPending(rows: seq<Row>) returns (batch: seq<nat>)
    ensures IsOldestBatch(rows, batch)
  {
    var keys := PendingByAge(rows);
    KeysArePending(rows, keys);
    var n := Min(BATCH, |keys|);
    batch := seq(n, k requires 0 <= k < n => keys[k].row);
    PrefixIsOldest(rows, keys, batch);
  }
}
