/** The replica object: private rebuild of a snapshot, then a swap; deltas applied in place. */
module MarketReplicas {
  import opened Types
  import opened Sums
  import opened BookModel
  import opened DeltaStream
  import opened ReplicaModel

  class MarketReplica {
    const capacity: nat
    var books: Shelf
    var epoch: nat
    var sequence: nat
    var synchronized: bool

    ghost function State(): Replica
      reads this
    {
      Replica(books, epoch, sequence, synchronized)
    }

    constructor (capacity: nat)
      ensures State() == BLANK_REPLICA && this.capacity == capacity
    {
      this.capacity := capacity;
      books, epoch, sequence, synchronized := map[], 0, 0, false;
    }

    /** Builds the snapshot's books aside and swaps them in only when every row has been accepted. */
    method Restore(rows: seq<Message>) returns (ok: bool)
      modifies this
      ensures State() == ReplicaModel.Restore(old(State()), capacity, rows)
      ensures ok <==> ReplicaModel.Accepted(capacity, rows).Some?
    {
      hide BadRow, PlaceRow;
      synchronized := false;
      if |rows| < 2 || rows[0].kind != SnapshotBegin || rows[|rows| - 1].kind != SnapshotEnd || rows[0].epoch == 0
         || |rows| - 2 != rows[0].quantity || rows[|rows| - 1].quantity != rows[0].quantity {
        return false;
      }
      var body := rows[1..|rows| - 1];
      var built: Shelf := map[];
      var ids: set<OrderId> := {};
      for n := 0 to |rows|
        invariant forall k | 0 <= k < n :: rows[k].epoch == rows[0].epoch && rows[k].sequence == rows[0].sequence
        invariant var done := if n == 0 then 0 else if n == |rows| then |body| else n - 1;
                  Load(built, capacity, ids, body[done..]) == Load(map[], capacity, {}, body)
      {
        var m := rows[n];
        if m.epoch != rows[0].epoch || m.sequence != rows[0].sequence {
          return false;
        }
        if n != 0 && n != |rows| - 1 {
          assert body[n - 1..][0] == m && body[n - 1..][1..] == body[n..];
          if BadRow(built, capacity, ids, m) {
            return false;
          }
          built, ids := PlaceRow(built, capacity, m), ids + {m.exchangeId};
        }
      }
      assert body[|body|..] == [];
      var todo := built.Keys;
      while todo != {}
        invariant todo <= built.Keys
        invariant forall i | i in built && i !in todo :: Uncrossed(built[i])
        decreases todo
      {
        var i :| i in todo;
        var b := built[i];
        if b.bids != [] && b.asks != [] && b.bids[0].price >= b.asks[0].price {
          return false;
        }
        todo := todo - {i};
      }
      books, epoch, sequence, synchronized := built, rows[0].epoch, rows[0].sequence, true;
      ok := true;
    }

    /** Applies one feed message; false means nothing may be traded until a restore succeeds. */
    method Consume(m: Message) returns (ok: bool)
      modifies this
      ensures State() == ReplicaModel.Consume(old(State()), capacity, m)
      ensures ok == synchronized
    {
      if !synchronized {
        return false;
      }
      if m.epoch != epoch {
        synchronized := false;
        return false;
      }
      if m.kind == Heartbeat {
        if m.sequence > sequence {
          synchronized := false;
        }
        return synchronized;
      }
      if m.kind != Delta {
        synchronized := false;
        return false;
      }
      if m.sequence <= sequence {
        return true;
      }
      if m.sequence - sequence != 1 {
        synchronized := false;
        return false;
      }
      var (next, result) := ApplyDelta(books, capacity, m);
      books := next;
      if result != Ok {
        synchronized := false;
        return false;
      }
      sequence := m.sequence;
      ok := true;
    }

    /** Lists the replica in the form of an exchange snapshot; refused while not synchronised. */
    method Snapshot() returns (rows: Option<seq<Message>>)
      ensures rows == if synchronized then Some(ReplicaSnapshot(State())) else None
    {
      if !synchronized {
        return None;
      }
      var keys := SortedKeys(books.Keys);
      var count := CountAll(keys, books);
      var body := ListAll(keys, books, epoch, sequence);
      rows := Some([Mark(SnapshotBegin, epoch, sequence, count)] + body + [Mark(SnapshotEnd, epoch, sequence, count)]);
    }
  }

  method CountAll(keys: seq<InstrumentId>, books: Shelf) returns (count: nat)
    requires forall k | k in keys :: k in books
    ensures count == CountOrders(keys, books)
  {
    count := 0;
    assert keys[0..] == keys;
    for n := 0 to |keys|
      invariant count + CountOrders(keys[n..], books) == CountOrders(keys, books)
    {
      assert keys[n..][0] == keys[n] && keys[n..][1..] == keys[n + 1..];
      assert keys[n] in keys;
      count := count + books[keys[n]].Count();
    }
    assert keys[|keys|..] == [];
  }

  /** One row per order: instruments in increasing order, bids before asks, price-time within a side. */
  method ListAll(keys: seq<InstrumentId>, books: Shelf, epoch: nat, n: nat) returns (rows: seq<Message>)
    requires forall k | k in keys :: k in books
    ensures rows == Rows(keys, books, epoch, n)
  {
    hide QueueRows;
    rows := [];
    assert keys[0..] == keys;
    for k := 0 to |keys|
      invariant rows + Rows(keys[k..], books, epoch, n) == Rows(keys, books, epoch, n)
    {
      assert keys[k..][0] == keys[k] && keys[k..][1..] == keys[k + 1..];
      assert keys[k] in keys;
      var bids := ListQueue(keys[k], Bid, books[keys[k]].bids, epoch, n);
      var asks := ListQueue(keys[k], Ask, books[keys[k]].asks, epoch, n);
      rows := rows + (bids + asks);
    }
    assert keys[|keys|..] == [];
  }

  method ListQueue(i: InstrumentId, side: Side, q: seq<Entry>, epoch: nat, n: nat) returns (rows: seq<Message>)
    ensures rows == QueueRows(i, side, q, epoch, n)
  {
    hide QueueRows, Row;
    ghost var all := QueueRows(i, side, q, epoch, n);
    rows := [];
    for k := 0 to |q|
      invariant rows == all[..k]
    {
      rows := rows + [Row(i, side, q[k], epoch, n)];
    }
  }
}
