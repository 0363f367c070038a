/**
 The market-data replica: a copy of the books rebuilt from snapshots and a delta
 stream that may lose, repeat, reorder or mix messages of several epochs. Whenever
 it calls itself synchronised it is exactly what the exchange published.
 */
module ReplicaModel {
  import opened Types
  import opened Sums
  import opened BookModel
  import opened EngineModel
  import opened DeltaStream

  datatype Replica = Replica(books: Shelf, epoch: nat, sequence: nat, synchronized: bool)

  const BLANK_REPLICA := Replica(map[], 0, 0, false)

  // ---- Incremental messages -----------------------------------------------

  /** One message of the feed. The caller is told whether the replica is still synchronised. */
  function Consume(r: Replica, capacity: nat, m: Message): Replica {
    if !r.synchronized then r
    else if m.epoch != r.epoch then r.(synchronized := false)
    else if m.kind == Heartbeat then r.(synchronized := m.sequence <= r.sequence)
    else if m.kind != Delta then r.(synchronized := false)
    else if m.sequence <= r.sequence then r
    else if m.sequence != r.sequence + 1 then r.(synchronized := false)
    else
      var (books, result) := ApplyDelta(r.books, capacity, m);
      if result == Ok then r.(books := books, sequence := m.sequence)
      else r.(books := books, synchronized := false)
  }

  // ---- Snapshots ----------------------------------------------------------

  predicate BadRow(books: Shelf, capacity: nat, ids: set<OrderId>, m: Message) {
    || m.kind != SnapshotOrder || m.instrumentId == 0 || m.exchangeId == 0 || m.exchangeId in ids
    || Add(BookAt(books, m.instrumentId), capacity, m.exchangeId, m.side, m.price, m.quantity).1 != Ok
  }

  function PlaceRow(books: Shelf, capacity: nat, m: Message): Shelf {
    books[m.instrumentId :=
      Add(BookAt(books, m.instrumentId), capacity, m.exchangeId, m.side, m.price, m.quantity).0]
  }

  /** Builds the books of a snapshot row by row, refusing a bad or repeated row. */
  function Load(books: Shelf, capacity: nat, ids: set<OrderId>, rows: seq<Message>): Option<Shelf>
    decreases |rows|
  {
    if rows == [] then Some(books)
    else if BadRow(books, capacity, ids, rows[0]) then None
    else Load(PlaceRow(books, capacity, rows[0]), capacity, ids + {rows[0].exchangeId}, rows[1..])
  }

  predicate Envelope(rows: seq<Message>) {
    && |rows| >= 2
    && rows[0].kind == SnapshotBegin && rows[|rows| - 1].kind == SnapshotEnd && rows[0].epoch != 0
    && |rows| - 2 == rows[0].quantity && rows[|rows| - 1].quantity == rows[0].quantity
  }

  predicate SameMark(rows: seq<Message>)
    requires |rows| >= 2
  {
    forall k | 0 <= k < |rows| :: rows[k].epoch == rows[0].epoch && rows[k].sequence == rows[0].sequence
  }

  ghost predicate AllUncrossed(books: Shelf) {
    forall i | i in books :: Uncrossed(books[i])
  }

  /** The books a snapshot describes, if it is acceptable. */
  ghost function Accepted(capacity: nat, rows: seq<Message>): Option<Shelf> {
    if !Envelope(rows) || !SameMark(rows) then None else
    var loaded := Load(map[], capacity, {}, rows[1..|rows| - 1]);
    if loaded.Some? && AllUncrossed(loaded.value) then loaded else None
  }

  /** A refused snapshot leaves the old books in place but not synchronised. */
  ghost function Restore(r: Replica, capacity: nat, rows: seq<Message>): Replica {
    var books := Accepted(capacity, rows);
    if books.None? then r.(synchronized := false)
    else Replica(books.value, rows[0].epoch, rows[0].sequence, true)
  }

  // ---- Producing a snapshot -----------------------------------------------

  function Row(i: InstrumentId, side: Side, e: Entry, epoch: nat, n: nat): Message {
    BLANK.(kind := SnapshotOrder, epoch := epoch, sequence := n, instrumentId := i, exchangeId := e.id,
           side := side, price := e.price, quantity := e.quantity)
  }

  function QueueRows(i: InstrumentId, side: Side, q: seq<Entry>, epoch: nat, n: nat): (rows: seq<Message>)
    ensures |rows| == |q|
    ensures forall k | 0 <= k < |q| :: rows[k] == Row(i, side, q[k], epoch, n)
  {
    if q == [] then [] else [Row(i, side, q[0], epoch, n)] + QueueRows(i, side, q[1..], epoch, n)
  }

  function BookRows(i: InstrumentId, b: Book, epoch: nat, n: nat): seq<Message> {
    QueueRows(i, Bid, b.bids, epoch, n) + QueueRows(i, Ask, b.asks, epoch, n)
  }

  /** All orders, instrument by instrument, bids before asks, each side in price-time order. */
  function Rows(keys: seq<InstrumentId>, books: Shelf, epoch: nat, n: nat): seq<Message> {
    if keys == [] then [] else BookRows(keys[0], BookAt(books, keys[0]), epoch, n) + Rows(keys[1..], books, epoch, n)
  }

  function Mark(kind: Kind, epoch: nat, n: nat, count: nat): Message {
    BLANK.(kind := kind, epoch := epoch, sequence := n, quantity := count)
  }

  function Wrapped(rows: seq<Message>, epoch: nat, n: nat, count: nat): seq<Message> {
    [Mark(SnapshotBegin, epoch, n, count)] + rows + [Mark(SnapshotEnd, epoch, n, count)]
  }

  /** The engine's snapshot between two commands. */
  function EngineSnapshot(s: Engine): seq<Message> {
    Wrapped(Rows(SortedKeys(s.books.Keys), s.books, s.epoch, s.sequence), s.epoch, s.sequence, |s.resting|)
  }

  function CountOrders(keys: seq<InstrumentId>, books: Shelf): nat {
    if keys == [] then 0 else BookAt(books, keys[0]).Count() + CountOrders(keys[1..], books)
  }

  /** The replica's own snapshot. */
  function ReplicaSnapshot(r: Replica): seq<Message> {
    var keys := SortedKeys(r.books.Keys);
    Wrapped(Rows(keys, r.books, r.epoch, r.sequence), r.epoch, r.sequence, CountOrders(keys, r.books))
  }

  lemma {:induction false} RowsCount(keys: seq<InstrumentId>, books: Shelf, epoch: nat, n: nat)
    ensures |Rows(keys, books, epoch, n)| == CountOrders(keys, books)
    decreases |keys|
  {
    if keys != [] {
      RowsCount(keys[1..], books, epoch, n);
    }
  }

  // ---- Empty books do not show --------------------------------------------

  function Busy(keys: seq<InstrumentId>, books: Shelf): (r: seq<InstrumentId>)
    ensures forall k :: k in r <==> k in keys && !BookAt(books, k).IsEmpty()
  {
    if keys == [] then []
    else (if BookAt(books, keys[0]).IsEmpty() then [] else [keys[0]]) + Busy(keys[1..], books)
  }

  lemma IncreasingFront(k: InstrumentId, t: seq<InstrumentId>)
    requires Increasing(t) && forall j | 0 <= j < |t| :: k < t[j]
    ensures Increasing([k] + t) && [] + t == t
  {
  }

  lemma {:induction false} BusyIncreasing(keys: seq<InstrumentId>, books: Shelf)
    requires Increasing(keys)
    ensures Increasing(Busy(keys, books))
    decreases |keys|
  {
    if keys != [] {
      var rest := keys[1..];
      assert forall i | 0 <= i < |rest| :: rest[i] == keys[i + 1];
      BusyIncreasing(rest, books);
      var t := Busy(rest, books);
      forall j | 0 <= j < |t| ensures keys[0] < t[j] {
        assert t[j] in rest;
      }
      IncreasingFront(keys[0], t);
    }
  }

  lemma {:induction false} BusyRows(keys: seq<InstrumentId>, books: Shelf, epoch: nat, n: nat)
    ensures Rows(keys, books, epoch, n) == Rows(Busy(keys, books), books, epoch, n)
    decreases |keys|
  {
    if keys != [] {
      BusyRows(keys[1..], books, epoch, n);
      var t := Busy(keys[1..], books);
      if BookAt(books, keys[0]).IsEmpty() {
        assert Busy(keys, books) == t;
        assert BookRows(keys[0], BookAt(books, keys[0]), epoch, n) == [];
      } else {
        assert ([keys[0]] + t)[1..] == t;
      }
    }
  }

  lemma {:induction false} RowsAlike(keys: seq<InstrumentId>, a: Shelf, b: Shelf, epoch: nat, n: nat)
    requires Alike(a, b)
    ensures Rows(keys, a, epoch, n) == Rows(keys, b, epoch, n)
    decreases |keys|
  {
    if keys != [] {
      assert BookAt(a, keys[0]) == BookAt(b, keys[0]);
      RowsAlike(keys[1..], a, b, epoch, n);
    }
  }

  /** Books that hold the same orders list the same rows. */
  lemma SameRows(a: Shelf, b: Shelf, epoch: nat, n: nat)
    requires Alike(a, b)
    ensures Rows(SortedKeys(a.Keys), a, epoch, n) == Rows(SortedKeys(b.Keys), b, epoch, n)
  {
    hide SortedKeys, Rows;
    var ka, kb := SortedKeys(a.Keys), SortedKeys(b.Keys);
    BusyIncreasing(ka, a);
    BusyIncreasing(kb, b);
    forall k ensures k in Busy(ka, a) <==> k in Busy(kb, b) {
      assert BookAt(a, k) == BookAt(b, k);
    }
    SortedUnique(Busy(ka, a), Busy(kb, b));
    BusyRows(ka, a, epoch, n);
    BusyRows(kb, b, epoch, n);
    RowsAlike(Busy(ka, a), a, b, epoch, n);
  }

  // ---- Loading what was listed --------------------------------------------

  /** An order behind everything already in the queue is appended. */
  lemma {:induction false} InsertLast(side: Side, s: seq<Entry>, e: Entry)
    requires forall x | x in s :: NoWorse(side, x.price, e.price)
    ensures Insert(side, s, e) == s + [e]
    decreases |s|
  {
    if s != [] {
      InsertLast(side, s[1..], e);
    }
  }

  lemma {:induction false} OrderedPrefix(side: Side, q: seq<Entry>, k: nat)
    requires Ordered(side, q) && k < |q|
    ensures forall x | x in q[..k] :: NoWorse(side, x.price, q[k].price)
    decreases |q|
  {
    if k > 0 {
      assert q[k] in q[1..];
      OrderedPrefix(side, q[1..], k - 1);
      forall x | x in q[..k] ensures NoWorse(side, x.price, q[k].price) {
        assert x == q[0] || x in q[1..][..k - 1];
      }
    }
  }

  lemma {:induction false} DistinctPrefix(q: seq<Entry>, k: nat)
    requires Distinct(q) && k < |q|
    ensures !HasId(q[..k], q[k].id)
    decreases |q|
  {
    if k > 0 {
      assert q[k] in q[1..];
      DistinctPrefix(q[1..], k - 1);
      assert q[..k][1..] == q[1..][..k - 1];
    }
  }

  ghost function RowIds(rows: seq<Message>): set<OrderId> {
    set m | m in rows :: m.exchangeId
  }

  lemma {:induction false} LoadAppend(books: Shelf, capacity: nat, ids: set<OrderId>, a: seq<Message>, b: seq<Message>)
    ensures Load(books, capacity, ids, a + b) ==
            match Load(books, capacity, ids, a)
            case None => None
            case Some(mid) => Load(mid, capacity, ids + RowIds(a), b)
    decreases |a|
  {
    hide BadRow, PlaceRow;
    if a == [] {
      assert a + b == b;
      assert ids + RowIds(a) == ids;
    } else {
      assert (a + b)[1..] == a[1..] + b;
      assert ids + {a[0].exchangeId} + RowIds(a[1..]) == ids + RowIds(a);
      LoadAppend(PlaceRow(books, capacity, a[0]), capacity, ids + {a[0].exchangeId}, a[1..], b);
    }
  }

  lemma LoadOne(books: Shelf, capacity: nat, ids: set<OrderId>, m: Message)
    requires !BadRow(books, capacity, ids, m)
    ensures Load(books, capacity, ids, [m]) == Some(PlaceRow(books, capacity, m))
  {
    hide BadRow, PlaceRow;
    assert [m][1..] == [];
  }

  /** The books after one side of one instrument has been listed. */
  function WithQueue(books: Shelf, i: InstrumentId, side: Side, q: seq<Entry>): Shelf {
    if q == [] then books else books[i := BookAt(books, i).With(side, q)]
  }

  /** What makes one side's rows loadable on top of `books`. */
  ghost predicate Loadable(books: Shelf, capacity: nat, ids: set<OrderId>, i: InstrumentId, side: Side, q: seq<Entry>) {
    && i != 0 && BookAt(books, i).Queue(side) == []
    && Ordered(side, q) && Distinct(q) && Positive(q)
    && BookAt(books, i).Count() + |q| <= capacity
    && 0 !in EntryIds(q) && EntryIds(q) !! ids
    && EntryIds(q) !! EntryIds(BookAt(books, i).Queue(side.Opposite()))
  }

  lemma PlaceNext(books: Shelf, capacity: nat, ids: set<OrderId>, i: InstrumentId, side: Side, q: seq<Entry>, k: nat,
                  epoch: nat, n: nat)
    requires Loadable(books, capacity, ids, i, side, q) && k < |q|
    ensures var mid := WithQueue(books, i, side, q[..k]);
            var row := Row(i, side, q[k], epoch, n);
            && !BadRow(mid, capacity, ids + EntryIds(q[..k]), row)
            && PlaceRow(mid, capacity, row) == WithQueue(books, i, side, q[..k + 1])
  {
    hide Add, WithQueue, HasId, Ordered, Distinct;
    var b0 := BookAt(books, i);
    PrefixBook(books, i, side, q[..k]);
    var b := b0.With(side, q[..k]);
    assert q[k] in q && q[k].id in EntryIds(q);
    DistinctPrefix(q, k);
    OrderedPrefix(side, q, k);
    assert q[..k] + [q[k]] == q[..k + 1];
    NotAmong(b0.Queue(side.Opposite()), q[k].id);
    NotAmong(q[..k], q[k].id);
    AddLast(b, capacity, side, q[k]);
    Overwrite(books, i, side, q[..k], q[..k + 1]);
  }

  lemma PrefixBook(books: Shelf, i: InstrumentId, side: Side, p: seq<Entry>)
    requires BookAt(books, i).Queue(side) == []
    ensures BookAt(WithQueue(books, i, side, p), i) == BookAt(books, i).With(side, p)
  {
  }

  lemma Overwrite(books: Shelf, i: InstrumentId, side: Side, p: seq<Entry>, q: seq<Entry>)
    requires q != []
    ensures WithQueue(books, i, side, p)[i := BookAt(books, i).With(side, p).With(side, q)]
         == WithQueue(books, i, side, q)
  {
  }

  lemma NotAmong(q: seq<Entry>, id: OrderId)
    ensures HasId(q, id) <==> id in EntryIds(q)
  {
  }

  /** Adding an order that is worse than all of its side appends it. */
  lemma AddLast(b: Book, capacity: nat, side: Side, e: Entry)
    requires forall x | x in b.Queue(side) :: NoWorse(side, x.price, e.price)
    requires !HasId(b.Queue(side), e.id) && !HasId(b.Queue(side.Opposite()), e.id)
    requires e.quantity > 0 && e.price > 0 && b.Count() < capacity
    ensures Add(b, capacity, e.id, side, e.price, e.quantity) == (b.With(side, b.Queue(side) + [e]), Ok)
  {
    InsertLast(side, b.Queue(side), e);
  }

  lemma {:induction false} LoadPrefix(books: Shelf, capacity: nat, ids: set<OrderId>, i: InstrumentId, side: Side,
                                      q: seq<Entry>, k: nat, epoch: nat, n: nat)
    requires Loadable(books, capacity, ids, i, side, q) && k <= |q|
    ensures Load(books, capacity, ids, QueueRows(i, side, q[..k], epoch, n)) == Some(WithQueue(books, i, side, q[..k]))
    ensures RowIds(QueueRows(i, side, q[..k], epoch, n)) == EntryIds(q[..k])
    decreases k
  {
    hide Loadable, BadRow, PlaceRow, WithQueue;
    QueueRowIds(i, side, q[..k], epoch, n);
    if k == 0 {
      NoQueue(books, i, side);
    } else {
      LoadPrefix(books, capacity, ids, i, side, q, k - 1, epoch, n);
      RowsMore(i, side, q, k - 1, epoch, n);
      PlaceNext(books, capacity, ids, i, side, q, k - 1, epoch, n);
      hide QueueRows, Row, Load, RowIds, EntryIds;
      var row := Row(i, side, q[k - 1], epoch, n);
      LoadAppend(books, capacity, ids, QueueRows(i, side, q[..k - 1], epoch, n), [row]);
      LoadOne(WithQueue(books, i, side, q[..k - 1]), capacity, ids + EntryIds(q[..k - 1]), row);
    }
  }

  lemma RowsMore(i: InstrumentId, side: Side, q: seq<Entry>, k: nat, epoch: nat, n: nat)
    requires k < |q|
    ensures QueueRows(i, side, q[..k + 1], epoch, n) == QueueRows(i, side, q[..k], epoch, n) + [Row(i, side, q[k], epoch, n)]
  {
    hide Row;
  }

  lemma NoQueue(books: Shelf, i: InstrumentId, side: Side)
    ensures WithQueue(books, i, side, []) == books
  {
  }

  lemma QueueRowIds(i: InstrumentId, side: Side, q: seq<Entry>, epoch: nat, n: nat)
    ensures RowIds(QueueRows(i, side, q, epoch, n)) == EntryIds(q)
  {
    var rows := QueueRows(i, side, q, epoch, n);
    forall x | x in RowIds(rows) ensures x in EntryIds(q) {
      var m :| m in rows && m.exchangeId == x;
      var k :| 0 <= k < |rows| && rows[k] == m;
      assert q[k] in q;
    }
    forall x | x in EntryIds(q) ensures x in RowIds(rows) {
      var e :| e in q && e.id == x;
      var k :| 0 <= k < |q| && q[k] == e;
      assert rows[k] in rows;
    }
  }

  ghost function BookIds(b: Book): set<OrderId> {
    EntryIds(b.bids) + EntryIds(b.asks)
  }

  /** Loading the rows of one book onto an instrument not seen yet rebuilds that book. */
  lemma LoadBook(books: Shelf, capacity: nat, ids: set<OrderId>, i: InstrumentId, b: Book, epoch: nat, n: nat)
    requires i != 0 && BookAt(books, i) == EMPTY && Consistent(b) && b.Count() <= capacity
    requires 0 !in BookIds(b) && BookIds(b) !! ids
    ensures Load(books, capacity, ids, BookRows(i, b, epoch, n)).Some?
    ensures var r := Load(books, capacity, ids, BookRows(i, b, epoch, n)).value;
            forall j: InstrumentId :: BookAt(r, j) == if j == i then b else BookAt(books, j)
    ensures RowIds(BookRows(i, b, epoch, n)) == BookIds(b)
  {
    SidesApart(b);
    hide Consistent;
    var mid := WithQueue(books, i, Bid, b.bids);
    assert Loadable(books, capacity, ids, i, Bid, b.bids);
    assert b.bids[..|b.bids|] == b.bids && b.asks[..|b.asks|] == b.asks;
    LoadPrefix(books, capacity, ids, i, Bid, b.bids, |b.bids|, epoch, n);
    assert BookAt(mid, i) == Book(b.bids, []);
    var ids' := ids + EntryIds(b.bids);
    assert Loadable(mid, capacity, ids', i, Ask, b.asks);
    LoadPrefix(mid, capacity, ids', i, Ask, b.asks, |b.asks|, epoch, n);
    var x, y := QueueRows(i, Bid, b.bids, epoch, n), QueueRows(i, Ask, b.asks, epoch, n);
    LoadAppend(books, capacity, ids, x, y);
    RowIdsAppend(x, y);
    var r := WithQueue(mid, i, Ask, b.asks);
    assert BookAt(r, i) == b;
  }

  lemma SidesApart(b: Book)
    requires Consistent(b)
    ensures EntryIds(b.bids) !! EntryIds(b.asks)
    ensures Ordered(Bid, b.bids) && Distinct(b.bids) && Positive(b.bids)
    ensures Ordered(Ask, b.asks) && Distinct(b.asks) && Positive(b.asks)
  {
    forall x | x in EntryIds(b.bids) ensures x !in EntryIds(b.asks) {
      assert HasId(b.bids, x);
      assert !HasId(b.asks, x);
    }
  }

  lemma RowIdsAppend(a: seq<Message>, b: seq<Message>)
    ensures RowIds(a + b) == RowIds(a) + RowIds(b)
  {
  }

  /** Books fit for a snapshot: consistent, within the pool, and no identifier used twice anywhere. */
  ghost predicate Listable(books: Shelf, capacity: nat) {
    && (forall i | i in books ::
          i != 0 && Consistent(books[i]) && books[i].Count() <= capacity && 0 !in BookIds(books[i]))
    && (forall i, j | i in books && j in books && i != j :: BookIds(books[i]) !! BookIds(books[j]))
  }

  lemma {:induction false} LoadShelf(acc: Shelf, capacity: nat, ids: set<OrderId>, keys: seq<InstrumentId>,
                                     books: Shelf, epoch: nat, n: nat)
    requires Listable(books, capacity) && Increasing(keys)
    requires forall k | k in keys :: k in books && BookAt(acc, k) == EMPTY && BookIds(books[k]) !! ids
    ensures Load(acc, capacity, ids, Rows(keys, books, epoch, n)).Some?
    ensures var r := Load(acc, capacity, ids, Rows(keys, books, epoch, n)).value;
            forall j: InstrumentId :: BookAt(r, j) == if j in keys then BookAt(books, j) else BookAt(acc, j)
    decreases |keys|
  {
    hide Load, Consistent, BookRows;
    if keys == [] {
      LoadNothing(acc, capacity, ids);
    } else {
      var i := keys[0];
      assert i in keys;
      LoadBook(acc, capacity, ids, i, books[i], epoch, n);
      var rows := BookRows(i, books[i], epoch, n);
      var mid := Load(acc, capacity, ids, rows).value;
      LoadAppend(acc, capacity, ids, rows, Rows(keys[1..], books, epoch, n));
      forall k | k in keys[1..]
        ensures k in books && BookAt(mid, k) == EMPTY && BookIds(books[k]) !! ids + BookIds(books[i])
      {
        assert k in keys && k != i;
      }
      LoadShelf(mid, capacity, ids + BookIds(books[i]), keys[1..], books, epoch, n);
    }
  }

  lemma LoadNothing(acc: Shelf, capacity: nat, ids: set<OrderId>)
    ensures Load(acc, capacity, ids, []) == Some(acc)
  {
  }

  /** A snapshot of listable, uncrossed books is accepted and restores books alike. */
  lemma RestoreRebuilds(r: Replica, capacity: nat, books: Shelf, epoch: nat, n: nat)
    requires Listable(books, capacity) && epoch != 0
    requires forall i | i in books :: Uncrossed(books[i])
    ensures var keys := SortedKeys(books.Keys);
            var rows := Wrapped(Rows(keys, books, epoch, n), epoch, n, CountOrders(keys, books));
            var r' := Restore(r, capacity, rows);
            && r'.synchronized && r'.epoch == epoch && r'.sequence == n
            && Alike(r'.books, books)
  {
    hide SortedKeys, Load, Rows, Consistent, CountOrders;
    var keys := SortedKeys(books.Keys);
    var body := Rows(keys, books, epoch, n);
    var rows := Wrapped(body, epoch, n, CountOrders(keys, books));
    RowsCount(keys, books, epoch, n);
    RowsMarked(keys, books, epoch, n);
    assert rows[1..|rows| - 1] == body;
    LoadShelf(map[], capacity, {}, keys, books, epoch, n);
    var loaded := Load(map[], capacity, {}, body).value;
    forall i | i in loaded ensures Uncrossed(loaded[i]) {
      assert BookAt(loaded, i) == loaded[i];
      assert i in keys ==> i in books;
    }
    forall i: InstrumentId ensures BookAt(loaded, i) == BookAt(books, i) {
      assert i in keys <==> i in books;
    }
    assert SameMark(rows) by {
      forall k | 0 <= k < |rows| ensures rows[k].epoch == epoch && rows[k].sequence == n {
        if 0 < k < |rows| - 1 {
          assert rows[k] == body[k - 1];
        }
      }
    }
  }

  lemma {:induction false} RowsMarked(keys: seq<InstrumentId>, books: Shelf, epoch: nat, n: nat)
    ensures forall k | 0 <= k < |Rows(keys, books, epoch, n)| ::
              var m := Rows(keys, books, epoch, n)[k];
              m.epoch == epoch && m.sequence == n && m.kind == SnapshotOrder
    decreases |keys|
  {
    if keys != [] {
      RowsMarked(keys[1..], books, epoch, n);
    }
  }
}
