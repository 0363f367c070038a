/**
 When a replica may call itself synchronised: only on an unbroken run of its own epoch's
 messages since the last accepted snapshot, with nothing announced that it has not seen;
 and exactly which snapshots are accepted, and into which books.
 */
module ReplicaFreshness {
  import opened Types
  import opened BookModel
  import opened BookLaws
  import opened EngineModel
  import opened DeltaStream
  import opened ReplicaModel
  import opened ReplicaSafety

  // ---- One datagram -------------------------------------------------------

  /** What a delta needs of the book it is applied to. */
  ghost predicate Fits(books: Shelf, capacity: nat, m: Message) {
    var b := BookAt(books, m.instrumentId);
    match m.update
    case TradeUpdate => true
    case AddUpdate =>
      m.price > 0 && m.quantity > 0 && |b.bids| + |b.asks| < capacity
      && (forall s, e | Stands(b, s, e) :: e.id != m.exchangeId)
    case CancelUpdate => exists s, e :: Stands(b, s, e) && e.id == m.exchangeId
    case ExecuteUpdate => exists s, e :: Stands(b, s, e) && e.id == m.exchangeId && 0 < m.quantity <= e.quantity
    case ReduceUpdate => exists s, e :: Stands(b, s, e) && e.id == m.exchangeId && 0 < m.quantity < e.quantity
  }

  ghost predicate AllConsistent(books: Shelf) {
    forall i | i in books :: Consistent(books[i])
  }

  lemma AddFits(b: Book, capacity: nat, m: Message)
    requires Consistent(b)
    ensures Add(b, capacity, m.exchangeId, m.side, m.price, m.quantity).1 == Ok
       <==> m.price > 0 && m.quantity > 0 && |b.bids| + |b.asks| < capacity
            && (forall s, e | Stands(b, s, e) :: e.id != m.exchangeId)
  {
    AddLaw(b, capacity, m.exchangeId, m.side, m.price, m.quantity);
    hide Add;
  }

  /** What is left of an order and whether it is there, told by the orders that stand in the book. */
  lemma LeftOf(b: Book, id: OrderId)
    requires Consistent(b)
    ensures b.Has(id) <==> exists s, e :: Stands(b, s, e) && e.id == id
    ensures forall s, e | Stands(b, s, e) && e.id == id :: RemainingQuantity(b, id) == Some(e.quantity)
    ensures !b.Has(id) ==> RemainingQuantity(b, id) == None
  {
    HeldAnywhere(b, id);
    forall s, e | Stands(b, s, e) && e.id == id ensures RemainingQuantity(b, id) == Some(e.quantity) {
      TheOrder(b, s, e);
    }
  }

  /** The one order under a number, and what the operations on it answer. */
  lemma NamedAnswers(b: Book, m: Message, s: Side, e: Entry)
    requires Consistent(b) && Stands(b, s, e) && e.id == m.exchangeId
    ensures RemainingQuantity(b, m.exchangeId) == Some(e.quantity) && CancelOrder(b, m.exchangeId).1 == Ok
    ensures forall q: nat :: ExecuteOrder(b, m.exchangeId, q).1 == Ok <==> 0 < q <= e.quantity
    ensures forall t, x | Stands(b, t, x) && x.id == m.exchangeId :: x == e
  {
    hide Consistent, ExecuteOrder, CancelOrder, RemainingQuantity, Stands;
    LeftOf(b, m.exchangeId);
    forall q: nat ensures ExecuteOrder(b, m.exchangeId, q).1 == Ok <==> 0 < q <= e.quantity {
      ExecuteAnswer(b, s, e, q);
    }
    var k := CancelLaw(b, s, e);
    forall t, x | Stands(b, t, x) && x.id == m.exchangeId ensures x == e {
      TheOrder(b, t, x);
      TheOrder(b, s, e);
    }
  }

  /** Executions, reductions and cancellations fit exactly the order they name. */
  lemma ChangeFits(b: Book, capacity: nat, m: Message)
    requires Consistent(b) && m.update in {CancelUpdate, ExecuteUpdate, ReduceUpdate}
    ensures ApplyToBook(b, capacity, m).1 == Ok <==>
      exists s, e :: Stands(b, s, e) && e.id == m.exchangeId
        && (m.update == ExecuteUpdate ==> 0 < m.quantity <= e.quantity)
        && (m.update == ReduceUpdate ==> 0 < m.quantity < e.quantity)
  {
    LeftOf(b, m.exchangeId);
    hide Stands, Consistent;
    if b.Has(m.exchangeId) {
      var s, e :| Stands(b, s, e) && e.id == m.exchangeId;
      NamedAnswers(b, m, s, e);
      hide ExecuteOrder, CancelOrder, RemainingQuantity;
    }
  }

  /** A delta applies exactly when it fits. */
  lemma DeltaApplies(books: Shelf, capacity: nat, m: Message)
    requires AllConsistent(books)
    ensures ApplyDelta(books, capacity, m).1 == Ok <==> Fits(books, capacity, m)
  {
    var b := BookAt(books, m.instrumentId);
    assert Consistent(b);
    if m.update == AddUpdate {
      AddFits(b, capacity, m);
    } else if m.update != TradeUpdate {
      ChangeFits(b, capacity, m);
      assert m.instrumentId !in books ==> forall s, e :: !Stands(b, s, e);
    }
    hide Add, ApplyToBook, Consistent;
  }

  /**
   A synchronised replica stays so exactly on a message of its own epoch that is a heartbeat announcing nothing
   it has not seen, a delta it has seen, or the very next delta if it fits; everything else ends it. Its books
   and its sequence change only on that next delta.
   */
  lemma DatagramLaw(r: Replica, capacity: nat, m: Message)
    requires AllConsistent(r.books)
    ensures !r.synchronized ==> Consume(r, capacity, m) == r
    ensures r.synchronized ==> var t := Consume(r, capacity, m);
      && (t.synchronized <==>
            && m.epoch == r.epoch
            && ((m.kind == Heartbeat && m.sequence <= r.sequence)
                || (m.kind == Delta && m.sequence <= r.sequence)
                || (m.kind == Delta && m.sequence == r.sequence + 1 && Fits(r.books, capacity, m))))
      && (t.synchronized ==> t.epoch == r.epoch)
      && (t.synchronized && (m.kind == Heartbeat || m.sequence <= r.sequence) ==> t == r)
      && (t.synchronized && m.kind == Delta && m.sequence == r.sequence + 1 ==> t.sequence == m.sequence)
  {
    DeltaApplies(r.books, capacity, m);
    hide ApplyDelta, Fits, AllConsistent;
  }

  // ---- The whole feed -----------------------------------------------------

  lemma {:induction false} FeedLast(r: Replica, capacity: nat, inputs: seq<Input>, x: Input)
    ensures Feed(r, capacity, inputs + [x]) == ReplicaSafety.Step(Feed(r, capacity, inputs), capacity, x)
    decreases |inputs|
  {
    hide ReplicaSafety.Step;
    if inputs == [] {
      assert inputs + [x] == [x] && [x][1..] == [];
    } else {
      assert (inputs + [x])[1..] == inputs[1..] + [x];
      FeedLast(ReplicaSafety.Step(r, capacity, inputs[0]), capacity, inputs[1..], x);
    }
  }

  /** The replica was restored just before input `j`, or started there. */
  ghost predicate RestoredBefore(r: Replica, capacity: nat, inputs: seq<Input>, j: nat) {
    && j <= |inputs|
    && (j == 0 || (inputs[j - 1].Transfer? && Feed(r, capacity, inputs[..j]).synchronized))
  }

  /** An input that a replica at sequence `k` of an epoch may have taken without losing its place. */
  predicate Harmless(x: Input, epoch: nat, k: nat) {
    && x.Datagram? && x.m.epoch == epoch && (x.m.kind == Delta || x.m.kind == Heartbeat) && x.m.sequence <= k
  }

  lemma StaysHarmless(x: Input, epoch: nat, k: nat, n: nat)
    requires Harmless(x, epoch, k) && k <= n
    ensures Harmless(x, epoch, n)
  {
  }

  /** One datagram that leaves the replica synchronised. */
  lemma KeptBy(r: Replica, capacity: nat, m: Message)
    requires Consume(r, capacity, m).synchronized
    ensures var t := Consume(r, capacity, m);
      r.synchronized && t.epoch == r.epoch && r.sequence <= t.sequence && Harmless(Datagram(m), t.epoch, t.sequence)
  {
    hide ApplyDelta;
  }

  /**
   No stale trading: whatever has been lost, repeated, reordered or mixed in, a replica that calls itself
   synchronised at sequence `k` of an epoch has, since it was last restored, received nothing but deltas and
   heartbeats of that epoch, none of them beyond `k`: no gap has been announced to it, and no other snapshot
   has been refused.
   */
  lemma {:induction false} SynchronizedMeansFresh(r: Replica, capacity: nat, inputs: seq<Input>) returns (j: nat)
    requires Feed(r, capacity, inputs).synchronized
    ensures RestoredBefore(r, capacity, inputs, j)
    ensures var t := Feed(r, capacity, inputs);
      forall i | j <= i < |inputs| :: Harmless(inputs[i], t.epoch, t.sequence)
    decreases |inputs|
  {
    if inputs == [] {
      j := 0;
    } else {
      var n := |inputs| - 1;
      var front, x := inputs[..n], inputs[n];
      assert inputs == front + [x];
      FeedLast(r, capacity, front, x);
      var s, t := Feed(r, capacity, front), Feed(r, capacity, inputs);
      match x
      case Transfer(_) =>
        j := |inputs|;
        assert inputs[..j] == inputs;
      case Datagram(m) =>
        KeptBy(s, capacity, m);
        j := SynchronizedMeansFresh(r, capacity, front);
        hide Consume, Feed, Harmless;
        assert j > 0 ==> front[..j] == inputs[..j];
        forall i | j <= i < |inputs| ensures Harmless(inputs[i], t.epoch, t.sequence) {
          if i < n {
            assert inputs[i] == front[i];
            StaysHarmless(inputs[i], s.epoch, s.sequence, t.sequence);
          }
        }
    }
  }

  /** In particular: a heartbeat that announces more than has been seen ends it until the next snapshot. */
  lemma GapIsNoticed(r: Replica, capacity: nat, inputs: seq<Input>, m: Message)
    requires m.epoch == Feed(r, capacity, inputs).epoch && m.sequence > Feed(r, capacity, inputs).sequence
    requires m.kind == Heartbeat
    ensures !Feed(r, capacity, inputs + [Datagram(m)]).synchronized
  {
    FeedLast(r, capacity, inputs, Datagram(m));
  }

  // ---- Consistency --------------------------------------------------------

  lemma BookChangeConsistent(b: Book, capacity: nat, m: Message)
    requires Consistent(b)
    ensures Consistent(ApplyToBook(b, capacity, m).0)
  {
    hide Consistent, Add, CancelOrder, ExecuteOrder, RemainingQuantity;
    match m.update
    case TradeUpdate =>
    case AddUpdate => AddKeeps(b, capacity, m.exchangeId, m.side, m.price, m.quantity);
    case CancelUpdate => CancelKeeps(b, m.exchangeId);
    case ExecuteUpdate => ExecuteKeeps(b, m.exchangeId, m.quantity);
    case ReduceUpdate =>
      var left := RemainingQuantity(b, m.exchangeId);
      if left.Some? && m.quantity < left.value {
        ExecuteKeeps(b, m.exchangeId, left.value - m.quantity);
      }
  }

  lemma EmptyConsistent()
    ensures Consistent(EMPTY)
  {
  }

  lemma ConsumeConsistent(r: Replica, capacity: nat, m: Message)
    requires AllConsistent(r.books)
    ensures AllConsistent(Consume(r, capacity, m).books)
  {
    EmptyConsistent();
    BookChangeConsistent(BookAt(r.books, m.instrumentId), capacity, m);
    hide Consistent, ApplyToBook;
  }

  // ---- Snapshots ----------------------------------------------------------

  /** How many rows concern an instrument. */
  function CountOf(rows: seq<Message>, i: InstrumentId): nat {
    if rows == [] then 0 else (if rows[0].instrumentId == i then 1 else 0) + CountOf(rows[1..], i)
  }

  /** The orders that the rows list for one level, in the order of the rows. */
  function ListedAt(rows: seq<Message>, i: InstrumentId, side: Side, p: Price): seq<Entry> {
    if rows == [] then []
    else if rows[0].instrumentId == i && rows[0].side == side && rows[0].price == p
    then [Entry(rows[0].exchangeId, p, rows[0].quantity)] + ListedAt(rows[1..], i, side, p)
    else ListedAt(rows[1..], i, side, p)
  }

  predicate GoodRow(m: Message) {
    m.kind == SnapshotOrder && m.instrumentId != 0 && m.exchangeId != 0 && m.price > 0 && m.quantity > 0
  }

  ghost predicate DifferentOrders(rows: seq<Message>) {
    forall i, j | 0 <= i < j < |rows| :: rows[i].exchangeId != rows[j].exchangeId
  }

  /** The identifiers in use cover the books. */
  ghost predicate Covers(ids: set<OrderId>, books: Shelf) {
    forall i: InstrumentId, s, e | Stands(BookAt(books, i), s, e) :: e.id in ids
  }

  ghost predicate Room(books: Shelf, capacity: nat, rows: seq<Message>) {
    forall i: InstrumentId | CountOf(rows, i) > 0 :: BookAt(books, i).Count() + CountOf(rows, i) <= capacity
  }

  /** The rows can be loaded on top of the books. */
  ghost predicate RowsLoad(books: Shelf, capacity: nat, ids: set<OrderId>, rows: seq<Message>) {
    && (forall k | 0 <= k < |rows| :: GoodRow(rows[k]) && rows[k].exchangeId !in ids)
    && DifferentOrders(rows) && Room(books, capacity, rows)
  }

  /** A row loads when it is good, new, and its book has room. */
  lemma RowLoads(books: Shelf, capacity: nat, ids: set<OrderId>, m: Message)
    requires AllConsistent(books) && Covers(ids, books)
    ensures !BadRow(books, capacity, ids, m)
       <==> GoodRow(m) && m.exchangeId !in ids && BookAt(books, m.instrumentId).Count() < capacity
  {
    var b := BookAt(books, m.instrumentId);
    EmptyConsistent();
    AddFits(b, capacity, m);
    hide Add, Consistent;
  }

  /** And then it joins the end of its level. */
  lemma PlacedRow(books: Shelf, capacity: nat, ids: set<OrderId>, m: Message)
    requires AllConsistent(books) && !BadRow(books, capacity, ids, m)
    ensures var next := PlaceRow(books, capacity, m);
      && AllConsistent(next)
      && (forall i: InstrumentId ::
            BookAt(next, i).Count() == BookAt(books, i).Count() + if i == m.instrumentId then 1 else 0)
      && (forall i: InstrumentId, s: Side, p: Price ::
            Fifo(BookAt(next, i), s, p)
              == if i == m.instrumentId && s == m.side && p == m.price
                 then Fifo(BookAt(books, i), s, p) + [Entry(m.exchangeId, p, m.quantity)]
                 else Fifo(BookAt(books, i), s, p))
  {
    var b := BookAt(books, m.instrumentId);
    EmptyConsistent();
    AddLaw(b, capacity, m.exchangeId, m.side, m.price, m.quantity);
    AddKeeps(b, capacity, m.exchangeId, m.side, m.price, m.quantity);
    hide Add, Consistent, Fifo;
  }

  lemma PlacedCovers(books: Shelf, capacity: nat, ids: set<OrderId>, m: Message)
    requires Covers(ids, books)
    ensures Covers(ids + {m.exchangeId}, PlaceRow(books, capacity, m))
  {
    var b, next := BookAt(books, m.instrumentId), PlaceRow(books, capacity, m);
    AddStands(b, capacity, m);
    hide Add, Stands;
    forall i: InstrumentId, s, e | Stands(BookAt(next, i), s, e) ensures e.id in ids + {m.exchangeId} {
      if i == m.instrumentId {
        assert Stands(b, s, e) || e.id == m.exchangeId;
      } else {
        assert BookAt(next, i) == BookAt(books, i);
      }
    }
  }

  lemma AddStands(b: Book, capacity: nat, m: Message)
    ensures forall s, e | Stands(Add(b, capacity, m.exchangeId, m.side, m.price, m.quantity).0, s, e) ::
              Stands(b, s, e) || e.id == m.exchangeId
  {
  }

  lemma NothingToLoad(books: Shelf, capacity: nat, ids: set<OrderId>)
    ensures RowsLoad(books, capacity, ids, [])
    ensures forall q: seq<Entry> :: q + [] == q
  {
  }

  /** Exactly which rows load, and into which levels. */
  lemma {:induction false} LoadExact(books: Shelf, capacity: nat, ids: set<OrderId>, rows: seq<Message>)
    requires AllConsistent(books) && Covers(ids, books)
    ensures Load(books, capacity, ids, rows).Some? <==> RowsLoad(books, capacity, ids, rows)
    ensures Load(books, capacity, ids, rows).Some? ==>
      var r := Load(books, capacity, ids, rows).value;
      && AllConsistent(r)
      && forall i: InstrumentId, s: Side, p: Price ::
           Fifo(BookAt(r, i), s, p) == Fifo(BookAt(books, i), s, p) + ListedAt(rows, i, s, p)
    decreases |rows|
  {
    hide Fifo, Consistent, BadRow, PlaceRow, Covers, AllConsistent;
    if rows == [] {
      NothingToLoad(books, capacity, ids);
    } else {
      hide RowsLoad;
      var m, rest := rows[0], rows[1..];
      FirstRow(books, capacity, ids, m, rest);
      assert rows == [m] + rest;
      if !BadRow(books, capacity, ids, m) {
        PlacedRow(books, capacity, ids, m);
        PlacedCovers(books, capacity, ids, m);
        LoadExact(PlaceRow(books, capacity, m), capacity, ids + {m.exchangeId}, rest);
      }
    }
  }

  /** Loading rows is loading the first and then the others. */
  lemma FirstRow(books: Shelf, capacity: nat, ids: set<OrderId>, m: Message, rest: seq<Message>)
    requires AllConsistent(books) && Covers(ids, books)
    ensures RowsLoad(books, capacity, ids, [m] + rest) ==> !BadRow(books, capacity, ids, m)
    ensures !BadRow(books, capacity, ids, m) ==>
      (RowsLoad(books, capacity, ids, [m] + rest)
       <==> RowsLoad(PlaceRow(books, capacity, m), capacity, ids + {m.exchangeId}, rest))
  {
    RowLoads(books, capacity, ids, m);
    if !BadRow(books, capacity, ids, m) {
      PlacedRow(books, capacity, ids, m);
    }
    var rows := [m] + rest;
    assert rows[1..] == rest;
    assert forall k | 0 <= k < |rest| :: rows[k + 1] == rest[k];
    hide BadRow, PlaceRow, GoodRow, Covers, AllConsistent, Consistent;
    CountsMore(m, rest);
    assert RowsLoad(books, capacity, ids, rows) ==> GoodRow(rows[0]) && rows[0].exchangeId !in ids;
    assert RowsLoad(books, capacity, ids, rows) ==> CountOf(rows, m.instrumentId) > 0;
    if !BadRow(books, capacity, ids, m) {
      var next := PlaceRow(books, capacity, m);
      assert Room(books, capacity, rows) <==> Room(next, capacity, rest);
      if RowsLoad(next, capacity, ids + {m.exchangeId}, rest) {
        forall i, j | 0 <= i < j < |rows| ensures rows[i].exchangeId != rows[j].exchangeId {
          assert rows[j] == rest[j - 1];
          if i > 0 {
            assert rows[i] == rest[i - 1];
          }
        }
        forall k | 0 <= k < |rows| ensures GoodRow(rows[k]) && rows[k].exchangeId !in ids {
          if k > 0 {
            assert rows[k] == rest[k - 1];
          }
        }
      }
      if RowsLoad(books, capacity, ids, rows) {
        forall k | 0 <= k < |rest| ensures GoodRow(rest[k]) && rest[k].exchangeId !in ids + {m.exchangeId} {
          assert rest[k] == rows[k + 1] && rows[0] == m;
        }
        assert DifferentOrders(rest);
      }
    }
  }

  lemma CountsMore(m: Message, rest: seq<Message>)
    ensures forall i :: CountOf([m] + rest, i) == (if m.instrumentId == i then 1 else 0) + CountOf(rest, i)
  {
    assert ([m] + rest)[1..] == rest;
  }

  /** No instrument has more orders than a book can hold. */
  ghost predicate NoneOver(body: seq<Message>, capacity: nat) {
    forall i: InstrumentId :: CountOf(body, i) <= capacity
  }

  /** What makes a snapshot acceptable, told of its rows. */
  ghost predicate Acceptable(capacity: nat, rows: seq<Message>) {
    && |rows| >= 2
    && rows[0].kind == SnapshotBegin && rows[|rows| - 1].kind == SnapshotEnd && rows[0].epoch != 0
    && rows[0].quantity == |rows| - 2 && rows[|rows| - 1].quantity == |rows| - 2
    && (forall k | 0 <= k < |rows| :: rows[k].epoch == rows[0].epoch && rows[k].sequence == rows[0].sequence)
    && var body := rows[1..|rows| - 1];
       && (forall k | 0 <= k < |body| :: GoodRow(body[k]))
       && DifferentOrders(body)
       && NoneOver(body, capacity)
       && RowsUncrossed(body)
  }

  /** Row `k` lists this order on this level. */
  predicate Lists(m: Message, i: InstrumentId, side: Side, e: Entry) {
    && m.instrumentId == i && m.side == side
    && m.price == e.price && m.exchangeId == e.id && m.quantity == e.quantity
  }

  lemma {:induction false} ListedMember(rows: seq<Message>, i: InstrumentId, side: Side, e: Entry)
    ensures e in ListedAt(rows, i, side, e.price) <==> exists k :: 0 <= k < |rows| && Lists(rows[k], i, side, e)
  {
    if rows != [] {
      var rest := rows[1..];
      ListedMember(rest, i, side, e);
      assert forall k | 0 <= k < |rest| :: rest[k] == rows[k + 1];
      if e in ListedAt(rest, i, side, e.price) {
        var k :| 0 <= k < |rest| && Lists(rest[k], i, side, e);
        assert Lists(rows[k + 1], i, side, e);
      }
      if k :| 0 < k < |rows| && Lists(rows[k], i, side, e) {
        assert Lists(rest[k - 1], i, side, e);
      }
    }
  }

  /** The orders of a loaded book are the orders its rows list. */
  lemma StandsListed(body: seq<Message>, b: Book, i: InstrumentId, side: Side, e: Entry)
    requires forall p: Price :: Fifo(b, side, p) == ListedAt(body, i, side, p)
    ensures Stands(b, side, e) <==> exists k :: 0 <= k < |body| && Lists(body[k], i, side, e)
  {
    AtPriceMember(b.Queue(side), e.price, e);
    ListedMember(body, i, side, e);
    assert Fifo(b, side, e.price) == ListedAt(body, i, side, e.price);
    hide ListedAt, AtPrice, Lists;
  }

  /** No bid row at or above an ask row of its instrument. */
  ghost predicate RowsUncrossed(body: seq<Message>) {
    forall j, k | 0 <= j < |body| && 0 <= k < |body| && body[j].instrumentId == body[k].instrumentId
                  && body[j].side == Bid && body[k].side == Ask :: body[j].price < body[k].price
  }

  lemma BooksUncrossed(body: seq<Message>, books: Shelf)
    requires AllConsistent(books)
    requires forall i: InstrumentId, s: Side, p: Price :: Fifo(BookAt(books, i), s, p) == ListedAt(body, i, s, p)
    ensures AllUncrossed(books) <==> RowsUncrossed(body)
  {
    EmptyConsistent();
    forall i: InstrumentId, s: Side, e: Entry
      ensures Stands(BookAt(books, i), s, e) <==> exists k :: 0 <= k < |body| && Lists(body[k], i, s, e)
    {
      StandsListed(body, BookAt(books, i), i, s, e);
    }
    forall i | i in books
      ensures Uncrossed(books[i]) <==> forall x, y | x in books[i].bids && y in books[i].asks :: x.price < y.price
    {
      UncrossedEverywhere(books[i]);
    }
    hide Fifo, ListedAt, Consistent, Uncrossed;
    if AllUncrossed(books) {
      forall j, k | 0 <= j < |body| && 0 <= k < |body| && body[j].instrumentId == body[k].instrumentId
                    && body[j].side == Bid && body[k].side == Ask
        ensures body[j].price < body[k].price
      {
        var i := body[j].instrumentId;
        var x := Entry(body[j].exchangeId, body[j].price, body[j].quantity);
        var y := Entry(body[k].exchangeId, body[k].price, body[k].quantity);
        assert Lists(body[j], i, Bid, x) && Lists(body[k], i, Ask, y);
        assert Stands(BookAt(books, i), Bid, x) && Stands(BookAt(books, i), Ask, y);
      }
    }
    if RowsUncrossed(body) {
      forall i | i in books ensures Uncrossed(books[i]) {
        forall x, y | x in books[i].bids && y in books[i].asks ensures x.price < y.price {
          assert Stands(BookAt(books, i), Bid, x) && Stands(BookAt(books, i), Ask, y);
          var j :| 0 <= j < |body| && Lists(body[j], i, Bid, x);
          var k :| 0 <= k < |body| && Lists(body[k], i, Ask, y);
        }
      }
    }
  }

  /**
   Exactly which snapshots are accepted, and into which books: every level of every book is the list of the
   rows of that instrument, side and price, in their order.
   */
  lemma RestoreExact(r: Replica, capacity: nat, rows: seq<Message>)
    ensures var t := Restore(r, capacity, rows);
      && (t.synchronized <==> Acceptable(capacity, rows))
      && (!t.synchronized ==> t.books == r.books)
      && (t.synchronized ==>
            && t.epoch == rows[0].epoch && t.sequence == rows[0].sequence
            && forall i: InstrumentId, s: Side, p: Price ::
                 Fifo(BookAt(t.books, i), s, p) == ListedAt(rows[1..|rows| - 1], i, s, p))
  {
    if |rows| >= 2 {
      var body := rows[1..|rows| - 1];
      LoadExact(map[], capacity, {}, body);
      RoomForAll(map[], capacity, body);
      NothingListed();
      if Load(map[], capacity, {}, body).Some? {
        var loaded := Load(map[], capacity, {}, body).value;
        hide Load, Fifo, ListedAt, Consistent, Uncrossed, Room, GoodRow, DifferentOrders;
        forall i: InstrumentId, s: Side, p: Price ensures Fifo(BookAt(loaded, i), s, p) == ListedAt(body, i, s, p) {
          assert Fifo(BookAt(map[], i), s, p) == [];
          assert [] + ListedAt(body, i, s, p) == ListedAt(body, i, s, p);
        }
        BooksUncrossed(body, loaded);
      }
    }
  }

  lemma NothingListed()
    ensures forall i: InstrumentId, s: Side, p: Price :: Fifo(BookAt(map[], i), s, p) == []
    ensures AllConsistent(map[]) && Covers({}, map[])
  {
  }

  lemma RoomForAll(books: Shelf, capacity: nat, body: seq<Message>)
    requires books == map[]
    ensures Room(books, capacity, body) <==> NoneOver(body, capacity)
  {
    if Room(books, capacity, body) {
      forall i: InstrumentId ensures CountOf(body, i) <= capacity {
        assert CountOf(body, i) > 0 ==> BookAt(books, i).Count() + CountOf(body, i) <= capacity;
      }
    } else {
      var i: InstrumentId :| CountOf(body, i) > 0 && BookAt(books, i).Count() + CountOf(body, i) > capacity;
      assert BookAt(books, i).Count() == 0;
      assert !(CountOf(body, i) <= capacity);
    }
  }
}
