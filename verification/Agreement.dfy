/** What adding, cancelling and executing one order keep of the engine's linked maps. */
module AgreementLemmas {
  import opened Types
  import opened BookModel
  import opened Positions
  import opened EngineModel

  /** In a consistent book an entry is found on its own side. */
  lemma Locate(b: Book, side: Side, e: Entry)
    requires Consistent(b) && e in b.Queue(side)
    ensures b.Has(e.id) && SideOf(b, e.id) == side && Get(b.Queue(side), e.id) == e
  {
    GetUnique(b.Queue(side), e);
  }

  lemma LocateResting(books: map<InstrumentId, Book>, resting: map<OrderId, Message>, id: OrderId)
    requires Agreement(books, resting) && id in resting
    requires forall i | i in books :: Consistent(books[i])
    ensures var m := resting[id];
            && m.instrumentId in books
            && var b := books[m.instrumentId];
            && b.Has(id) && SideOf(b, id) == m.side
            && Get(b.Queue(m.side), id) == Entry(id, m.price, m.quantity)
            && m.quantity > 0 && m.price > 0
  {
    var m := resting[id];
    assert Booked(books, id, m);
    Locate(books[m.instrumentId], m.side, Entry(id, m.price, m.quantity));
  }

  /** Executing at the front either shortens or removes the first entry. */
  lemma TakeFront(s: seq<Entry>, size: Quantity)
    requires s != [] && Distinct(s) && 0 < size <= s[0].quantity
    ensures Take(s, s[0].id, size) ==
            if size == s[0].quantity then s[1..]
            else [s[0].(quantity := s[0].quantity - size)] + s[1..]
  {
    var id := s[0].id;
    assert !HasId(s[1..], id);
    if size != s[0].quantity {
      var r := Resize(s[1..], id, s[0].quantity - size);
      forall k | 0 <= k < |s[1..]| ensures r[k] == s[1..][k] {
        assert s[1..][k] in s[1..];
      }
      assert r == s[1..];
    }
  }

  // ---- Executing ----------------------------------------------------------

  ghost function AfterExecute(resting: map<OrderId, Message>, id: OrderId, size: Quantity): map<OrderId, Message>
    requires id in resting && size <= resting[id].quantity
  {
    if size == resting[id].quantity then resting - {id}
    else resting[id := resting[id].(quantity := resting[id].quantity - size)]
  }

  lemma ExecuteMembers(s: seq<Entry>, id: OrderId, size: Quantity, x: Entry)
    requires Distinct(s) && HasId(s, id) && 0 < size <= Get(s, id).quantity
    ensures x.id != id ==> (x in Take(s, id, size) <==> x in s)
    ensures x.id == id ==>
              (x in Take(s, id, size) <==>
               size < Get(s, id).quantity && x == Get(s, id).(quantity := Get(s, id).quantity - size))
  {
    var e := Get(s, id);
    var left := e.quantity - size;
    if left != 0 {
      var r := Resize(s, id, left);
      if x in r && x.id == id {
        var k :| 0 <= k < |r| && r[k] == x;
        GetUnique(s, s[k]);
      }
      var j :| 0 <= j < |s| && s[j] == e;
      assert r[j] == e.(quantity := left);
    }
  }

  /** The effect of an execution on the book that holds the order. */
  lemma ExecuteBook(b: Book, side: Side, e: Entry, size: Quantity)
    requires Consistent(b) && e in b.Queue(side) && 0 < size <= e.quantity
    ensures ExecuteOrder(b, e.id, size).1 == Ok
    ensures var b' := ExecuteOrder(b, e.id, size).0;
            && b'.Queue(side.Opposite()) == b.Queue(side.Opposite())
            && (forall x | x in b'.Queue(side) ::
                  if x.id == e.id then size < e.quantity && x == e.(quantity := e.quantity - size)
                  else x in b.Queue(side))
            && (forall x | x in b.Queue(side) && x.id != e.id :: x in b'.Queue(side))
            && (size < e.quantity ==> e.(quantity := e.quantity - size) in b'.Queue(side))
  {
    Locate(b, side, e);
    var q := b.Queue(side);
    forall x: Entry
      ensures x.id != e.id ==> (x in Take(q, e.id, size) <==> x in q)
      ensures x.id == e.id ==>
                (x in Take(q, e.id, size) <==> size < e.quantity && x == e.(quantity := e.quantity - size))
    {
      ExecuteMembers(q, e.id, size, x);
    }
  }

  lemma ExecuteAgreement(books: map<InstrumentId, Book>, resting: map<OrderId, Message>, id: OrderId, size: Quantity)
    requires Agreement(books, resting) && id in resting
    requires forall i | i in books :: Consistent(books[i])
    requires 0 < size <= resting[id].quantity
    ensures resting[id].instrumentId in books
    ensures ExecuteOrder(books[resting[id].instrumentId], id, size).1 == Ok
    ensures var i := resting[id].instrumentId;
            Agreement(books[i := ExecuteOrder(books[i], id, size).0], AfterExecute(resting, id, size))
  {
    hide ExecuteOrder, Consistent;
    var m := resting[id];
    var i := m.instrumentId;
    var e := Entry(id, m.price, m.quantity);
    assert Booked(books, id, m);
    ExecuteBook(books[i], m.side, e, size);
    var b' := ExecuteOrder(books[i], id, size).0;
    var books' := books[i := b'];
    var resting' := AfterExecute(resting, id, size);
    forall j, side, x | j in books' && x in books'[j].Queue(side)
      ensures x.id in resting' && Describes(resting'[x.id], j, side, x)
    {
      assert (j == i && side == m.side && x.id == id) || x in books[j].Queue(side);
    }
    forall k | k in resting' ensures Booked(books', k, resting'[k]) {
      assert Booked(books, k, resting[k]);
    }
  }

  // ---- Cancelling ---------------------------------------------------------

  lemma CancelAgreement(books: map<InstrumentId, Book>, resting: map<OrderId, Message>, id: OrderId)
    requires Agreement(books, resting) && id in resting
    requires forall i | i in books :: Consistent(books[i])
    ensures resting[id].instrumentId in books
    ensures CancelOrder(books[resting[id].instrumentId], id).1 == Ok
    ensures var i := resting[id].instrumentId;
            Agreement(books[i := CancelOrder(books[i], id).0], resting - {id})
  {
    hide CancelOrder, Consistent;
    var m := resting[id];
    var i := m.instrumentId;
    assert Booked(books, id, m);
    CancelBook(books[i], m.side, Entry(id, m.price, m.quantity));
    var books' := books[i := CancelOrder(books[i], id).0];
    forall j, side, e | j in books' && e in books'[j].Queue(side)
      ensures e.id in resting - {id} && Describes(resting[e.id], j, side, e)
    {
      assert e in books[j].Queue(side);
    }
    forall k | k in resting - {id} ensures Booked(books', k, resting[k]) {
      assert Booked(books, k, resting[k]);
    }
  }

  lemma CancelBook(b: Book, side: Side, e: Entry)
    requires Consistent(b) && e in b.Queue(side)
    ensures CancelOrder(b, e.id).1 == Ok
    ensures var b' := CancelOrder(b, e.id).0;
            && b'.Queue(side.Opposite()) == b.Queue(side.Opposite())
            && (forall x :: x in b'.Queue(side) <==> x in b.Queue(side) && x.id != e.id)
  {
    Locate(b, side, e);
  }

  // ---- Adding -------------------------------------------------------------

  lemma UnknownToBooks(books: map<InstrumentId, Book>, resting: map<OrderId, Message>, i: InstrumentId, id: OrderId)
    requires Agreement(books, resting) && id !in resting && i in books
    ensures !books[i].Has(id)
  {
    forall e, side | e in books[i].Queue(side) ensures e.id != id {
    }
    assert books[i].Queue(Bid) == books[i].bids && books[i].Queue(Ask) == books[i].asks;
  }

  lemma AddAgreement(books: map<InstrumentId, Book>, resting: map<OrderId, Message>, capacity: nat, id: OrderId, m: Message)
    requires Agreement(books, resting) && id !in resting
    requires m.instrumentId in books && m.quantity > 0 && m.price > 0
    requires books[m.instrumentId].Count() < capacity
    ensures Add(books[m.instrumentId], capacity, id, m.side, m.price, m.quantity).1 == Ok
    ensures Agreement(books[m.instrumentId := Add(books[m.instrumentId], capacity, id, m.side, m.price, m.quantity).0],
                      resting[id := m])
  {
    var i := m.instrumentId;
    UnknownToBooks(books, resting, i, id);
    var books' := books[i := Add(books[i], capacity, id, m.side, m.price, m.quantity).0];
    var resting' := resting[id := m];
    forall j, side, e | j in books' && e in books'[j].Queue(side)
      ensures e.id in resting' && Describes(resting'[e.id], j, side, e)
    {
      if e in books[j].Queue(side) {
        UnknownToBooks(books, resting, j, id);
        assert e.id != id;
      }
    }
    forall k | k in resting' ensures Booked(books', k, resting'[k]) {
      assert k != id ==> Booked(books, k, resting[k]);
    }
  }

  // ---- The client index ---------------------------------------------------

  lemma IndexedRemove(resting: map<OrderId, Message>, byClient: map<Key, OrderId>, id: OrderId)
    requires Indexed(resting, byClient) && id in resting
    ensures Indexed(resting - {id}, byClient - {OwnerKey(resting[id])})
  {
    assert byClient[OwnerKey(resting[id])] == id;
    forall k | k in resting - {id}
      ensures OwnerKey(resting[k]) in byClient - {OwnerKey(resting[id])}
      ensures byClient[OwnerKey(resting[k])] == k
    {
      assert byClient[OwnerKey(resting[k])] == k;
    }
  }

  lemma IndexedResize(resting: map<OrderId, Message>, byClient: map<Key, OrderId>, id: OrderId, m: Message)
    requires Indexed(resting, byClient) && id in resting && OwnerKey(m) == OwnerKey(resting[id])
    ensures Indexed(resting[id := m], byClient)
  {
  }

  lemma IndexedInsert(resting: map<OrderId, Message>, byClient: map<Key, OrderId>, id: OrderId, m: Message)
    requires Indexed(resting, byClient) && id !in resting && OwnerKey(m) !in byClient
    ensures Indexed(resting[id := m], byClient[OwnerKey(m) := id])
  {
  }

  // ---- Uncrossed ----------------------------------------------------------

  /** Taking orders away cannot cross a book. */
  lemma ShrinkUncrossed(b: Book, b': Book)
    requires Consistent(b) && Uncrossed(b) && Consistent(b')
    requires forall x | x in b'.bids :: exists y :: y in b.bids && y.price == x.price
    requires forall x | x in b'.asks :: exists y :: y in b.asks && y.price == x.price
    ensures Uncrossed(b')
  {
    UncrossedEverywhere(b);
    if b'.bids != [] && b'.asks != [] {
      assert b'.bids[0] in b'.bids && b'.asks[0] in b'.asks;
      var x :| x in b.bids && x.price == b'.bids[0].price;
      var y :| y in b.asks && y.price == b'.asks[0].price;
      assert x.price < y.price;
    }
  }

  lemma ExecuteUncrossed(b: Book, id: OrderId, size: Quantity)
    requires Consistent(b) && Uncrossed(b)
    ensures Uncrossed(ExecuteOrder(b, id, size).0)
  {
    var r := ExecuteOrder(b, id, size);
    if r.1 == Ok {
      ExecuteKeeps(b, id, size);
      var side := SideOf(b, id);
      var s := b.Queue(side);
      forall x | x in r.0.Queue(side) ensures exists y :: y in s && y.price == x.price {
        ExecuteMembers(s, id, size, x);
        assert x.id != id ==> x in s;
        assert x.id == id ==> Get(s, id) in s;
      }
      ShrinkUncrossed(b, r.0);
    }
  }

  lemma CancelUncrossed(b: Book, id: OrderId)
    requires Consistent(b) && Uncrossed(b)
    ensures Uncrossed(CancelOrder(b, id).0)
  {
    CancelKeeps(b, id);
    ShrinkUncrossed(b, CancelOrder(b, id).0);
  }

  // ---- Whole books --------------------------------------------------------

  ghost predicate BookOk(b: Book, capacity: nat) {
    Consistent(b) && Uncrossed(b) && b.Count() <= capacity
  }

  lemma BooksOkUpdate(instruments: map<InstrumentId, Rules>, capacity: nat, books: map<InstrumentId, Book>,
                      i: InstrumentId, b: Book)
    requires BooksOk(instruments, capacity, books) && i in books && BookOk(b, capacity)
    ensures BooksOk(instruments, capacity, books[i := b])
  {
  }

  lemma ExecuteBookOk(b: Book, capacity: nat, id: OrderId, size: Quantity)
    requires BookOk(b, capacity)
    ensures BookOk(ExecuteOrder(b, id, size).0, capacity)
    ensures ExecuteOrder(b, id, size).0.Count() <= b.Count()
  {
    ExecuteKeeps(b, id, size);
    ExecuteUncrossed(b, id, size);
  }

  lemma CancelBookOk(b: Book, capacity: nat, id: OrderId)
    requires BookOk(b, capacity)
    ensures BookOk(CancelOrder(b, id).0, capacity)
    ensures CancelOrder(b, id).0.Count() <= b.Count()
  {
    CancelKeeps(b, id);
    CancelUncrossed(b, id);
  }

  /** An order that does not reach the opposite side leaves the book uncrossed. */
  lemma AddBookOk(b: Book, capacity: nat, id: OrderId, side: Side, price: Price, quantity: Quantity)
    requires BookOk(b, capacity)
    requires b.Queue(side.Opposite()) == [] || !NoWorse(side, price, b.Queue(side.Opposite())[0].price)
    ensures BookOk(Add(b, capacity, id, side, price, quantity).0, capacity)
  {
    AddKeeps(b, capacity, id, side, price, quantity);
    var q := b.Queue(side);
    var e := Entry(id, price, quantity);
    var r := Insert(side, q, e);
    assert r[0] == e || (q != [] && r[0] == q[0]);
  }

  /** Executing against the front shortens or removes it and touches nothing else. */
  lemma ExecuteFront(b: Book, side: Side, size: Quantity)
    requires Consistent(b) && b.Queue(side) != [] && 0 < size <= b.Queue(side)[0].quantity
    ensures var q := b.Queue(side);
            var r := ExecuteOrder(b, q[0].id, size);
            && r.1 == Ok
            && r.0.Queue(side.Opposite()) == b.Queue(side.Opposite())
            && r.0.Queue(side) ==
               (if size == q[0].quantity then q[1..] else [q[0].(quantity := q[0].quantity - size)] + q[1..])
  {
    var q := b.Queue(side);
    assert q[0] in b.Queue(side);
    Locate(b, side, q[0]);
    TakeFront(q, size);
  }

  lemma AllConsistent(instruments: map<InstrumentId, Rules>, capacity: nat, books: map<InstrumentId, Book>)
    requires BooksOk(instruments, capacity, books)
    ensures forall i | i in books :: Consistent(books[i])
    ensures forall i | i in books :: BookOk(books[i], capacity)
  {
  }

  /** Orders may have gone or shrunk, but nothing else about them changed. */
  ghost predicate Thinned(resting: map<OrderId, Message>, resting': map<OrderId, Message>) {
    forall id | id in resting' ::
      id in resting && resting'[id] == resting[id].(quantity := resting'[id].quantity)
  }

  lemma ThinnedKeeps(resting: map<OrderId, Message>, resting': map<OrderId, Message>,
                     clients: map<ClientId, ClientState>, nextOrder: OrderId, positions: Holdings)
    requires Thinned(resting, resting') && Issued(resting, clients, nextOrder) && HasAccounts(resting, positions)
    ensures Issued(resting', clients, nextOrder) && HasAccounts(resting', positions)
  {
  }

  lemma IndexedExecute(resting: map<OrderId, Message>, byClient: map<Key, OrderId>, id: OrderId, size: Quantity)
    requires Indexed(resting, byClient) && id in resting && size <= resting[id].quantity
    ensures Indexed(AfterExecute(resting, id, size),
                    if size == resting[id].quantity then byClient - {OwnerKey(resting[id])} else byClient)
    ensures Thinned(resting, AfterExecute(resting, id, size))
  {
    if size == resting[id].quantity {
      IndexedRemove(resting, byClient, id);
    } else {
      IndexedResize(resting, byClient, id, resting[id].(quantity := resting[id].quantity - size));
    }
  }
}
