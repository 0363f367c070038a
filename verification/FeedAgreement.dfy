/** The routing table and the core books of a feed tell the same story, in every run. */
module FeedAgreement {
  import opened Types
  import opened BookModel
  import opened FeedModel

  // ---- Looking an order up ------------------------------------------------

  datatype Found = Found(side: Side, price: nat, quantity: nat)

  function Lookup(q: seq<Entry>, id: OrderId): Option<Entry> {
    if HasId(q, id) then Some(Get(q, id)) else None
  }

  /** The book's own query: side, price and remaining quantity of an order. */
  function Find(b: Book, id: OrderId): Option<Found> {
    if HasId(b.bids, id) then var e := Get(b.bids, id); Some(Found(Bid, e.price, e.quantity))
    else if HasId(b.asks, id) then var e := Get(b.asks, id); Some(Found(Ask, e.price, e.quantity))
    else None
  }

  lemma LookupInsert(side: Side, q: seq<Entry>, e: Entry, j: OrderId)
    requires Ordered(side, q) && Distinct(q) && Positive(q) && !HasId(q, e.id) && e.quantity > 0 && e.price > 0
    ensures Lookup(Insert(side, q, e), j) == if j == e.id then Some(e) else Lookup(q, j)
  {
    InsertKeeps(side, q, e);
    var r := Insert(side, q, e);
    GetUnique(r, e);
    if HasId(q, j) {
      GetUnique(r, Get(q, j));
    }
  }

  lemma LookupRemove(side: Side, q: seq<Entry>, id: OrderId, j: OrderId)
    requires Ordered(side, q) && Distinct(q) && Positive(q)
    ensures Lookup(Remove(q, id), j) == if j == id then None else Lookup(q, j)
  {
    RemoveKeeps(side, q, id);
    if j != id && HasId(q, j) {
      GetUnique(Remove(q, id), Get(q, j));
    }
  }

  lemma {:induction false} LookupResize(q: seq<Entry>, id: OrderId, quantity: Quantity, j: OrderId)
    ensures Lookup(Resize(q, id, quantity), j)
         == if j == id && HasId(q, j) then Some(Get(q, j).(quantity := quantity)) else Lookup(q, j)
  {
    if q != [] {
      LookupResize(q[1..], id, quantity, j);
      assert Resize(q, id, quantity)[1..] == Resize(q[1..], id, quantity);
    }
  }

  lemma FindAdd(b: Book, capacity: nat, id: OrderId, side: Side, price: Price, quantity: Quantity, j: OrderId)
    requires Consistent(b) && Add(b, capacity, id, side, price, quantity).1 == Ok
    ensures Find(Add(b, capacity, id, side, price, quantity).0, j)
         == if j == id then Some(Found(side, price, quantity)) else Find(b, j)
  {
    hide Ordered, Distinct, Positive, Insert, HasId, Get;
    LookupInsert(side, b.Queue(side), Entry(id, price, quantity), j);
  }

  lemma FindCancel(b: Book, id: OrderId, j: OrderId)
    requires Consistent(b) && b.Has(id)
    ensures Find(CancelOrder(b, id).0, j) == if j == id then None else Find(b, j)
  {
    hide Ordered, Distinct, Positive, Remove, HasId, Get;
    LookupRemove(SideOf(b, id), b.Queue(SideOf(b, id)), id, j);
  }

  lemma FindResize(b: Book, id: OrderId, quantity: Quantity, j: OrderId)
    requires Consistent(b) && b.Has(id)
    ensures var side := SideOf(b, id);
      Find(b.With(side, Resize(b.Queue(side), id, quantity)), j)
        == if j == id then Some(Find(b, id).value.(quantity := quantity)) else Find(b, j)
  {
    hide Ordered, Distinct, Positive, Resize, HasId, Get;
    LookupResize(b.Queue(SideOf(b, id)), id, quantity, j);
  }

  lemma FindMove(b: Book, prior: OrderId, id: OrderId, side: Side, price: Price, quantity: Quantity, j: OrderId)
    requires Consistent(b) && b.Has(prior) && side == SideOf(b, prior) && price > 0 && quantity > 0
    requires id == prior || !b.Has(id)
    ensures Find(b.With(side, Insert(side, Remove(b.Queue(side), prior), Entry(id, price, quantity))), j)
         == if j == id then Some(Found(side, price, quantity)) else if j == prior then None else Find(b, j)
  {
    var q := b.Queue(side);
    RemoveKeeps(side, q, prior);
    LookupRemove(side, q, prior, j);
    LookupInsert(side, Remove(q, prior), Entry(id, price, quantity), j);
    hide Ordered, Distinct, Positive, Remove, Insert, HasId, Get;
  }

  lemma FindSide(b: Book, id: OrderId)
    requires b.Has(id)
    ensures Find(b, id).Some? && Find(b, id).value.side == SideOf(b, id)
    ensures Find(b, id).value.price == Get(b.Queue(SideOf(b, id)), id).price
    ensures Find(b, id).value.quantity == Get(b.Queue(SideOf(b, id)), id).quantity
  {
  }

  // ---- A follow-up event, seen from both sides ----------------------------

  /** What order `j` looks like after a follow-up event on an order that looked like `was`. */
  function Afterwards(e: Event, was: Tracked, j: OrderId, before: Option<Found>): Option<Found> {
    if e.kind.ReplaceEvent? then
      if j == e.newOrderId then Some(Found(was.side, e.price, e.quantity))
      else if j == e.orderId then None
      else before
    else if j != e.orderId then before
    else if e.kind.Delete? then None
    else if e.kind.ExecuteRemaining? then
      if e.remaining == 0 then None else Some(Found(was.side, was.price, e.remaining))
    else if e.quantity >= was.quantity then None
    else Some(Found(was.side, was.price, was.quantity - e.quantity))
  }

  ghost predicate Follows(e: Event, was: Tracked) {
    && (e.kind.Delete? || e.kind.Reduce? || e.kind.ExecuteEvent? || e.kind.ExecuteRemaining? || e.kind.ReplaceEvent?)
    && (e.kind.Reduce? || e.kind.ExecuteEvent? ==> 0 < e.quantity <= was.quantity)
  }

  lemma ExecuteShape(b: Book, id: OrderId, quantity: nat, was: Tracked)
    requires Find(b, id) == Some(Found(was.side, was.price, was.quantity)) && 0 < quantity <= was.quantity
    ensures b.Has(id)
    ensures var side := SideOf(b, id);
      ExecuteOrder(b, id, quantity)
        == if quantity == was.quantity then CancelOrder(b, id)
           else (b.With(side, Resize(b.Queue(side), id, was.quantity - quantity)), Ok)
    ensures CancelOrder(b, id).1 == Ok
  {
    FindSide(b, id);
  }

  lemma DecrementFinds(b: Book, id: OrderId, quantity: nat, was: Tracked, j: OrderId)
    requires Consistent(b) && Find(b, id) == Some(Found(was.side, was.price, was.quantity))
    requires 0 < quantity <= was.quantity
    ensures var r := ExecuteOrder(b, id, quantity);
      && r.1 == Ok && Consistent(r.0)
      && Find(r.0, j) == if j != id then Find(b, j)
                         else if quantity == was.quantity then None
                         else Some(Found(was.side, was.price, was.quantity - quantity))
  {
    hide Consistent, Find, ExecuteOrder, CancelOrder, Resize, HasId, Get;
    ExecuteKeeps(b, id, quantity);
    ExecuteShape(b, id, quantity, was);
    if quantity == was.quantity {
      FindCancel(b, id, j);
    } else {
      FindResize(b, id, was.quantity - quantity, j);
    }
  }

  lemma MaintainFinds(b: Book, capacity: nat, id: OrderId, was: Tracked, price: nat, quantity: nat, j: OrderId)
    requires Consistent(b) && Find(b, id) == Some(Found(was.side, was.price, was.quantity))
    requires ReplaceOrder(b, capacity, id, id, was.side, price, quantity, true).1 == Ok
    ensures var r := ReplaceOrder(b, capacity, id, id, was.side, price, quantity, true);
      Consistent(r.0) && price == was.price
      && Find(r.0, j) == if j == id then Some(Found(was.side, was.price, quantity)) else Find(b, j)
  {
    FindSide(b, id);
    ResizeKeeps(was.side, b.Queue(was.side), id, quantity);
    FindResize(b, id, quantity, j);
    hide Find, Ordered, Distinct, Positive, Resize;
  }

  lemma MoveFinds(b: Book, capacity: nat, prior: OrderId, id: OrderId, was: Tracked, price: nat, quantity: nat, j: OrderId)
    requires Consistent(b) && Find(b, prior) == Some(Found(was.side, was.price, was.quantity))
    requires ReplaceOrder(b, capacity, prior, id, was.side, price, quantity, false).1 == Ok
    ensures var r := ReplaceOrder(b, capacity, prior, id, was.side, price, quantity, false);
      Consistent(r.0)
      && Find(r.0, j) == if j == id then Some(Found(was.side, price, quantity)) else if j == prior then None else Find(b, j)
  {
    FindSide(b, prior);
    FindMove(b, prior, id, was.side, price, quantity, j);
    hide Find;
    var q := b.Queue(was.side);
    RemoveKeeps(was.side, q, prior);
    InsertKeeps(was.side, Remove(q, prior), Entry(id, price, quantity));
    hide Ordered, Distinct, Positive, Remove, Insert;
  }

  /** The core book after a follow-up event. */
  lemma BookFollows(capacity: nat, b: Book, e: Event, was: Tracked, j: OrderId)
    requires Consistent(b) && Find(b, e.orderId) == Some(Found(was.side, was.price, was.quantity))
    requires was.quantity <= MAX_CORE && Follows(e, was) && ChangeBook(capacity, b, e, was).1
    ensures Consistent(ChangeBook(capacity, b, e, was).0)
    ensures Find(ChangeBook(capacity, b, e, was).0, j) == Afterwards(e, was, j, Find(b, j))
  {
    hide Consistent, Find, ExecuteOrder, CancelOrder, ReplaceOrder;
    if e.kind.Reduce? || e.kind.ExecuteEvent? {
      assert e.quantity % (MAX_CORE + 1) == e.quantity;
      DecrementFinds(b, e.orderId, e.quantity, was, j);
    } else if e.kind.Delete? || (e.kind.ExecuteRemaining? && e.remaining == 0) {
      CancelFinds(b, e.orderId, j);
    } else if e.kind.ExecuteRemaining? {
      MaintainFinds(b, capacity, e.orderId, was, was.price, e.remaining, j);
    } else if e.maintainPriority {
      MaintainsId(b, capacity, e.orderId, e.newOrderId, was.side, e.price, e.quantity);
      MaintainFinds(b, capacity, e.orderId, was, e.price, e.quantity, j);
    } else {
      MoveFinds(b, capacity, e.orderId, e.newOrderId, was, e.price, e.quantity, j);
    }
  }

  lemma CancelFinds(b: Book, id: OrderId, j: OrderId)
    requires Consistent(b) && Find(b, id).Some?
    ensures Consistent(CancelOrder(b, id).0) && Find(CancelOrder(b, id).0, j) == if j == id then None else Find(b, j)
  {
    CancelKeeps(b, id);
    FindCancel(b, id, j);
  }

  lemma MaintainsId(b: Book, capacity: nat, prior: OrderId, id: OrderId, side: Side, price: nat, quantity: nat)
    requires ReplaceOrder(b, capacity, prior, id, side, price, quantity, true).1 == Ok
    ensures id == prior
  {
  }

  /** What the routing table says of order `j` of a book. */
  function Expected(orders: Routing, k: BookKey, j: OrderId): Option<Found> {
    var key := OrderKey(k.venue, k.channel, j);
    if key in orders && orders[key].book == k
    then Some(Found(orders[key].side, orders[key].price, orders[key].quantity)) else None
  }

  /** The routing table after a follow-up event. */
  lemma RoutingFollows(st: State, venue: string, e: Event, j: OrderId)
    requires OrderKey(venue, e.channel, e.orderId) in st.orders
    requires var was := st.orders[OrderKey(venue, e.channel, e.orderId)];
      was.book.venue == venue && was.book.channel == e.channel && Routable(st, venue, e, was)
    ensures var was := st.orders[OrderKey(venue, e.channel, e.orderId)];
      Expected(ChangeRouting(st.orders, venue, e, was), was.book, j)
        == Afterwards(e, was, j, Expected(st.orders, was.book, j))
  {
  }

  /** No other book is concerned. */
  lemma RoutingElsewhere(st: State, venue: string, e: Event, k: BookKey, j: OrderId)
    requires OrderKey(venue, e.channel, e.orderId) in st.orders
    requires var was := st.orders[OrderKey(venue, e.channel, e.orderId)];
      was.book.venue == venue && was.book.channel == e.channel && Routable(st, venue, e, was) && k != was.book
    ensures var was := st.orders[OrderKey(venue, e.channel, e.orderId)];
      Expected(ChangeRouting(st.orders, venue, e, was), k, j) == Expected(st.orders, k, j)
  {
  }

  // ---- The invariant ------------------------------------------------------

  /** Every core book is consistent and holds exactly the orders that are routed to it, as routed. */
  ghost predicate BooksAgree(filter: string, books: Shelves, orders: Routing) {
    forall k | k in books ::
      Selected(filter, k.symbol) && Consistent(books[k]) && forall j :: Find(books[k], j) == Expected(orders, k, j)
  }

  /** Every order is routed within its venue and channel, and a selected one to an existing book. */
  ghost predicate RouteOk(filter: string, books: Shelves, key: OrderKey, t: Tracked) {
    && t.book.venue == key.venue && t.book.channel == key.channel
    && (Selected(filter, t.book.symbol) ==> t.book in books && t.quantity <= MAX_CORE)
  }

  ghost predicate RoutesOk(filter: string, books: Shelves, orders: Routing) {
    forall key | key in orders :: RouteOk(filter, books, key, orders[key])
  }

  ghost predicate Agrees(filter: string, st: State) {
    BooksAgree(filter, st.books, st.orders) && RoutesOk(filter, st.books, st.orders)
  }

  lemma ExpectedAdd(orders: Routing, key: OrderKey, t: Tracked, k: BookKey, j: OrderId)
    requires key !in orders && t.book.venue == key.venue && t.book.channel == key.channel
    ensures Expected(orders[key := t], k, j)
         == if k == t.book && j == key.id then Some(Found(t.side, t.price, t.quantity)) else Expected(orders, k, j)
  {
  }

  lemma EmptyAgrees(orders: Routing, k: BookKey, books: Shelves, filter: string)
    requires RoutesOk(filter, books, orders) && k !in books && Selected(filter, k.symbol)
    ensures Consistent(EMPTY) && forall j :: Find(EMPTY, j) == Expected(orders, k, j)
  {
    forall j ensures Expected(orders, k, j) == None {
      var key := OrderKey(k.venue, k.channel, j);
      assert key in orders ==> RouteOk(filter, books, key, orders[key]);
    }
  }

  /** A selected order is added. */
  lemma AddAgrees(filter: string, capacity: nat, st: State, venue: string, e: Event)
    requires Agrees(filter, st) && ApplyAdd(filter, capacity, st, venue, e).1 && Selected(filter, e.symbol)
    ensures Agrees(filter, ApplyAdd(filter, capacity, st, venue, e).0)
  {
    hide Consistent, Find, Add, Expected, Selected;
    var key, bk := OrderKey(venue, e.channel, e.orderId), BookKey(venue, e.channel, e.symbol);
    var t := Tracked(bk, e.side, e.price, e.quantity);
    var b := BookFor(st.books, bk);
    var r := Add(b, capacity, e.orderId, e.side, e.price, e.quantity);
    if bk !in st.books {
      EmptyAgrees(st.orders, bk, st.books, filter);
    }
    AddKeeps(b, capacity, e.orderId, e.side, e.price, e.quantity);
    forall j ensures Find(r.0, j) == Expected(st.orders[key := t], bk, j) {
      FindAdd(b, capacity, e.orderId, e.side, e.price, e.quantity, j);
      ExpectedAdd(st.orders, key, t, bk, j);
    }
    forall k, j | k in st.books && k != bk ensures Expected(st.orders[key := t], k, j) == Expected(st.orders, k, j) {
      ExpectedAdd(st.orders, key, t, k, j);
    }
  }

  /** An order that the filter leaves out is only routed. */
  lemma SkipAgrees(filter: string, capacity: nat, st: State, venue: string, e: Event)
    requires Agrees(filter, st) && ApplyAdd(filter, capacity, st, venue, e).1 && !Selected(filter, e.symbol)
    ensures Agrees(filter, ApplyAdd(filter, capacity, st, venue, e).0)
  {
    hide Consistent, Find, Add, Expected, Selected;
    var key, bk := OrderKey(venue, e.channel, e.orderId), BookKey(venue, e.channel, e.symbol);
    var t := Tracked(bk, e.side, e.price, e.quantity);
    forall k, j | k in st.books ensures Expected(st.orders[key := t], k, j) == Expected(st.orders, k, j) {
      ExpectedAdd(st.orders, key, t, k, j);
    }
  }

  /** A follow-up event keeps the routes. */
  lemma RoutesFollow(filter: string, st: State, venue: string, e: Event, books: Shelves)
    requires OrderKey(venue, e.channel, e.orderId) in st.orders && RoutesOk(filter, st.books, st.orders)
    requires books.Keys == st.books.Keys
    requires var was := st.orders[OrderKey(venue, e.channel, e.orderId)];
      && Routable(st, venue, e, was)
      && (e.kind.ReplaceEvent? && Selected(filter, was.book.symbol) ==> e.quantity <= MAX_CORE)
    ensures var was := st.orders[OrderKey(venue, e.channel, e.orderId)];
      RoutesOk(filter, books, ChangeRouting(st.orders, venue, e, was))
  {
    hide Selected;
    var key, next := OrderKey(venue, e.channel, e.orderId), OrderKey(venue, e.channel, e.newOrderId);
    var was := st.orders[key];
    assert RouteOk(filter, st.books, key, was);
    var orders := ChangeRouting(st.orders, venue, e, was);
    forall k | k in orders ensures RouteOk(filter, books, k, orders[k]) {
      if k != key && k != next {
        assert RouteOk(filter, st.books, k, st.orders[k]);
      }
    }
  }

  lemma RoutableFollows(st: State, venue: string, e: Event, was: Tracked)
    requires Routable(st, venue, e, was)
    ensures Follows(e, was)
  {
  }

  lemma ReplaceFits(capacity: nat, b: Book, e: Event, was: Tracked)
    requires e.kind.ReplaceEvent? && ChangeBook(capacity, b, e, was).1
    ensures e.quantity <= MAX_CORE
  {
    hide ReplaceOrder;
  }

  /** A follow-up event on a selected order. */
  lemma ChangeAgrees(filter: string, capacity: nat, st: State, venue: string, e: Event)
    requires Agrees(filter, st) && ApplyChange(capacity, st, venue, e).1
    requires st.orders[OrderKey(venue, e.channel, e.orderId)].book in st.books
    ensures Agrees(filter, ApplyChange(capacity, st, venue, e).0)
  {
    var key := OrderKey(venue, e.channel, e.orderId);
    var was := st.orders[key];
    hide Consistent, Find, ChangeBook, ChangeRouting, Expected, Routable, Follows, Selected;
    assert RouteOk(filter, st.books, key, was);
    var k := was.book;
    var b := st.books[k];
    var orders := ChangeRouting(st.orders, venue, e, was);
    RoutableFollows(st, venue, e, was);
    if e.kind.ReplaceEvent? {
      ReplaceFits(capacity, b, e, was);
    }
    RoutesFollow(filter, st, venue, e, st.books[k := ChangeBook(capacity, b, e, was).0]);
    FoundAsTracked(st.orders, key, was);
    BookFollows(capacity, b, e, was, 0);
    forall j ensures Find(ChangeBook(capacity, b, e, was).0, j) == Expected(orders, k, j) {
      BookFollows(capacity, b, e, was, j);
      RoutingFollows(st, venue, e, j);
    }
    forall x, j | x in st.books && x != k ensures Expected(orders, x, j) == Expected(st.orders, x, j) {
      RoutingElsewhere(st, venue, e, x, j);
    }
  }

  lemma FoundAsTracked(orders: Routing, key: OrderKey, was: Tracked)
    requires key in orders && orders[key] == was && was.book.venue == key.venue && was.book.channel == key.channel
    ensures Expected(orders, was.book, key.id) == Some(Found(was.side, was.price, was.quantity))
  {
  }

  /** A follow-up event on an order that the filter left out. */
  lemma UnseenAgrees(filter: string, capacity: nat, st: State, venue: string, e: Event)
    requires Agrees(filter, st) && ApplyChange(capacity, st, venue, e).1
    requires st.orders[OrderKey(venue, e.channel, e.orderId)].book !in st.books
    ensures Agrees(filter, ApplyChange(capacity, st, venue, e).0)
  {
    var key := OrderKey(venue, e.channel, e.orderId);
    var was := st.orders[key];
    hide Consistent, Find, ChangeBook, ChangeRouting, Expected, Routable, Selected;
    assert RouteOk(filter, st.books, key, was);
    RoutesFollow(filter, st, venue, e, st.books);
    var orders := ChangeRouting(st.orders, venue, e, was);
    forall x, j | x in st.books ensures Expected(orders, x, j) == Expected(st.orders, x, j) {
      RoutingElsewhere(st, venue, e, x, j);
    }
  }

  lemma ClearAgrees(filter: string, st: State, venue: string, channel: nat)
    requires Agrees(filter, st)
    ensures Agrees(filter, ApplyClear(st, venue, channel))
  {
    hide Consistent, Find, Selected;
    var t := ApplyClear(st, venue, channel);
    forall k, j | k in t.books ensures Expected(t.orders, k, j) == Expected(st.orders, k, j) {
    }
    forall key | key in t.orders ensures RouteOk(filter, t.books, key, t.orders[key]) {
      assert RouteOk(filter, st.books, key, st.orders[key]);
    }
  }

  /** Every accepted event keeps the agreement. */
  lemma ApplyAgrees(filter: string, capacity: nat, st: State, venue: string, e: Event)
    requires Agrees(filter, st) && Apply(filter, capacity, st, venue, e).1
    ensures Agrees(filter, Apply(filter, capacity, st, venue, e).0)
  {
    hide Agrees, ApplyClear, Selected, ApplyAdd, Routable, ChangeBook, ChangeRouting;
    if e.kind.Clear? {
      ClearAgrees(filter, st, venue, e.channel);
    } else if e.kind.AddEvent? {
      if Selected(filter, e.symbol) {
        AddAgrees(filter, capacity, st, venue, e);
      } else {
        SkipAgrees(filter, capacity, st, venue, e);
      }
    } else if !(e.kind.Metadata? || e.kind.Directory? || e.kind.TradeEvent?) {
      if st.orders[OrderKey(venue, e.channel, e.orderId)].book in st.books {
        ChangeAgrees(filter, capacity, st, venue, e);
      } else {
        UnseenAgrees(filter, capacity, st, venue, e);
      }
    }
  }

  /** Whatever stream has been accepted so far, routing and books agree. */
  lemma {:induction false} RebuildAgrees(filter: string, capacity: nat, stream: Stream)
    requires Rebuild(filter, capacity, stream).valid
    ensures Agrees(filter, Rebuild(filter, capacity, stream))
    decreases |stream|
  {
    if stream != [] {
      var n := |stream| - 1;
      hide Agrees, Apply;
      RebuildAgrees(filter, capacity, stream[..n]);
      ApplyAgrees(filter, capacity, Rebuild(filter, capacity, stream[..n]), stream[n].0, stream[n].1);
    }
  }
}
