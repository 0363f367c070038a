/** The feed reconstruction as an object, and its audit. */
module FeedBooks {
  import opened Types
  import opened Sums
  import opened BookModel
  import opened FeedModel
  import opened FeedAgreement

  class Books {
    const filter: string
    const capacity: nat
    var valid: bool
    var updates: nat
    var books: Shelves
    var orders: Routing

    function State(): State
      reads this
    {
      FeedModel.State(valid, updates, books, orders)
    }

    constructor (filter: string, capacity: nat)
      ensures this.filter == filter && this.capacity == capacity && State() == START
    {
      this.filter, this.capacity := filter, capacity;
      valid, updates, books, orders := true, 0, map[], map[];
    }

    /** One event of the feed; false stands for the exception, after which nothing is accepted any more. */
    method Consume(venue: string, e: Event) returns (ok: bool)
      modifies this
      ensures State() == FeedModel.Consume(filter, capacity, old(State()), venue, e)
      ensures ok == State().valid
    {
      hide ApplyAdd, ApplyChange, ApplyClear;
      if !valid {
        return false;
      }
      ok := ApplyEvent(venue, e);
      if !ok {
        valid := false;
      }
    }

    method ApplyEvent(venue: string, e: Event) returns (ok: bool)
      modifies this
      ensures (State(), ok) == Apply(filter, capacity, old(State()), venue, e)
      ensures valid == old(valid)
    {
      hide ApplyAdd, ApplyChange;
      if venue == "" {
        return false;
      }
      if e.kind.Metadata? || e.kind.Directory? || e.kind.TradeEvent? {
        return true;
      }
      if e.kind.Clear? {
        orders := map k | k in orders && !(k.venue == venue && k.channel == e.channel) :: orders[k];
        books := map k | k in books && !(k.venue == venue && k.channel == e.channel) :: books[k];
        return true;
      }
      if e.kind.AddEvent? {
        ok := AddOrder(venue, e);
      } else {
        ok := ChangeOrder(venue, e);
      }
    }

    method AddOrder(venue: string, e: Event) returns (ok: bool)
      modifies this
      ensures (State(), ok) == ApplyAdd(filter, capacity, old(State()), venue, e)
      ensures valid == old(valid)
    {
      hide Add;
      var key := OrderKey(venue, e.channel, e.orderId);
      if e.symbol == "" || key in orders {
        return false;
      }
      if e.price == 0 || e.quantity == 0 {
        return false;
      }
      var book := BookKey(venue, e.channel, e.symbol);
      if Selected(filter, e.symbol) {
        if !Representable(e.price, e.quantity) {
          return false;
        }
        if book !in books {
          books := books[book := EMPTY];
        }
        var (b, result) := Add(books[book], capacity, e.orderId, e.side, e.price, e.quantity);
        if result != Ok {
          assert books == old(books)[book := BookFor(old(books), book)];
          return false;
        }
        books := books[book := b];
        assert books == old(books)[book := b];
        updates := updates + 1;
      }
      orders := orders[key := Tracked(book, e.side, e.price, e.quantity)];
      return true;
    }

    method ChangeOrder(venue: string, e: Event) returns (ok: bool)
      modifies this
      ensures (State(), ok) == ApplyChange(capacity, old(State()), venue, e)
      ensures valid == old(valid)
    {
      hide ChangeBook, ChangeRouting, Routable;
      var key := OrderKey(venue, e.channel, e.orderId);
      if key !in orders {
        return false;
      }
      var was := orders[key];
      if e.symbol != "" && was.book.symbol != e.symbol {
        return false;
      }
      if !Routable(State(), venue, e, was) {
        return false;
      }
      if was.book in books {
        var (b, good) := ChangeBook(capacity, books[was.book], e, was);
        if !good {
          return false;
        }
        books := books[was.book := b];
        updates := updates + 1;
      }
      orders := ChangeRouting(orders, venue, e, was);
      return true;
    }

    /** The audit: every selected order stands in its book as routed, and no book holds anything else. */
    method ValidateInvariants() returns (ok: bool)
      ensures ok <==> Audited(filter, State())
    {
      hide Find, Consistent, Total, Counts, SelectedKeys;
      if !valid {
        return false;
      }
      var shown, selectedOrders := CheckOrders(filter, State());
      if !shown {
        return false;
      }
      var sound, count := CheckBooks(books);
      return sound && count == selectedOrders;
    }
  }

  /** Looks one order up in its book. */
  method CheckOrder(st: State, key: OrderKey) returns (ok: bool)
    requires key in st.orders
    ensures ok <==> InBook(st, key)
  {
    hide Find;
    var t := st.orders[key];
    ok := t.book in st.books && Find(st.books[t.book], key.id) == Some(Found(t.side, t.price, t.quantity));
  }

  /** Looks every selected order up in its book and counts them. */
  method CheckOrders(filter: string, st: State) returns (ok: bool, selectedOrders: nat)
    ensures ok <==> forall key | key in st.orders :: Shown(filter, st, key)
    ensures ok ==> selectedOrders == |SelectedKeys(filter, st.orders)|
  {
    hide InBook, Selected, SelectedKeys;
    var todo := st.orders.Keys;
    ghost var chosen: set<OrderKey> := {};
    assert SelectedKeys(filter, st.orders) - todo == {} by { SelectedWithin(filter, st.orders); }
    selectedOrders := 0;
    while todo != {}
      invariant todo <= st.orders.Keys
      invariant forall key | key in st.orders.Keys - todo :: Shown(filter, st, key)
      invariant chosen == SelectedKeys(filter, st.orders) - todo && selectedOrders == |chosen|
      decreases todo
    {
      var key :| key in todo;
      var t := st.orders[key];
      SelectedStep(filter, st.orders, todo, key);
      if Selected(filter, t.book.symbol) {
        var matches := CheckOrder(st, key);
        if !matches {
          return false, selectedOrders;
        }
        selectedOrders := selectedOrders + 1;
        chosen := chosen + {key};
      }
      todo := todo - {key};
    }
    assert SelectedKeys(filter, st.orders) - {} == SelectedKeys(filter, st.orders);
    ok := true;
  }

  lemma SelectedWithin(filter: string, orders: Routing)
    ensures SelectedKeys(filter, orders) <= orders.Keys
  {
  }

  /** Taking one more key off the list adds it to the selected ones, if it is selected. */
  lemma SelectedStep(filter: string, orders: Routing, todo: set<OrderKey>, key: OrderKey)
    requires key in todo && todo <= orders.Keys
    ensures key !in SelectedKeys(filter, orders) - todo
    ensures SelectedKeys(filter, orders) - (todo - {key})
         == SelectedKeys(filter, orders) - todo + if Selected(filter, orders[key].book.symbol) then {key} else {}
  {
    hide Selected;
  }

  /** Audits every book and counts its orders. */
  method CheckBooks(books: Shelves) returns (ok: bool, count: int)
    ensures ok <==> forall k | k in books :: Consistent(books[k])
    ensures ok ==> count == Total(Counts(books))
  {
    hide Consistent, Total;
    var left := books.Keys;
    count := 0;
    ghost var done: map<BookKey, int> := map[];
    assert Total(done) == 0 by { NothingTotal(); }
    while left != {}
      invariant left <= books.Keys
      invariant done == Counts(books) - left && count == Total(done)
      invariant forall k | k in books.Keys - left :: Consistent(books[k])
      decreases left
    {
      var k :| k in left;
      var consistent := CheckBook(books[k]);
      if !consistent {
        return false, count;
      }
      TotalInsert(done, k, books[k].Count());
      done := done[k := books[k].Count()];
      count := count + books[k].Count();
      left := left - {k};
    }
    assert Counts(books) - {} == Counts(books);
    ok := true;
  }

  lemma NothingTotal()
    ensures Total<BookKey>(map[]) == 0
  {
  }

  // ---- The audit ----------------------------------------------------------

  ghost function SelectedKeys(filter: string, orders: Routing): set<OrderKey> {
    set key | key in orders && Selected(filter, orders[key].book.symbol)
  }

  ghost function Counts(books: Shelves): map<BookKey, int> {
    map k | k in books :: books[k].Count()
  }

  /** A selected order stands in its book as the routing table says. */
  ghost predicate Shown(filter: string, st: State, key: OrderKey)
    requires key in st.orders
  {
    Selected(filter, st.orders[key].book.symbol) ==> InBook(st, key)
  }

  ghost predicate InBook(st: State, key: OrderKey)
    requires key in st.orders
  {
    var t := st.orders[key];
    t.book in st.books && Find(st.books[t.book], key.id) == Some(Found(t.side, t.price, t.quantity))
  }

  ghost predicate Audited(filter: string, st: State) {
    && st.valid
    && (forall key | key in st.orders :: Shown(filter, st, key))
    && (forall k | k in st.books :: Consistent(st.books[k]))
    && Total(Counts(st.books)) == |SelectedKeys(filter, st.orders)|
  }

  /** The orders routed to one book. */
  ghost function KeysOf(orders: Routing, k: BookKey): set<OrderKey> {
    set key | key in orders && orders[key].book == k
  }

  ghost function KeysIn(orders: Routing, ks: set<BookKey>): set<OrderKey> {
    set key | key in orders && orders[key].book in ks
  }

  ghost function IdsOf(b: Book): set<OrderId> {
    EntryIds(b.bids) + EntryIds(b.asks)
  }

  lemma IdsCount(b: Book)
    requires Consistent(b)
    ensures |IdsOf(b)| == b.Count() && forall j :: j in IdsOf(b) <==> Find(b, j).Some?
  {
    DistinctCount(b.bids);
    DistinctCount(b.asks);
    forall j ensures j in IdsOf(b) <==> Find(b, j).Some? {
    }
    assert EntryIds(b.bids) !! EntryIds(b.asks) by {
      forall j | j in EntryIds(b.bids) ensures j !in EntryIds(b.asks) {
        assert HasId(b.bids, j);
      }
    }
  }

  ghost function Keyed(ids: set<OrderId>, k: BookKey): set<OrderKey> {
    set j | j in ids :: OrderKey(k.venue, k.channel, j)
  }

  lemma {:induction false} KeyedCount(ids: set<OrderId>, k: BookKey)
    ensures |Keyed(ids, k)| == |ids|
    decreases ids
  {
    if ids != {} {
      var j := Pick(ids);
      KeyedCount(ids - {j}, k);
      assert Keyed(ids, k) == Keyed(ids - {j}, k) + {OrderKey(k.venue, k.channel, j)};
    } else {
      assert Keyed(ids, k) == {};
    }
  }

  /** A book holds as many orders as are routed to it. */
  lemma BookCount(filter: string, st: State, k: BookKey)
    requires Agrees(filter, st) && k in st.books
    ensures |KeysOf(st.orders, k)| == st.books[k].Count()
  {
    var b := st.books[k];
    IdsCount(b);
    KeyedCount(IdsOf(b), k);
    hide Find, Consistent;
    forall key ensures key in KeysOf(st.orders, k) <==> key in Keyed(IdsOf(b), k) {
      assert key in st.orders ==> RouteOk(filter, st.books, key, st.orders[key]);
      assert Find(b, key.id) == Expected(st.orders, k, key.id);
    }
    assert KeysOf(st.orders, k) == Keyed(IdsOf(b), k);
  }

  lemma KeysSplit(orders: Routing, ks: set<BookKey>, k: BookKey)
    requires k in ks
    ensures |KeysIn(orders, ks)| == |KeysIn(orders, ks - {k})| + |KeysOf(orders, k)|
  {
    assert KeysIn(orders, ks) == KeysIn(orders, ks - {k}) + KeysOf(orders, k);
    assert KeysIn(orders, ks - {k}) !! KeysOf(orders, k);
  }

  lemma CountsWithout(books: Shelves, k: BookKey)
    requires k in books
    ensures Counts(books)[k] == books[k].Count() && Counts(books) - {k} == Counts(books - {k})
  {
  }

  /** If no book holds fewer orders than are routed to it, equal totals mean equal counts everywhere. */
  lemma {:induction false} AllCount(books: Shelves, orders: Routing)
    requires forall k | k in books :: |KeysOf(orders, k)| <= books[k].Count()
    ensures |KeysIn(orders, books.Keys)| <= Total(Counts(books))
    ensures |KeysIn(orders, books.Keys)| == Total(Counts(books))
       <==> forall k | k in books :: |KeysOf(orders, k)| == books[k].Count()
    decreases books.Keys
  {
    if books == map[] {
      assert Counts(books) == map[] && KeysIn(orders, books.Keys) == {};
      NothingTotal();
    } else {
      var k := Pick(books.Keys);
      hide KeysOf, KeysIn, Total, Counts;
      AllCount(books - {k}, orders);
      CountsWithout(books, k);
      TotalRemove(Counts(books), k);
      assert (books - {k}).Keys == books.Keys - {k};
      KeysSplit(orders, books.Keys, k);
      forall x | x in books && x != k ensures x in books - {k} && (books - {k})[x] == books[x] {
      }
    }
  }

  /** Every reconstruction that has not failed passes the audit. */
  lemma RebuildPassesAudit(filter: string, capacity: nat, stream: Stream)
    requires Rebuild(filter, capacity, stream).valid
    ensures Audited(filter, Rebuild(filter, capacity, stream))
  {
    var st := Rebuild(filter, capacity, stream);
    RebuildAgrees(filter, capacity, stream);
    hide Rebuild, Find, Consistent;
    forall key | key in st.orders ensures Shown(filter, st, key) {
      var t := st.orders[key];
      assert RouteOk(filter, st.books, key, t);
      FoundAsTracked(st.orders, key, t);
    }
    forall k | k in st.books ensures |KeysOf(st.orders, k)| == st.books[k].Count() {
      BookCount(filter, st, k);
    }
    AllCount(st.books, st.orders);
    assert KeysIn(st.orders, st.books.Keys) == SelectedKeys(filter, st.orders) by {
      forall key | key in st.orders ensures RouteOk(filter, st.books, key, st.orders[key]) {
      }
    }
  }

  /** Orders are routed within their venue and channel, and only selected symbols have books. */
  ghost predicate Framed(filter: string, st: State) {
    && (forall k | k in st.books :: Selected(filter, k.symbol))
    && (forall key | key in st.orders ::
          st.orders[key].book.venue == key.venue && st.orders[key].book.channel == key.channel)
  }

  lemma RoutedAreShown(filter: string, st: State, k: BookKey)
    requires Audited(filter, st) && Framed(filter, st) && k in st.books
    ensures KeysOf(st.orders, k) <= Keyed(IdsOf(st.books[k]), k)
    ensures |Keyed(IdsOf(st.books[k]), k)| == st.books[k].Count()
    ensures |KeysOf(st.orders, k)| <= st.books[k].Count()
  {
    var b := st.books[k];
    IdsCount(b);
    KeyedCount(IdsOf(b), k);
    hide Find, Consistent, IdsOf, Total;
    forall key | key in KeysOf(st.orders, k) ensures key in Keyed(IdsOf(b), k) {
      assert Shown(filter, st, key);
      assert key == OrderKey(k.venue, k.channel, key.id);
    }
    Within(KeysOf(st.orders, k), Keyed(IdsOf(b), k));
  }

  /** The audit misses nothing: books that pass hold exactly the routed orders, as routed. */
  lemma AuditMeansAgreement(filter: string, st: State)
    requires Audited(filter, st) && Framed(filter, st)
    ensures BooksAgree(filter, st.books, st.orders)
  {
    hide Find, Consistent, Total, Counts, Selected, KeysOf, Keyed, IdsOf;
    forall k | k in st.books ensures |KeysOf(st.orders, k)| <= st.books[k].Count() {
      RoutedAreShown(filter, st, k);
    }
    AllCount(st.books, st.orders);
    SelectedAreRouted(filter, st);
    forall k, j | k in st.books ensures Find(st.books[k], j) == Expected(st.orders, k, j) {
      RoutedAreShown(filter, st, k);
      Within(KeysOf(st.orders, k), Keyed(IdsOf(st.books[k]), k));
      ShownAsExpected(filter, st, k, j);
    }
  }

  lemma SelectedAreRouted(filter: string, st: State)
    requires Framed(filter, st) && forall key | key in st.orders :: Shown(filter, st, key)
    ensures SelectedKeys(filter, st.orders) == KeysIn(st.orders, st.books.Keys)
  {
    hide Find, Selected;
    forall key | key in st.orders
      ensures Selected(filter, st.orders[key].book.symbol) <==> st.orders[key].book in st.books
    {
      assert Shown(filter, st, key);
    }
  }

  lemma ShownAsExpected(filter: string, st: State, k: BookKey, j: OrderId)
    requires Framed(filter, st) && k in st.books && Consistent(st.books[k])
    requires forall key | key in st.orders :: Shown(filter, st, key)
    requires KeysOf(st.orders, k) == Keyed(IdsOf(st.books[k]), k)
    ensures Find(st.books[k], j) == Expected(st.orders, k, j)
  {
    IdsCount(st.books[k]);
    hide Find, Consistent, IdsOf;
    var key := OrderKey(k.venue, k.channel, j);
    assert key in Keyed(IdsOf(st.books[k]), k) <==> j in IdsOf(st.books[k]);
    if key in KeysOf(st.orders, k) {
      assert Shown(filter, st, key);
    }
  }
}
