/**
 What each feed event means, told of the displayed orders: exactly when it is accepted,
 which order it changes and how, and what happens to the queue of its core book.
 */
module FeedLaws {
  import opened Types
  import opened BookModel
  import opened BookLaws
  import opened OrderBooks
  import opened FeedModel
  import opened FeedAgreement

  const LARGEST := 0xffff_ffff

  // ---- Which events are accepted ------------------------------------------

  predicate Wanted(filter: string, symbol: string) {
    filter == "" || symbol == filter
  }

  /** The core book can hold such an order. */
  predicate Holdable(price: nat, quantity: nat) {
    0 < price <= LARGEST && 0 < quantity <= LARGEST
  }

  function Size(books: Shelves, k: BookKey): nat {
    if k in books then |books[k].bids| + |books[k].asks| else 0
  }

  /** A displayed order that is not known yet; a wanted one must fit its book. */
  predicate AddFits(filter: string, capacity: nat, st: State, venue: string, e: Event) {
    && e.symbol != "" && OrderKey(venue, e.channel, e.orderId) !in st.orders && e.price > 0 && e.quantity > 0
    && (Wanted(filter, e.symbol) ==>
          Holdable(e.price, e.quantity) && Size(st.books, BookKey(venue, e.channel, e.symbol)) < capacity)
  }

  /** A follow-up names a known order, of its symbol if it gives one, and asks of it what can be. */
  predicate ChangeFits(filter: string, capacity: nat, st: State, venue: string, e: Event) {
    var key, next := OrderKey(venue, e.channel, e.orderId), OrderKey(venue, e.channel, e.newOrderId);
    && key in st.orders
    && var was := st.orders[key];
       var shown := Wanted(filter, was.book.symbol);
       && (e.symbol == "" || e.symbol == was.book.symbol)
       && match e.kind
          case Delete => true
          case Reduce => 0 < e.quantity <= was.quantity
          case ExecuteEvent => 0 < e.quantity <= was.quantity
          case ExecuteRemaining =>
            e.quantity > 0 && e.remaining <= LARGEST && (shown && e.remaining > 0 ==> Holdable(was.price, e.remaining))
          case ReplaceEvent =>
            && e.price > 0 && e.quantity > 0 && (e.newOrderId == e.orderId || next !in st.orders)
            && (e.maintainPriority ==> e.newOrderId == e.orderId && e.price == was.price)
            && (shown ==> Holdable(e.price, e.quantity) && (e.maintainPriority || Size(st.books, was.book) < capacity))
          case _ => false
  }

  predicate Fits(filter: string, capacity: nat, st: State, venue: string, e: Event) {
    && venue != ""
    && match e.kind
       case Metadata => true
       case Directory => true
       case TradeEvent => true
       case Clear => true
       case AddEvent => AddFits(filter, capacity, st, venue, e)
       case _ => ChangeFits(filter, capacity, st, venue, e)
  }

  // ---- What they do to the displayed orders -------------------------------

  ghost predicate OrdersAfter(orders: Routing, orders': Routing, venue: string, e: Event) {
    var key, next := OrderKey(venue, e.channel, e.orderId), OrderKey(venue, e.channel, e.newOrderId);
    match e.kind
    case Metadata => orders' == orders
    case Directory => orders' == orders
    case TradeEvent => orders' == orders
    case Clear =>
      && (forall k :: k in orders' <==> k in orders && !(k.venue == venue && k.channel == e.channel))
      && (forall k | k in orders' :: orders'[k] == orders[k])
    case AddEvent => orders' == orders[key := Tracked(BookKey(venue, e.channel, e.symbol), e.side, e.price, e.quantity)]
    case Delete => orders' == orders - {key}
    case ReplaceEvent =>
      key in orders && orders' == (orders - {key})[next := orders[key].(price := e.price, quantity := e.quantity)]
    case ExecuteRemaining =>
      key in orders
      && orders' == if e.remaining == 0 then orders - {key} else orders[key := orders[key].(quantity := e.remaining)]
    case _ =>
      key in orders && e.quantity <= orders[key].quantity
      && orders' == if e.quantity == orders[key].quantity then orders - {key}
                    else orders[key := orders[key].(quantity := orders[key].quantity - e.quantity)]
  }

  // ---- What they do to the queues -----------------------------------------

  /** The order leaves, changes its quantity where it stands, or moves behind its new price. */
  ghost predicate QueueAfter(q: seq<Entry>, q': seq<Entry>, e: Event, was: Tracked) {
    match e.kind
    case Delete => q' == BookLaws.Without(q, {e.orderId})
    case ReplaceEvent =>
      if e.maintainPriority then SetInPlace(q, q', e.orderId, e.quantity)
      else
        forall p: Price ::
          AtPrice(q', p) == AtPrice(BookLaws.Without(q, {e.orderId}), p)
                            + if p == e.price then [Entry(e.newOrderId, p, e.quantity)] else []
    case ExecuteRemaining =>
      if e.remaining == 0 then q' == BookLaws.Without(q, {e.orderId}) else SetInPlace(q, q', e.orderId, e.remaining)
    case _ =>
      if e.quantity >= was.quantity then q' == BookLaws.Without(q, {e.orderId})
      else SetInPlace(q, q', e.orderId, was.quantity - e.quantity)
  }

  /** A follow-up changes the side of its order in its book, and no other queue. */
  ghost predicate BookAfterChange(b: Book, b': Book, e: Event, was: Tracked) {
    && b'.Queue(was.side.Opposite()) == b.Queue(was.side.Opposite())
    && QueueAfter(b.Queue(was.side), b'.Queue(was.side), e, was)
  }

  /** An added order stands last at its price. */
  ghost predicate BookAfterAdd(b: Book, b': Book, e: Event) {
    && b'.Queue(e.side.Opposite()) == b.Queue(e.side.Opposite())
    && forall p: Price ::
         AtPrice(b'.Queue(e.side), p)
           == AtPrice(b.Queue(e.side), p) + if p == e.price then [Entry(e.orderId, p, e.quantity)] else []
  }

  ghost predicate BooksAfter(filter: string, st: State, st': State, venue: string, e: Event) {
    var key := OrderKey(venue, e.channel, e.orderId);
    match e.kind
    case Metadata => st'.books == st.books && st'.updates == st.updates
    case Directory => st'.books == st.books && st'.updates == st.updates
    case TradeEvent => st'.books == st.books && st'.updates == st.updates
    case Clear =>
      && st'.updates == st.updates
      && (forall k :: k in st'.books <==> k in st.books && !(k.venue == venue && k.channel == e.channel))
      && (forall k | k in st'.books :: st'.books[k] == st.books[k])
    case AddEvent =>
      var k := BookKey(venue, e.channel, e.symbol);
      if !Wanted(filter, e.symbol) then st'.books == st.books && st'.updates == st.updates
      else
        && st'.updates == st.updates + 1 && k in st'.books && st'.books == st.books[k := st'.books[k]]
        && BookAfterAdd(if k in st.books then st.books[k] else Book([], []), st'.books[k], e)
    case _ =>
      && key in st.orders
      && var was := st.orders[key];
         if !Wanted(filter, was.book.symbol) then st'.books == st.books && st'.updates == st.updates
         else
           && was.book in st.books && was.book in st'.books
           && st'.updates == st.updates + 1 && st'.books == st.books[was.book := st'.books[was.book]]
           && BookAfterChange(st.books[was.book], st'.books[was.book], e, was)
  }

  // ---- Adding -------------------------------------------------------------

  lemma UnknownIsAbsent(filter: string, st: State, k: BookKey, id: OrderId)
    requires Agrees(filter, st) && OrderKey(k.venue, k.channel, id) !in st.orders
    ensures Consistent(BookFor(st.books, k)) && !BookFor(st.books, k).Has(id)
  {
    NothingHeld();
    hide Ordered, Distinct, Positive, HasId, Get;
    if k in st.books {
      assert Find(st.books[k], id) == Expected(st.orders, k, id);
    }
  }

  lemma NothingHeld()
    ensures Consistent(EMPTY) && forall id :: !EMPTY.Has(id)
  {
  }

  lemma AddLawOf(b: Book, capacity: nat, e: Event)
    requires Consistent(b) && !b.Has(e.orderId) && e.price > 0 && e.quantity > 0
    ensures var (b', result) := Add(b, capacity, e.orderId, e.side, e.price, e.quantity);
      && (result == Ok <==> |b.bids| + |b.asks| < capacity)
      && (result == Ok ==> BookAfterAdd(b, b', e))
  {
    hide AtPrice, Insert, HasId, Ordered, Distinct, Positive;
    forall p: Price {
      InsertAtPrice(e.side, b.Queue(e.side), Entry(e.orderId, e.price, e.quantity), p);
    }
  }

  lemma AddEventLaw(filter: string, capacity: nat, st: State, venue: string, e: Event)
    requires Agrees(filter, st) && venue != "" && e.kind.AddEvent?
    ensures var (st', ok) := ApplyAdd(filter, capacity, st, venue, e);
      && st'.valid == st.valid && (ok <==> Fits(filter, capacity, st, venue, e))
      && (ok ==> OrdersAfter(st.orders, st'.orders, venue, e) && BooksAfter(filter, st, st', venue, e))
  {
    hide Agrees, Add, BookAfterAdd;
    var k := BookKey(venue, e.channel, e.symbol);
    if OrderKey(venue, e.channel, e.orderId) !in st.orders && e.price > 0 && e.quantity > 0 {
      UnknownIsAbsent(filter, st, k, e.orderId);
      AddLawOf(BookFor(st.books, k), capacity, e);
    }
  }

  // ---- Follow-ups ---------------------------------------------------------

  lemma RemoveIsWithout(q: seq<Entry>, id: OrderId)
    ensures Remove(q, id) == BookLaws.Without(q, {id})
  {
    WithoutMore(q, id, {});
    WithoutNone(Remove(q, id));
    assert {id} + {} == {id};
  }

  lemma ResizeIsInPlace(q: seq<Entry>, id: OrderId, quantity: Quantity)
    ensures SetInPlace(q, Resize(q, id, quantity), id, quantity)
  {
  }

  /** The book operation of a follow-up: exactly when it succeeds, and what it does to the queue. */
  lemma ChangeBookLaw(capacity: nat, b: Book, e: Event, was: Tracked)
    requires Consistent(b) && Find(b, e.orderId) == Some(Found(was.side, was.price, was.quantity))
    requires was.quantity <= LARGEST && Follows(e, was)
    requires e.kind.ReplaceEvent? ==> e.newOrderId == e.orderId || !b.Has(e.newOrderId)
    requires e.kind.ReplaceEvent? && e.maintainPriority ==> e.newOrderId == e.orderId && e.price == was.price
    ensures var (b', ok) := ChangeBook(capacity, b, e, was);
      && (ok <==>
            (e.kind.ExecuteRemaining? && e.remaining > 0 ==> Holdable(was.price, e.remaining))
            && (e.kind.ReplaceEvent? ==>
                  Holdable(e.price, e.quantity) && (e.maintainPriority || |b.bids| + |b.asks| < capacity)))
      && (ok ==> BookAfterChange(b, b', e, was))
  {
    hide Consistent, HasId, Get, Remove, Resize, Insert, BookLaws.Without, AtPrice, SetInPlace, Take;
    FindSide(b, e.orderId);
    var q := b.Queue(was.side);
    RemoveIsWithout(q, e.orderId);
    if e.kind.Reduce? || e.kind.ExecuteEvent? {
      assert e.quantity % (MAX_CORE + 1) == e.quantity;
      ExecuteShape(b, e.orderId, e.quantity, was);
      ResizeIsInPlace(q, e.orderId, was.quantity - e.quantity);
    } else if e.kind.ExecuteRemaining? {
      ResizeIsInPlace(q, e.orderId, e.remaining);
    } else if e.kind.ReplaceEvent? {
      ResizeIsInPlace(q, e.orderId, e.quantity);
      MovedBehind(b, e, was);
    }
  }

  lemma MovedBehind(b: Book, e: Event, was: Tracked)
    requires Consistent(b) && b.Has(e.orderId)
    ensures var q := b.Queue(was.side);
      forall p: Price ::
        AtPrice(Insert(was.side, Remove(q, e.orderId), Entry(e.newOrderId, e.price, e.quantity)), p)
          == AtPrice(Remove(q, e.orderId), p) + if p == e.price then [Entry(e.newOrderId, p, e.quantity)] else []
  {
    var q := b.Queue(was.side);
    RemoveKeeps(was.side, q, e.orderId);
    hide Remove, Insert, AtPrice, HasId, Ordered, Distinct, Positive;
    forall p: Price {
      InsertAtPrice(was.side, Remove(q, e.orderId), Entry(e.newOrderId, e.price, e.quantity), p);
    }
  }

  lemma RoutingLaw(st: State, venue: string, e: Event, was: Tracked)
    requires OrderKey(venue, e.channel, e.orderId) in st.orders && was == st.orders[OrderKey(venue, e.channel, e.orderId)]
    requires Routable(st, venue, e, was)
    ensures OrdersAfter(st.orders, ChangeRouting(st.orders, venue, e, was), venue, e)
  {
  }

  lemma Shown(filter: string, st: State, key: OrderKey)
    requires Agrees(filter, st) && key in st.orders
    ensures var was := st.orders[key];
      && was.book.venue == key.venue && was.book.channel == key.channel
      && (was.book in st.books <==> Wanted(filter, was.book.symbol))
      && (was.book in st.books ==>
            was.quantity <= LARGEST && Consistent(st.books[was.book])
            && Find(st.books[was.book], key.id) == Some(Found(was.side, was.price, was.quantity)))
  {
    hide Consistent, Find;
    var was := st.orders[key];
    assert RouteOk(filter, st.books, key, was);
    FoundAsTracked(st.orders, key, was);
  }

  lemma NextAbsent(filter: string, st: State, k: BookKey, id: OrderId)
    requires Agrees(filter, st) && k in st.books && OrderKey(k.venue, k.channel, id) !in st.orders
    ensures !st.books[k].Has(id)
  {
    UnknownIsAbsent(filter, st, k, id);
  }

  lemma ChangeEventLaw(filter: string, capacity: nat, st: State, venue: string, e: Event)
    requires Agrees(filter, st) && venue != ""
    requires !(e.kind.Metadata? || e.kind.Directory? || e.kind.TradeEvent? || e.kind.Clear? || e.kind.AddEvent?)
    ensures var (st', ok) := ApplyChange(capacity, st, venue, e);
      && st'.valid == st.valid && (ok <==> Fits(filter, capacity, st, venue, e))
      && (ok ==> OrdersAfter(st.orders, st'.orders, venue, e) && BooksAfter(filter, st, st', venue, e))
  {
    hide Agrees, ChangeBook, ChangeRouting, OrdersAfter, BookAfterChange, Find, Wanted, Consistent;
    var key := OrderKey(venue, e.channel, e.orderId);
    if key in st.orders {
      var was := st.orders[key];
      Shown(filter, st, key);
      if Routable(st, venue, e, was) {
        RoutingLaw(st, venue, e, was);
        if was.book in st.books {
          if OrderKey(venue, e.channel, e.newOrderId) !in st.orders {
            NextAbsent(filter, st, was.book, e.newOrderId);
          }
          ChangeBookLaw(capacity, st.books[was.book], e, was);
        }
      }
    }
  }

  // ---- Every event --------------------------------------------------------

  /**
   One event after any accepted stream: it is accepted if and only if it fits, and then it does to the displayed
   orders and to the queues what is said above, and nothing else.
   */
  lemma EventLaw(filter: string, capacity: nat, stream: Stream, venue: string, e: Event)
    requires Rebuild(filter, capacity, stream).valid
    ensures var st := Rebuild(filter, capacity, stream);
      var st' := Rebuild(filter, capacity, stream + [(venue, e)]);
      && (st'.valid <==> Fits(filter, capacity, st, venue, e))
      && (st'.valid ==> OrdersAfter(st.orders, st'.orders, venue, e) && BooksAfter(filter, st, st', venue, e))
  {
    hide Agrees, ApplyAdd, ApplyChange, Fits, OrdersAfter, BooksAfter;
    assert (stream + [(venue, e)])[..|stream|] == stream;
    RebuildAgrees(filter, capacity, stream);
    var st := Rebuild(filter, capacity, stream);
    QuietLaw(filter, capacity, st, venue, e);
    if venue != "" {
      if e.kind.AddEvent? {
        AddEventLaw(filter, capacity, st, venue, e);
      } else if !(e.kind.Metadata? || e.kind.Directory? || e.kind.TradeEvent? || e.kind.Clear?) {
        ChangeEventLaw(filter, capacity, st, venue, e);
      }
    }
  }

  lemma QuietLaw(filter: string, capacity: nat, st: State, venue: string, e: Event)
    ensures venue == "" ==> !Fits(filter, capacity, st, venue, e)
    ensures e.kind.Metadata? || e.kind.Directory? || e.kind.TradeEvent? ==>
      (venue != "" ==> Fits(filter, capacity, st, venue, e))
      && OrdersAfter(st.orders, st.orders, venue, e) && BooksAfter(filter, st, st, venue, e)
    ensures e.kind.Clear? ==>
      (venue != "" ==> Fits(filter, capacity, st, venue, e))
      && OrdersAfter(st.orders, ApplyClear(st, venue, e.channel).orders, venue, e)
      && BooksAfter(filter, st, ApplyClear(st, venue, e.channel), venue, e)
  {
  }
}
