/**
 Books reconstructed from a market-data feed: a routing table of displayed orders and one
 core book per venue, channel and symbol.

 `Apply` is the meaning of one event. A symbol filter restricts the books that are built,
 never the routing, because a follow-up message need not carry its symbol.
 */
module FeedModel {
  import opened Types
  import opened BookModel

  const MAX_CORE := 0xffff_ffff

  datatype EventType =
    | Metadata
    | Directory
    | AddEvent
    | Reduce
    | ExecuteEvent
    | Delete
    | ReplaceEvent
    | ExecuteRemaining
    | TradeEvent
    | Clear

  /** A normalised event; the fields that reconstruction does not read are not modelled. */
  datatype Event = Event(
    kind: EventType,
    channel: nat,
    symbol: string,
    orderId: OrderId,
    newOrderId: OrderId,
    side: Side,
    price: nat,
    quantity: nat,
    remaining: nat,
    maintainPriority: bool)

  datatype BookKey = BookKey(venue: string, channel: nat, symbol: string)
  datatype OrderKey = OrderKey(venue: string, channel: nat, id: OrderId)
  datatype Tracked = Tracked(book: BookKey, side: Side, price: nat, quantity: nat)

  type Routing = map<OrderKey, Tracked>
  type Shelves = map<BookKey, Book>

  datatype State = State(valid: bool, updates: nat, books: Shelves, orders: Routing)

  const START := State(true, 0, map[], map[])

  predicate Selected(filter: string, symbol: string) {
    filter == "" || filter == symbol
  }

  /** A price and quantity that the core book can represent. */
  predicate Representable(price: nat, quantity: nat) {
    0 < price <= MAX_CORE && 0 < quantity <= MAX_CORE
  }

  function BookFor(books: Shelves, k: BookKey): Book {
    if k in books then books[k] else EMPTY
  }

  // ---- One event ----------------------------------------------------------

  /** A new displayed order. */
  function ApplyAdd(filter: string, capacity: nat, st: State, venue: string, e: Event): (State, bool) {
    var key, bk := OrderKey(venue, e.channel, e.orderId), BookKey(venue, e.channel, e.symbol);
    var orders := st.orders[key := Tracked(bk, e.side, e.price, e.quantity)];
    if e.symbol == "" || key in st.orders || e.price == 0 || e.quantity == 0 then (st, false)
    else if !Selected(filter, e.symbol) then (st.(orders := orders), true)
    else if !Representable(e.price, e.quantity) then (st, false)
    else
      var r := Add(BookFor(st.books, bk), capacity, e.orderId, e.side, e.price, e.quantity);
      if r.1 != Ok then (st.(books := st.books[bk := BookFor(st.books, bk)]), false)
      else (st.(books := st.books[bk := r.0], updates := st.updates + 1, orders := orders), true)
  }

  /** The checks of a follow-up event that do not concern the core book. */
  predicate Routable(st: State, venue: string, e: Event, was: Tracked) {
    var key, next := OrderKey(venue, e.channel, e.orderId), OrderKey(venue, e.channel, e.newOrderId);
    match e.kind
    case Delete => true
    case Reduce => 0 < e.quantity <= was.quantity
    case ExecuteEvent => 0 < e.quantity <= was.quantity
    case ExecuteRemaining => e.quantity > 0 && e.remaining <= MAX_CORE
    case ReplaceEvent =>
      && (next == key || next !in st.orders) && e.price > 0 && e.quantity > 0
      && (e.maintainPriority ==> next == key && e.price == was.price)
    case _ => false
  }

  /** What a follow-up event does to the core book of its order. */
  function ChangeBook(capacity: nat, b: Book, e: Event, was: Tracked): (Book, bool) {
    match e.kind
    case Delete => var r := CancelOrder(b, e.orderId); (r.0, r.1 == Ok)
    case Reduce => var r := ExecuteOrder(b, e.orderId, e.quantity % (MAX_CORE + 1)); (r.0, r.1 == Ok)
    case ExecuteEvent => var r := ExecuteOrder(b, e.orderId, e.quantity % (MAX_CORE + 1)); (r.0, r.1 == Ok)
    case ExecuteRemaining =>
      if e.remaining == 0 then var r := CancelOrder(b, e.orderId); (r.0, r.1 == Ok)
      else if !Representable(was.price, e.remaining) then (b, false)
      else
        var r := ReplaceOrder(b, capacity, e.orderId, e.orderId, was.side, was.price, e.remaining, true);
        (r.0, r.1 == Ok)
    case ReplaceEvent =>
      if !Representable(e.price, e.quantity) then (b, false)
      else
        var r := ReplaceOrder(b, capacity, e.orderId, e.newOrderId, was.side, e.price, e.quantity, e.maintainPriority);
        (r.0, r.1 == Ok)
    case _ => (b, false)
  }

  /** What a follow-up event does to the routing table. */
  function ChangeRouting(orders: Routing, venue: string, e: Event, was: Tracked): Routing {
    var key, next := OrderKey(venue, e.channel, e.orderId), OrderKey(venue, e.channel, e.newOrderId);
    if e.kind.Delete? then orders - {key}
    else if e.kind.Reduce? || e.kind.ExecuteEvent? then
      if e.quantity >= was.quantity then orders - {key}
      else orders[key := was.(quantity := was.quantity - e.quantity)]
    else if e.kind.ExecuteRemaining? then
      if e.remaining == 0 then orders - {key} else orders[key := was.(quantity := e.remaining)]
    else if next == key then orders[key := was.(price := e.price, quantity := e.quantity)]
    else orders[next := was.(price := e.price, quantity := e.quantity)] - {key}
  }

  function ApplyChange(capacity: nat, st: State, venue: string, e: Event): (State, bool) {
    var key := OrderKey(venue, e.channel, e.orderId);
    if key !in st.orders then (st, false)
    else
      var was := st.orders[key];
      if (e.symbol != "" && was.book.symbol != e.symbol) || !Routable(st, venue, e, was) then (st, false)
      else if was.book !in st.books then (st.(orders := ChangeRouting(st.orders, venue, e, was)), true)
      else
        var (b, ok) := ChangeBook(capacity, st.books[was.book], e, was);
        if !ok then (st, false)
        else
          (st.(orders := ChangeRouting(st.orders, venue, e, was), books := st.books[was.book := b],
               updates := st.updates + 1), true)
  }

  /** A session restart forgets everything of the channel. */
  function ApplyClear(st: State, venue: string, channel: nat): State {
    st.(orders := map k | k in st.orders && !(k.venue == venue && k.channel == channel) :: st.orders[k],
        books := map k | k in st.books && !(k.venue == venue && k.channel == channel) :: st.books[k])
  }

  /** One event: the new state, and whether the stream is still good. */
  function Apply(filter: string, capacity: nat, st: State, venue: string, e: Event): (State, bool) {
    if venue == "" then (st, false)
    else if e.kind.Metadata? || e.kind.Directory? || e.kind.TradeEvent? then (st, true)
    else if e.kind.Clear? then (ApplyClear(st, venue, e.channel), true)
    else if e.kind.AddEvent? then ApplyAdd(filter, capacity, st, venue, e)
    else ApplyChange(capacity, st, venue, e)
  }

  /** A failed stream poisons the books for good. */
  function Consume(filter: string, capacity: nat, st: State, venue: string, e: Event): State {
    if !st.valid then st
    else
      var (t, ok) := Apply(filter, capacity, st, venue, e);
      if ok then t else t.(valid := false)
  }

  /** A stream of events, each with its venue. */
  type Stream = seq<(string, Event)>

  function Rebuild(filter: string, capacity: nat, stream: Stream): State {
    if stream == [] then START
    else
      var n := |stream| - 1;
      Consume(filter, capacity, Rebuild(filter, capacity, stream[..n]), stream[n].0, stream[n].1)
  }
}
