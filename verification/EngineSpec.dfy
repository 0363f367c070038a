/**
 The exchange as a state machine. Matching is stated the simple way: while the
 incoming order has quantity left, it trades with the best-priced, oldest order of
 the opposite side, and only what is left over afterwards comes to rest. The
 plan-then-commit engine in `Engine.dfy` is proved to do exactly this.
 */
module EngineModel {
  import opened Types
  import opened Sums
  import opened BookModel
  import opened Positions

  type Key = (ClientId, OrderId)

  datatype ClientState = ClientState(
    lastRequest: nat,
    maxOrderId: OrderId,
    lastCommand: Message,
    cached: seq<Message>)

  const NEW_CLIENT := ClientState(0, 0, BLANK, [])

  datatype Stats = Stats(commands: nat, rejected: nat, trades: nat, volume: nat)

  datatype Batch = Batch(reports: seq<Message>, updates: seq<Message>)

  datatype Engine = Engine(
    instruments: map<InstrumentId, Rules>,
    capacity: nat,
    books: map<InstrumentId, Book>,
    resting: map<OrderId, Message>,
    byClient: map<Key, OrderId>,
    clients: map<ClientId, ClientState>,
    positions: Holdings,
    epoch: nat,
    sequence: nat,
    responseSequence: nat,
    nextOrder: OrderId,
    nextTrade: nat,
    stats: Stats)

  /** An engine in the middle of a command, with the messages emitted so far. */
  datatype Step = Step(engine: Engine, batch: Batch)

  /** A fresh engine over the given instruments; every book has `capacity` slots. */
  function Fresh(instruments: map<InstrumentId, Rules>, capacity: nat, epoch: nat): Engine {
    Engine(instruments, capacity, map i | i in instruments :: EMPTY, map[], map[], map[], map[],
           epoch, 0, 0, 1, 1, Stats(0, 0, 0, 0))
  }

  // ---- Emitting messages --------------------------------------------------

  function StampReport(m: Message, kind: ReportType, reason: Reject, epoch: nat, n: nat): Message {
    m.(kind := Kind.Report, report := kind, reject := reason, epoch := epoch, sequence := n)
  }

  /** Public messages carry no client, request or client order ID. */
  function StampUpdate(m: Message, kind: UpdateType, epoch: nat, n: nat): Message {
    m.(kind := Delta, update := kind, epoch := epoch, sequence := n, clientId := 0, requestId := 0, orderId := 0)
  }

  function EmitReport(st: Step, m: Message, kind: ReportType, reason: Reject): Step {
    var n := st.engine.responseSequence + 1;
    Step(st.engine.(responseSequence := n),
         st.batch.(reports := st.batch.reports + [StampReport(m, kind, reason, st.engine.epoch, n)]))
  }

  function EmitUpdate(st: Step, m: Message, kind: UpdateType): Step {
    var n := st.engine.sequence + 1;
    Step(st.engine.(sequence := n),
         st.batch.(updates := st.batch.updates + [StampUpdate(m, kind, st.engine.epoch, n)]))
  }

  function Refuse(st: Step, c: Message, reason: Reject): Step {
    var s := st.engine.stats;
    EmitReport(st.(engine := st.engine.(stats := s.(rejected := s.rejected + 1))), c, Rejected, reason)
  }

  // ---- Cancelling ---------------------------------------------------------

  predicate Live(s: Engine, id: OrderId) {
    id in s.resting && s.resting[id].instrumentId in s.books
  }

  function OwnerKey(m: Message): Key {
    (m.clientId, m.orderId)
  }

  function CancelResting(st: Step, id: OrderId, request: nat): Step
    requires Live(st.engine, id)
  {
    var s := st.engine;
    var m := s.resting[id].(requestId := request, remaining := 0);
    var b := BookModel.CancelOrder(s.books[m.instrumentId], id).0;
    var st1 := EmitUpdate(st.(engine := s.(books := s.books[m.instrumentId := b])), m, CancelUpdate);
    var st2 := EmitReport(st1, m, Cancelled, NoReject);
    st2.(engine := st2.engine.(byClient := s.byClient - {OwnerKey(m)}, resting := s.resting - {id}))
  }

  function CancelAllOf(st: Step, ids: seq<OrderId>, request: nat): Step
    decreases |ids|
  {
    if ids == [] then st
    else if !Live(st.engine, ids[0]) then CancelAllOf(st, ids[1..], request)
    else CancelAllOf(CancelResting(st, ids[0], request), ids[1..], request)
  }

  /** A client's orders in increasing exchange ID, on one instrument or (zero) on all. */
  function OrdersOf(s: Engine, client: ClientId, i: InstrumentId): seq<OrderId> {
    SortedKeys(ClientOrders(s.resting, client, i))
  }

  function ClientOrders(resting: map<OrderId, Message>, client: ClientId, i: InstrumentId): set<OrderId> {
    set id | id in resting && resting[id].clientId == client && (i == 0 || resting[id].instrumentId == i)
  }

  // ---- Admission ----------------------------------------------------------

  /** The incoming order would trade with a resting order at `price`. */
  predicate Crosses(c: Message, price: Price) {
    c.orderType == Market || NoWorse(c.side, c.price, price)
  }

  predicate BadShape(c: Message, prior: OrderId) {
    || c.orderId == 0
    || (c.orderType == Market && (c.price != 0 || c.tif == GTC || c.postOnly))
    || (c.postOnly && c.tif != GTC)
    || (prior != 0 && (c.orderType != Limit || c.tif != GTC))
  }

  predicate BadLimitPrice(c: Message, r: Rules)
    requires r.tickSize != 0
  {
    c.orderType == Limit && (c.price < r.minPrice || c.price > r.maxPrice || c.price % r.tickSize != 0)
  }

  function RiskPrice(c: Message, r: Rules): Price {
    if c.orderType == Market then r.maxPrice else c.price
  }

  /** Open quantity of a client on one side of one instrument, order by order. */
  ghost function Open(resting: map<OrderId, Message>, client: ClientId, i: InstrumentId, side: Side)
    : map<OrderId, int>
  {
    map id | id in resting && resting[id].clientId == client && resting[id].instrumentId == i
             && resting[id].side == side
      :: resting[id].quantity
  }

  ghost function Reserved(resting: map<OrderId, Message>, client: ClientId, i: InstrumentId, side: Side): int {
    Total(Open(resting, client, i, side))
  }

  function OpenOrders(resting: map<OrderId, Message>, client: ClientId): set<OrderId> {
    set id | id in resting && resting[id].clientId == client
  }

  /** The position if everything reserved on this side and the new order were filled. */
  ghost function WorstPosition(s: Engine, c: Message, prior: OrderId): int {
    PositionOf(s.positions, c.clientId, c.instrumentId).quantity
      + c.side.Sign() * (Reserved(s.resting - {prior}, c.clientId, c.instrumentId, c.side) + c.quantity)
  }

  /** Quantity left after sweeping the opposite queue. */
  function Leaves(c: Message, queue: seq<Entry>, quantity: Quantity): (left: Quantity)
    ensures left <= quantity
  {
    if quantity == 0 || queue == [] || !Crosses(c, queue[0].price) then quantity
    else Leaves(c, queue[1..], quantity - Min(quantity, queue[0].quantity))
  }

  /** Why the sweep may not happen at all: it is post-only, or would reach an own order. */
  function SweepRefusal(c: Message, resting: map<OrderId, Message>, queue: seq<Entry>, quantity: Quantity): (why: Reject)
    ensures why == NoReject || why == PostOnly || why == SelfTrade
    ensures why == PostOnly ==> c.postOnly
  {
    if quantity == 0 || queue == [] || !Crosses(c, queue[0].price) then NoReject
    else if c.postOnly then PostOnly
    else if queue[0].id in resting && resting[queue[0].id].clientId == c.clientId then SelfTrade
    else SweepRefusal(c, resting, queue[1..], quantity - Min(quantity, queue[0].quantity))
  }

  predicate Rests(c: Message, left: Quantity) {
    left != 0 && c.tif == GTC && c.orderType == Limit
  }

  /** A replacement at the same price that does not grow keeps its place in the queue. */
  predicate KeepsPriority(s: Engine, c: Message, prior: OrderId) {
    && prior != 0 && prior in s.resting
    && s.resting[prior].price == c.price
    && c.quantity <= s.resting[prior].quantity
  }

  /** Refusals decided from the command, the rules and the client's own exposure. */
  ghost function RiskRefusal(s: Engine, c: Message, prior: OrderId): Reject
    requires forall i | i in s.instruments :: ValidRules(s.instruments[i])
  {
    if c.instrumentId !in s.instruments then UnknownInstrument else
    var r := s.instruments[c.instrumentId];
    assert ValidRules(r);
    if BadShape(c, prior) then InvalidCommand
    else if c.quantity == 0 || c.quantity % r.lotSize != 0 then InvalidQuantity
    else if BadLimitPrice(c, r) then InvalidPrice
    else if c.quantity > r.maxOrderQuantity then RiskQuantity
    else if RiskPrice(c, r) * c.quantity > r.maxNotional then RiskNotional
    else if prior == 0 && c.clientId in s.clients && c.orderId <= s.clients[c.clientId].maxOrderId
    then DuplicateOrder
    else if |OpenOrders(s.resting - {prior}, c.clientId)| >= r.maxOpenOrders then RiskOpenOrders
    else if Abs(WorstPosition(s, c, prior)) > r.maxPosition then RiskPosition
    else if prior != 0 && prior in s.resting
      && (s.resting[prior].instrumentId != c.instrumentId || s.resting[prior].side != c.side)
    then InvalidCommand
    else NoReject
  }

  /** Refusals decided from the book: post-only, self-trade, fill-or-kill, pool exhausted. */
  function BookRefusal(s: Engine, c: Message): Reject
    requires c.instrumentId in s.books
  {
    var book := s.books[c.instrumentId];
    var queue := book.Queue(c.side.Opposite());
    var left := Leaves(c, queue, c.quantity);
    if SweepRefusal(c, s.resting, queue, c.quantity) != NoReject
    then SweepRefusal(c, s.resting, queue, c.quantity)
    else if c.tif == FOK && left != 0 then Fok
    else if Rests(c, left) && book.Count() >= s.capacity then Capacity
    else NoReject
  }

  // ---- Matching -----------------------------------------------------------

  /** The best-priced, oldest opposite order exists and its owner is known. */
  predicate Matchable(s: Engine, c: Message) {
    && c.instrumentId in s.books
    && (c.clientId, c.instrumentId) in s.positions
    && var queue := s.books[c.instrumentId].Queue(c.side.Opposite());
    && queue != []
    && queue[0].id in s.resting
    && s.resting[queue[0].id].quantity == queue[0].quantity
    && (s.resting[queue[0].id].clientId, c.instrumentId) in s.positions
  }

  function Front(s: Engine, c: Message): Entry
    requires Matchable(s, c)
  {
    s.books[c.instrumentId].Queue(c.side.Opposite())[0]
  }

  /** The resting order `id` can be traded against by `c` for `size`. */
  predicate Tradable(s: Engine, c: Message, id: OrderId, size: Quantity) {
    && c.instrumentId in s.books
    && (c.clientId, c.instrumentId) in s.positions
    && id in s.resting
    && size <= s.resting[id].quantity
    && (s.resting[id].clientId, c.instrumentId) in s.positions
  }

  /** The maker's order after a trade. */
  function MakerAfter(s: Engine, id: OrderId, size: Quantity): Message
    requires id in s.resting && size <= s.resting[id].quantity
  {
    s.resting[id].(quantity := s.resting[id].quantity - size)
  }

  /** Books, owners, accounts and counters after a trade. */
  function Traded(s: Engine, c: Message, id: OrderId, price: Price, size: Quantity): Engine
    requires Tradable(s, c, id, size)
  {
    var maker := MakerAfter(s, id, size);
    var gone := maker.quantity == 0;
    s.(books := s.books[c.instrumentId := BookModel.ExecuteOrder(s.books[c.instrumentId], id, size).0],
       resting := if gone then s.resting - {id} else s.resting[id := maker],
       byClient := if gone then s.byClient - {OwnerKey(maker)} else s.byClient,
       positions := Settle(s.positions, maker, c, price, size),
       nextTrade := s.nextTrade + 1,
       stats := s.stats.(trades := s.stats.trades + 1, volume := s.stats.volume + size))
  }

  /** Both parties' reports and the two public messages of a trade. */
  function EmitTrade(st: Step, execution: Message, taker: Message): Step {
    var st1 := EmitUpdate(EmitReport(st, execution, ReportType.Fill, NoReject), execution, ExecuteUpdate);
    EmitUpdate(EmitReport(st1, taker, ReportType.Fill, NoReject), taker, TradeUpdate)
  }

  /** One trade of `c`, with `leaves` still to fill, against the resting order `id`. */
  function TradeWith(st: Step, c: Message, id: OrderId, price: Price, size: Quantity, leaves: Quantity): Step
    requires Tradable(st.engine, c, id, size) && size <= leaves
  {
    var s := st.engine;
    var maker := MakerAfter(s, id, size);
    EmitTrade(st.(engine := Traded(s, c, id, price, size)),
              maker.(quantity := size, remaining := maker.quantity, tradeId := s.nextTrade),
              c.(price := price, quantity := size, remaining := leaves - size, tradeId := s.nextTrade))
  }

  /** The order trades, at the maker's price, with the front of the opposite queue. */
  function MatchOne(st: Step, c: Message, leaves: Quantity): Step
    requires Matchable(st.engine, c)
  {
    var front := Front(st.engine, c);
    TradeWith(st, c, front.id, front.price, Min(leaves, front.quantity), leaves)
  }

  /** Books the two sides of a trade, the maker's first. */
  function Settle(h: Holdings, maker: Message, c: Message, price: Price, size: Quantity): Holdings
    requires (maker.clientId, c.instrumentId) in h && (c.clientId, c.instrumentId) in h
  {
    var h1 := h[(maker.clientId, c.instrumentId) :=
                Positions.Fill(h[(maker.clientId, c.instrumentId)], maker.side, price, size)];
    h1[(c.clientId, c.instrumentId) :=
       Positions.Fill(h1[(c.clientId, c.instrumentId)], c.side, price, size)]
  }

  // ---- Invariant ----------------------------------------------------------

  ghost predicate ConfigOk(instruments: map<InstrumentId, Rules>) {
    forall i | i in instruments :: i != 0 && ValidRules(instruments[i])
  }

  ghost predicate BooksOk(instruments: map<InstrumentId, Rules>, capacity: nat, books: map<InstrumentId, Book>) {
    && books.Keys == instruments.Keys
    && forall i | i in books :: Consistent(books[i]) && Uncrossed(books[i]) && books[i].Count() <= capacity
  }

  predicate Describes(m: Message, i: InstrumentId, side: Side, e: Entry) {
    m.instrumentId == i && m.side == side && m.price == e.price && m.quantity == e.quantity
  }

  /** Every book entry has its owner record, and every owner record its book entry. */
  ghost predicate Agreement(books: map<InstrumentId, Book>, resting: map<OrderId, Message>) {
    && (forall i, side, e | i in books && e in books[i].Queue(side) ::
          e.id in resting && Describes(resting[e.id], i, side, e))
    && (forall id | id in resting :: Booked(books, id, resting[id]))
  }

  predicate Booked(books: map<InstrumentId, Book>, id: OrderId, m: Message) {
    m.instrumentId in books && Entry(id, m.price, m.quantity) in books[m.instrumentId].Queue(m.side)
  }

  /** The client index is the inverse of ownership. */
  ghost predicate Indexed(resting: map<OrderId, Message>, byClient: map<Key, OrderId>) {
    && (forall id | id in resting :: OwnerKey(resting[id]) in byClient && byClient[OwnerKey(resting[id])] == id)
    && (forall k | k in byClient :: byClient[k] in resting && OwnerKey(resting[byClient[k]]) == k)
  }

  /** Identifiers in use were issued before: exchange IDs below the counter, client IDs up to the client's maximum. */
  ghost predicate Issued(resting: map<OrderId, Message>, clients: map<ClientId, ClientState>, nextOrder: OrderId) {
    && 0 < nextOrder
    && forall id | id in resting ::
         && 0 < id < nextOrder && resting[id].exchangeId == id
         && 0 < resting[id].clientId && resting[id].clientId in clients
         && 0 < resting[id].orderId <= clients[resting[id].clientId].maxOrderId
  }

  /** Every owner of a resting order has an account. */
  ghost predicate HasAccounts(resting: map<OrderId, Message>, positions: Holdings) {
    forall id | id in resting :: (resting[id].clientId, resting[id].instrumentId) in positions
  }

  /** Everything that holds between the steps of a command as well as between commands. */
  ghost predicate Core(s: Engine) {
    && ConfigOk(s.instruments)
    && BooksOk(s.instruments, s.capacity, s.books)
    && Agreement(s.books, s.resting)
    && Indexed(s.resting, s.byClient)
    && Issued(s.resting, s.clients, s.nextOrder)
    && HasAccounts(s.resting, s.positions)
    && Balanced(s.positions)
    && AllSound(s.positions)
  }

  /** Filling every open order on either side would keep the position within its limit. */
  ghost predicate WithinLimit(s: Engine, client: ClientId, i: InstrumentId)
    requires i in s.instruments
  {
    var p := PositionOf(s.positions, client, i).quantity;
    && p + Reserved(s.resting, client, i, Bid) <= s.instruments[i].maxPosition
    && p - Reserved(s.resting, client, i, Ask) >= -s.instruments[i].maxPosition
  }

  ghost predicate Bounded(s: Engine) {
    forall client: ClientId, i: InstrumentId | i in s.instruments :: WithinLimit(s, client, i)
  }

  ghost predicate Inv(s: Engine) {
    Core(s) && Bounded(s)
  }
}
