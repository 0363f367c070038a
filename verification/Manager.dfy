/**
 The client's order manager: open orders and positions rebuilt from the private
 reports of one client, and the proof that they are exactly the engine's.
 */
module ManagerModel {
  import opened Types
  import opened BookModel
  import opened Positions
  import opened EngineModel
  import opened AgreementLemmas
  import opened Exchange
  import opened Refinement
  import opened Sequencing

  datatype Manager = Manager(
    lastReport: nat,
    orders: map<OrderId, Message>,
    positions: map<InstrumentId, Position>)

  const NEW_MANAGER := Manager(0, map[], map[])

  function Held(g: Manager, i: InstrumentId): Position {
    if i in g.positions then g.positions[i] else FLAT
  }

  /** Sets what is left of an order, dropping it when nothing is. */
  function Adjust(orders: map<OrderId, Message>, id: OrderId, remaining: Quantity): map<OrderId, Message> {
    if id !in orders then orders
    else if remaining == 0 then orders - {id}
    else orders[id := orders[id].(quantity := remaining)]
  }

  /** The manager ignores what is no report, a status answer, or already seen. */
  predicate Ignores(g: Manager, m: Message) {
    m.kind != Report || m.report == StatusReport || m.sequence <= g.lastReport
  }

  function Consume(g: Manager, m: Message): Manager {
    if Ignores(g, m) then g else
    var h := g.(lastReport := m.sequence);
    match m.report
    case Accepted => h.(orders := g.orders[m.orderId := m.(quantity := m.remaining)])
    case Replaced => h.(orders := g.orders[m.orderId := m.(quantity := m.remaining)])
    case Fill => h.(
      positions := g.positions[m.instrumentId := Positions.Fill(Held(g, m.instrumentId), m.side, m.price, m.quantity)],
      orders := Adjust(g.orders, m.orderId, m.remaining))
    case Cancelled => h.(orders := g.orders - {m.orderId})
    case Complete =>
      if m.reject == NoReject && m.orderId != 0 then h.(orders := Adjust(g.orders, m.orderId, m.remaining)) else h
    case Rejected => h
    case StatusReport => h
  }

  function ConsumeAll(g: Manager, reports: seq<Message>): Manager
    decreases |reports|
  {
    if reports == [] then g else ConsumeAll(Consume(g, reports[0]), reports[1..])
  }

  lemma {:induction false} ConsumeAppend(g: Manager, a: seq<Message>, b: seq<Message>)
    ensures ConsumeAll(g, a + b) == ConsumeAll(ConsumeAll(g, a), b)
    decreases |a|
  {
    hide Consume;
    if a == [] {
      assert a + b == b;
    } else {
      assert (a + b)[1..] == a[1..] + b;
      ConsumeAppend(Consume(g, a[0]), a[1..], b);
    }
  }

  /** Reports already seen change nothing, however often they come back. */
  lemma {:induction false} RedeliveryIgnored(g: Manager, reports: seq<Message>)
    requires forall m | m in reports :: m.sequence <= g.lastReport
    ensures ConsumeAll(g, reports) == g
    decreases |reports|
  {
    if reports != [] {
      assert reports[0] in reports;
      RedeliveryIgnored(g, reports[1..]);
    }
  }

  // ---- What both sides say about an order ---------------------------------

  datatype View = View(instrument: InstrumentId, side: Side, price: Price, left: Quantity)

  function ViewOf(m: Message): View {
    View(m.instrumentId, m.side, m.price, m.quantity)
  }

  function Seen(g: Manager, o: OrderId): Option<View> {
    if o in g.orders then Some(ViewOf(g.orders[o])) else None
  }

  function OpenView(resting: map<OrderId, Message>, byClient: map<Key, OrderId>, k: ClientId, o: OrderId): Option<View> {
    if (k, o) in byClient && byClient[(k, o)] in resting then Some(ViewOf(resting[byClient[(k, o)]])) else None
  }

  lemma ViewRemove(resting: map<OrderId, Message>, byClient: map<Key, OrderId>, id: OrderId, k: ClientId, o: OrderId)
    requires Indexed(resting, byClient) && id in resting
    ensures OpenView(resting - {id}, byClient - {OwnerKey(resting[id])}, k, o)
         == if (k, o) == OwnerKey(resting[id]) then None else OpenView(resting, byClient, k, o)
  {
    assert byClient[OwnerKey(resting[id])] == id;
    if (k, o) in byClient && byClient[(k, o)] in resting {
      assert OwnerKey(resting[byClient[(k, o)]]) == (k, o);
    }
  }

  lemma ViewExecute(resting: map<OrderId, Message>, byClient: map<Key, OrderId>, id: OrderId, size: Quantity, k: ClientId, o: OrderId)
    requires Indexed(resting, byClient) && id in resting && size <= resting[id].quantity
    ensures var byClient' := if size == resting[id].quantity then byClient - {OwnerKey(resting[id])} else byClient;
            OpenView(AfterExecute(resting, id, size), byClient', k, o)
              == if (k, o) != OwnerKey(resting[id]) then OpenView(resting, byClient, k, o)
                 else if size == resting[id].quantity then None
                 else Some(ViewOf(resting[id]).(left := resting[id].quantity - size))
    ensures OpenView(resting, byClient, resting[id].clientId, resting[id].orderId) == Some(ViewOf(resting[id]))
  {
    ViewRemove(resting, byClient, id, k, o);
    assert byClient[OwnerKey(resting[id])] == id;
    if (k, o) in byClient && byClient[(k, o)] in resting {
      assert OwnerKey(resting[byClient[(k, o)]]) == (k, o);
    }
  }

  // ---- Agreement ----------------------------------------------------------

  /** Same positions, and no report from the future. */
  ghost predicate SameHoldings(g: Manager, s: Engine, k: ClientId) {
    && (forall i: InstrumentId :: Held(g, i) == PositionOf(s.positions, k, i))
    && g.lastReport <= s.responseSequence
  }

  /** The manager holds exactly the engine's open orders and positions of client `k`. */
  ghost predicate Agrees(g: Manager, s: Engine, k: ClientId) {
    && SameHoldings(g, s, k)
    && forall o: OrderId :: Seen(g, o) == OpenView(s.resting, s.byClient, k, o)
  }

  /** The same while `m`, with `leaves` to go, is on its way through the book. */
  ghost predicate InFlight(g: Manager, s: Engine, m: Message, leaves: Quantity) {
    && SameHoldings(g, s, m.clientId)
    && OwnerKey(m) !in s.byClient
    && forall o: OrderId ::
         Seen(g, o) == if o != m.orderId then OpenView(s.resting, s.byClient, m.clientId, o)
                       else if leaves == 0 then None
                       else Some(View(m.instrumentId, m.side, m.price, leaves))
  }

  // ---- Single reports -----------------------------------------------------

  /** What the manager knows after the reports of a command so far. */
  ghost function Told(g: Manager, st: Step, k: ClientId): Manager {
    ConsumeAll(g, Private(st.batch.reports, k))
  }

  lemma ToldReport(g: Manager, st: Step, m: Message, kind: ReportType, reason: Reject, k: ClientId)
    ensures Told(g, EmitReport(st, m, kind, reason), k) ==
            if m.clientId == k
            then Consume(Told(g, st, k), StampReport(m, kind, reason, st.engine.epoch, st.engine.responseSequence + 1))
            else Told(g, st, k)
  {
    hide Consume;
    var r := StampReport(m, kind, reason, st.engine.epoch, st.engine.responseSequence + 1);
    PrivateAppend(st.batch.reports, [r], k);
    assert [r][1..] == [];
    assert Private([r], k) == if r.clientId == k then [r] else [];
    ConsumeAppend(g, Private(st.batch.reports, k), Private([r], k));
    assert ConsumeAll(Told(g, st, k), [r]) == Consume(Told(g, st, k), r);
  }

  lemma ToldSame(g: Manager, st: Step, st': Step, k: ClientId)
    requires st'.batch.reports == st.batch.reports
    ensures Told(g, st', k) == Told(g, st, k)
  {
  }

  lemma ConsumeFill(g: Manager, m: Message)
    requires !Ignores(g, m) && m.report == ReportType.Fill
    ensures var h := Consume(g, m);
            && h.lastReport == m.sequence
            && (forall i: InstrumentId :: Held(h, i) ==
                  if i == m.instrumentId then Positions.Fill(Held(g, i), m.side, m.price, m.quantity) else Held(g, i))
            && (forall o: OrderId :: Seen(h, o) ==
                  if o != m.orderId || Seen(g, o).None? then Seen(g, o)
                  else if m.remaining == 0 then None
                  else Some(Seen(g, o).value.(left := m.remaining)))
  {
    hide Positions.Fill;
  }

  lemma ConsumeOpen(g: Manager, m: Message)
    requires !Ignores(g, m) && (m.report == Accepted || m.report == Replaced)
    ensures var h := Consume(g, m);
            && h.lastReport == m.sequence && h.positions == g.positions
            && (forall o: OrderId :: Seen(h, o) ==
                  if o == m.orderId then Some(View(m.instrumentId, m.side, m.price, m.remaining)) else Seen(g, o))
  {
  }

  lemma ConsumeCancelled(g: Manager, m: Message)
    requires !Ignores(g, m) && m.report == Cancelled
    ensures var h := Consume(g, m);
            && h.lastReport == m.sequence && h.positions == g.positions
            && (forall o: OrderId :: Seen(h, o) == if o == m.orderId then None else Seen(g, o))
  {
  }

  lemma ConsumeComplete(g: Manager, m: Message)
    requires !Ignores(g, m) && m.report == Complete && m.reject == NoReject
    ensures var h := Consume(g, m);
            && h.lastReport == m.sequence && h.positions == g.positions
            && (forall o: OrderId :: Seen(h, o) ==
                  if o != m.orderId || o == 0 || Seen(g, o).None? then Seen(g, o)
                  else if m.remaining == 0 then None
                  else Some(Seen(g, o).value.(left := m.remaining)))
  {
  }

  // ---- One trade ----------------------------------------------------------

  lemma ToldTrade(g: Manager, st: Step, c: Message, id: OrderId, price: Price, size: Quantity, leaves: Quantity, k: ClientId)
    requires Tradable(st.engine, c, id, size) && size <= leaves
    requires st.engine.resting[id].clientId != c.clientId
    ensures var s := st.engine;
            var maker := MakerAfter(s, id, size);
            var execution := maker.(quantity := size, remaining := maker.quantity, tradeId := s.nextTrade);
            var taker := c.(price := price, quantity := size, remaining := leaves - size, tradeId := s.nextTrade);
            var t := Told(g, st, k);
            Told(g, TradeWith(st, c, id, price, size, leaves), k) ==
              if k == maker.clientId
              then Consume(t, StampReport(execution, ReportType.Fill, NoReject, s.epoch, s.responseSequence + 1))
              else if k == c.clientId
              then Consume(t, StampReport(taker, ReportType.Fill, NoReject, s.epoch, s.responseSequence + 2))
              else t
  {
    hide Consume, Told, StampReport, StampUpdate, Traded;
    var s := st.engine;
    var maker := MakerAfter(s, id, size);
    var execution := maker.(quantity := size, remaining := maker.quantity, tradeId := s.nextTrade);
    var taker := c.(price := price, quantity := size, remaining := leaves - size, tradeId := s.nextTrade);
    var st0 := st.(engine := Traded(s, c, id, price, size));
    TradedCounters(s, c, id, price, size);
    ToldSame(g, st, st0, k);
    ToldReport(g, st0, execution, ReportType.Fill, NoReject, k);
    var st1 := EmitReport(st0, execution, ReportType.Fill, NoReject);
    var st2 := EmitUpdate(st1, execution, ExecuteUpdate);
    ToldSame(g, st1, st2, k);
    ToldReport(g, st2, taker, ReportType.Fill, NoReject, k);
    var st3 := EmitReport(st2, taker, ReportType.Fill, NoReject);
    ToldSame(g, st3, EmitUpdate(st3, taker, TradeUpdate), k);
  }

  lemma TradedCounters(s: Engine, c: Message, id: OrderId, price: Price, size: Quantity)
    requires Tradable(s, c, id, size)
    ensures Traded(s, c, id, price, size).epoch == s.epoch
    ensures Traded(s, c, id, price, size).responseSequence == s.responseSequence
  {
  }

  lemma SettlePositions(h: Holdings, maker: Message, c: Message, price: Price, size: Quantity, k: ClientId, i: InstrumentId)
    requires (maker.clientId, c.instrumentId) in h && (c.clientId, c.instrumentId) in h && maker.clientId != c.clientId
    ensures PositionOf(Settle(h, maker, c, price, size), k, i) ==
            if i == c.instrumentId && k == maker.clientId then Positions.Fill(PositionOf(h, k, i), maker.side, price, size)
            else if i == c.instrumentId && k == c.clientId then Positions.Fill(PositionOf(h, k, i), c.side, price, size)
            else PositionOf(h, k, i)
  {
    hide Positions.Fill;
  }

  /** The parts of a trade that concern one client. */
  lemma MatchOneViews(st: Step, c: Message, leaves: Quantity, k: ClientId)
    requires Ready(st.engine, c) && OppositeQueue(st.engine, c) != [] && leaves > 0
    requires Matchable(st.engine, c) && st.engine.resting[Front(st.engine, c).id].clientId != c.clientId
    ensures var s := st.engine;
            var s' := MatchOne(st, c, leaves).engine;
            var front := Front(s, c);
            var size := Min(leaves, front.quantity);
            var m := s.resting[front.id];
            && s'.responseSequence == s.responseSequence + 2
            && m.price == front.price && m.instrumentId == c.instrumentId && 0 < size <= m.quantity
            && OpenView(s.resting, s.byClient, m.clientId, m.orderId) == Some(ViewOf(m))
            && (forall o: OrderId :: OpenView(s'.resting, s'.byClient, k, o) ==
                  if (k, o) != OwnerKey(m) then OpenView(s.resting, s.byClient, k, o)
                  else if size == m.quantity then None
                  else Some(ViewOf(m).(left := m.quantity - size)))
            && (forall i: InstrumentId :: PositionOf(s'.positions, k, i) ==
                  if i == c.instrumentId && k == m.clientId then Positions.Fill(PositionOf(s.positions, k, i), m.side, front.price, size)
                  else if i == c.instrumentId && k == c.clientId then Positions.Fill(PositionOf(s.positions, k, i), c.side, front.price, size)
                  else PositionOf(s.positions, k, i))
  {
    hide BooksOk, Agreement, Issued, HasAccounts, Balanced, AllSound, MatchOne, Settle, Positions.Fill, OpenView, AfterExecute, ExecuteOrder, PositionOf;
    FrontKnown(st.engine, c);
    MatchOneParts(st, c, leaves);
    MatchOneReports(st, c, leaves);
    var s := st.engine;
    var front := Front(s, c);
    var size := Min(leaves, front.quantity);
    var m := s.resting[front.id];
    forall o: OrderId {
      ViewExecute(s.resting, s.byClient, front.id, size, k, o);
    }
    forall i: InstrumentId {
      SettlePositions(s.positions, m, c, front.price, size, k, i);
    }
    ViewExecute(s.resting, s.byClient, front.id, size, k, 0);
  }

  lemma MatchOneReports(st: Step, c: Message, leaves: Quantity)
    requires Matchable(st.engine, c)
    ensures MatchOne(st, c, leaves).engine.responseSequence == st.engine.responseSequence + 2
  {
    hide Settle, ExecuteOrder;
  }

  /** A trade seen by anyone but the taker. */
  lemma MatchOneAgrees(g: Manager, st: Step, c: Message, leaves: Quantity, k: ClientId)
    requires Ready(st.engine, c) && OppositeQueue(st.engine, c) != [] && leaves > 0
    requires Matchable(st.engine, c) && st.engine.resting[Front(st.engine, c).id].clientId != c.clientId
    requires k != c.clientId && Agrees(Told(g, st, k), st.engine, k)
    ensures Agrees(Told(g, MatchOne(st, c, leaves), k), MatchOne(st, c, leaves).engine, k)
  {
    hide Core, Told, Consume, Held, Seen, OpenView, PositionOf, Positions.Fill, TradeWith;
    MatchOneViews(st, c, leaves, k);
    var s := st.engine;
    var front := Front(s, c);
    var size := Min(leaves, front.quantity);
    MatchOneTradable(s, c, leaves);
    ToldTrade(g, st, c, front.id, front.price, size, leaves, k);
    var t := Told(g, st, k);
    var maker := MakerAfter(s, front.id, size);
    var execution := maker.(quantity := size, remaining := maker.quantity, tradeId := s.nextTrade);
    if k == maker.clientId {
      ConsumeFill(t, StampReport(execution, ReportType.Fill, NoReject, s.epoch, s.responseSequence + 1));
    }
  }

  /** The same trade seen by the taker. */
  lemma MatchOneInFlight(g: Manager, st: Step, c: Message, leaves: Quantity)
    requires Ready(st.engine, c) && OppositeQueue(st.engine, c) != [] && leaves > 0
    requires Matchable(st.engine, c) && st.engine.resting[Front(st.engine, c).id].clientId != c.clientId
    requires InFlight(Told(g, st, c.clientId), st.engine, c, leaves)
    ensures InFlight(Told(g, MatchOne(st, c, leaves), c.clientId), MatchOne(st, c, leaves).engine, c,
                     leaves - Min(leaves, Front(st.engine, c).quantity))
  {
    hide Core, Told, Consume, Held, Seen, OpenView, PositionOf, Positions.Fill, TradeWith;
    var k := c.clientId;
    MatchOneViews(st, c, leaves, k);
    MatchOneFrame(st, c, leaves);
    var s := st.engine;
    var front := Front(s, c);
    var size := Min(leaves, front.quantity);
    MatchOneTradable(s, c, leaves);
    ToldTrade(g, st, c, front.id, front.price, size, leaves, k);
    var taker := c.(price := front.price, quantity := size, remaining := leaves - size, tradeId := s.nextTrade);
    ConsumeFill(Told(g, st, k), StampReport(taker, ReportType.Fill, NoReject, s.epoch, s.responseSequence + 2));
  }

  // ---- The whole sweep ----------------------------------------------------

  lemma {:induction false} SweepSameOwners(c: Message, a: map<OrderId, Message>, b: map<OrderId, Message>,
                                           queue: seq<Entry>, quantity: Quantity)
    requires forall e | e in queue :: e.id in a <==> e.id in b
    requires forall e | e in queue && e.id in a :: a[e.id].clientId == b[e.id].clientId
    ensures SweepRefusal(c, a, queue, quantity) == SweepRefusal(c, b, queue, quantity)
    decreases |queue|
  {
    if queue != [] {
      assert queue[0] in queue;
      SweepSameOwners(c, a, b, queue[1..], quantity - Min(quantity, queue[0].quantity));
    }
  }

  /** No order in the way of the sweep is the taker's own, and none will be. */
  lemma NoSelfTrade(st: Step, c: Message, leaves: Quantity)
    requires Ready(st.engine, c) && CanMatch(st.engine, c, leaves)
    requires SweepRefusal(c, st.engine.resting, OppositeQueue(st.engine, c), leaves) == NoReject
    ensures Matchable(st.engine, c)
    ensures st.engine.resting[Front(st.engine, c).id].clientId != c.clientId
    ensures var s' := MatchOne(st, c, leaves).engine;
            && c.instrumentId in s'.books
            && SweepRefusal(c, s'.resting, OppositeQueue(s', c), leaves - Min(leaves, Front(st.engine, c).quantity)) == NoReject
  {
    hide Core, MatchOne, SweepRefusal, Settle, ExecuteOrder;
    FrontKnown(st.engine, c);
    OthersStay(st.engine, c);
    var s := st.engine;
    var q := OppositeQueue(s, c);
    var size := Min(leaves, q[0].quantity);
    SweepNext(c, s.resting, q, leaves);
    MatchOneParts(st, c, leaves);
    MatchOneFrame(st, c, leaves);
    var s' := MatchOne(st, c, leaves).engine;
    NothingLeftToSweep(c, s'.resting, OppositeQueue(s', c));
    if size == q[0].quantity {
      SweepSameOwners(c, s.resting, s'.resting, q[1..], leaves - size);
    }
  }

  lemma SweepNext(c: Message, resting: map<OrderId, Message>, q: seq<Entry>, leaves: Quantity)
    requires q != [] && leaves != 0 && Crosses(c, q[0].price) && q[0].id in resting
    requires SweepRefusal(c, resting, q, leaves) == NoReject
    ensures resting[q[0].id].clientId != c.clientId
    ensures SweepRefusal(c, resting, q[1..], leaves - Min(leaves, q[0].quantity)) == NoReject
  {
  }

  lemma NothingLeftToSweep(c: Message, resting: map<OrderId, Message>, q: seq<Entry>)
    ensures SweepRefusal(c, resting, q, 0) == NoReject
  {
  }

  lemma OthersStay(s: Engine, c: Message)
    requires Ready(s, c) && OppositeQueue(s, c) != []
    ensures var q := OppositeQueue(s, c);
            forall e | e in q[1..] :: e.id in s.resting && e.id != q[0].id
  {
    var q := OppositeQueue(s, c);
    assert Consistent(s.books[c.instrumentId]);
    forall e | e in q[1..] ensures e.id in s.resting && e.id != q[0].id {
      assert e in s.books[c.instrumentId].Queue(c.side.Opposite());
    }
  }

  lemma {:induction false} MatchAllAgrees(g: Manager, st: Step, c: Message, leaves: Quantity, k: ClientId)
    requires Ready(st.engine, c) && k != c.clientId && Agrees(Told(g, st, k), st.engine, k)
    requires SweepRefusal(c, st.engine.resting, OppositeQueue(st.engine, c), leaves) == NoReject
    ensures Agrees(Told(g, MatchAll(st, c, leaves), k), MatchAll(st, c, leaves).engine, k)
    decreases leaves
  {
    hide Core, MatchOne, Agrees, Told, SweepRefusal;
    if CanMatch(st.engine, c, leaves) {
      FrontKnown(st.engine, c);
      MatchOneCore(st, c, leaves);
      NoSelfTrade(st, c, leaves);
      MatchOneAgrees(g, st, c, leaves, k);
      MatchAllAgrees(g, MatchOne(st, c, leaves), c, leaves - Min(leaves, Front(st.engine, c).quantity), k);
    }
  }

  lemma {:induction false} MatchAllInFlight(g: Manager, st: Step, c: Message, leaves: Quantity)
    requires Ready(st.engine, c) && InFlight(Told(g, st, c.clientId), st.engine, c, leaves)
    requires SweepRefusal(c, st.engine.resting, OppositeQueue(st.engine, c), leaves) == NoReject
    ensures InFlight(Told(g, MatchAll(st, c, leaves), c.clientId), MatchAll(st, c, leaves).engine, c,
                     Leaves(c, OppositeQueue(st.engine, c), leaves))
    decreases leaves
  {
    hide Core, MatchOne, InFlight, Told, SweepRefusal;
    if CanMatch(st.engine, c, leaves) {
      FrontKnown(st.engine, c);
      MatchOneCore(st, c, leaves);
      MatchOneFrame(st, c, leaves);
      NoSelfTrade(st, c, leaves);
      MatchOneInFlight(g, st, c, leaves);
      MatchAllInFlight(g, MatchOne(st, c, leaves), c, leaves - Min(leaves, Front(st.engine, c).quantity));
    }
  }
}
