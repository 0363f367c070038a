/** The local pre-trade check, and why an order it admits passes the engine's risk checks later on. */
module Admission {
  import opened Types
  import opened Sums
  import opened BookModel
  import opened Positions
  import opened EngineModel
  import opened AgreementLemmas
  import opened Exchange
  import opened Exposure
  import opened DeltaStream
  import opened ReplicaModel
  import opened ManagerModel
  import opened ManagerSimulation

  /** Open orders other than the one being replaced. */
  function Others(g: Manager, c: Message): map<OrderId, Message> {
    if c.action == Replace then g.orders - {c.orderId} else g.orders
  }

  ghost function OpenBy(orders: map<OrderId, Message>, i: InstrumentId, side: Side): map<OrderId, int> {
    map o | o in orders && orders[o].instrumentId == i && orders[o].side == side :: orders[o].quantity
  }

  ghost function ReservedBy(orders: map<OrderId, Message>, i: InstrumentId, side: Side): int {
    Total(OpenBy(orders, i, side))
  }

  /** The price at which the position is marked: the middle of the book if it has two sides. */
  function MarkPrice(g: Manager, c: Message, market: Replica): real {
    var b := BookAt(market.books, c.instrumentId);
    if b.bids != [] && b.asks != [] then (b.bids[0].price as real + b.asks[0].price as real) / 2.0
    else if c.price != 0 then c.price as real
    else Held(g, c.instrumentId).averagePrice
  }

  /** The local check of a command before it is sent. */
  ghost function LocalRefusal(g: Manager, c: Message, limits: Rules, market: Replica, maxLoss: real): Reject {
    var p := Held(g, c.instrumentId);
    if c.action == Cancel || c.action == CancelAll then NoReject
    else if !market.synchronized then KillSwitch
    else if c.quantity == 0 || c.quantity > limits.maxOrderQuantity then RiskQuantity
    else if Pnl(p, MarkPrice(g, c, market)) < -maxLoss then KillSwitch
    else if RiskPrice(c, limits) * c.quantity > limits.maxNotional then RiskNotional
    else if |Others(g, c)| >= limits.maxOpenOrders then RiskOpenOrders
    else if Abs(p.quantity + c.side.Sign() * (ReservedBy(Others(g, c), c.instrumentId, c.side) + c.quantity))
            > limits.maxPosition
    then RiskPosition
    else NoReject
  }

  // ---- The manager's figures are the engine's -----------------------------

  /** The engine's orders of one client, by client order ID. */
  ghost predicate Listed(resting: map<OrderId, Message>, byClient: map<Key, OrderId>, orders: map<OrderId, Message>, k: ClientId) {
    forall o: OrderId ::
      (if o in orders then Some(ViewOf(orders[o])) else None) == OpenView(resting, byClient, k, o)
  }

  /** Same number of orders and same reservations, whichever side keeps the list. */
  lemma {:induction false} FiguresAgree(resting: map<OrderId, Message>, byClient: map<Key, OrderId>,
                                        orders: map<OrderId, Message>, k: ClientId, i: InstrumentId, side: Side)
    requires Indexed(resting, byClient) && Listed(resting, byClient, orders, k)
    ensures |OpenOrders(resting, k)| == |orders|
    ensures Reserved(resting, k, i, side) == ReservedBy(orders, i, side)
    decreases |orders|
  {
    if orders == map[] {
      NobodyListed(resting, byClient, k, i, side);
    } else {
      hide Listed, Reserved, ReservedBy, Indexed, OpenOrders;
      var o := Pick(orders.Keys);
      OneFewer(resting, byClient, orders, k, o);
      var id := byClient[(k, o)];
      IndexedRemove(resting, byClient, id);
      assert (orders - {o}).Keys == orders.Keys - {o};
      FiguresAgree(resting - {id}, byClient - {(k, o)}, orders - {o}, k, i, side);
      ReservedRemove(resting, id, k, i, side);
      ReservedByRemove(orders, o, i, side);
      OpenOrdersRemove(resting, id, k);
    }
  }

  lemma OpenOrdersRemove(resting: map<OrderId, Message>, id: OrderId, k: ClientId)
    requires id in resting && resting[id].clientId == k
    ensures |OpenOrders(resting, k)| == |OpenOrders(resting - {id}, k)| + 1
  {
    assert OpenOrders(resting, k) == OpenOrders(resting - {id}, k) + {id};
  }

  lemma NobodyListed(resting: map<OrderId, Message>, byClient: map<Key, OrderId>, k: ClientId, i: InstrumentId, side: Side)
    requires Indexed(resting, byClient) && Listed(resting, byClient, map[], k)
    ensures |OpenOrders(resting, k)| == 0
    ensures Reserved(resting, k, i, side) == ReservedBy(map[], i, side)
  {
    forall id | id in resting ensures resting[id].clientId != k {
      assert byClient[OwnerKey(resting[id])] == id;
      assert OpenView(resting, byClient, k, resting[id].orderId) == None;
    }
    assert OpenOrders(resting, k) == {};
    assert Open(resting, k, i, side) == map[];
    assert OpenBy(map[], i, side) == map[];
  }

  lemma OneFewer(resting: map<OrderId, Message>, byClient: map<Key, OrderId>, orders: map<OrderId, Message>, k: ClientId, o: OrderId)
    requires Indexed(resting, byClient) && Listed(resting, byClient, orders, k) && o in orders
    ensures (k, o) in byClient && byClient[(k, o)] in resting && OwnerKey(resting[byClient[(k, o)]]) == (k, o)
    ensures ViewOf(orders[o]) == ViewOf(resting[byClient[(k, o)]])
    ensures Listed(resting - {byClient[(k, o)]}, byClient - {(k, o)}, orders - {o}, k)
  {
    assert OpenView(resting, byClient, k, o).Some?;
    var id := byClient[(k, o)];
    forall x: OrderId
      ensures (if x in orders - {o} then Some(ViewOf(orders[x])) else None) == OpenView(resting - {id}, byClient - {(k, o)}, k, x)
    {
      ViewRemove(resting, byClient, id, k, x);
      assert (if x in orders then Some(ViewOf(orders[x])) else None) == OpenView(resting, byClient, k, x);
    }
  }

  lemma ReservedByRemove(orders: map<OrderId, Message>, o: OrderId, i: InstrumentId, side: Side)
    requires o in orders
    ensures ReservedBy(orders, i, side) == ReservedBy(orders - {o}, i, side)
            + if orders[o].instrumentId == i && orders[o].side == side then orders[o].quantity else 0
  {
    var a := OpenBy(orders, i, side);
    assert OpenBy(orders - {o}, i, side) == a - {o};
    if o in a {
      TotalRemove(a, o);
    } else {
      assert a - {o} == a;
    }
  }

  // ---- Time passes --------------------------------------------------------

  /**
   What other clients can do to a client between two of its commands: trade with
   its resting orders. Per instrument, bought quantity leaves the bids and sold
   quantity leaves the asks.
   */
  ghost predicate OnlyFilled(s: Engine, s': Engine, k: ClientId) {
    && OpenOrders(s'.resting, k) <= OpenOrders(s.resting, k)
    && forall i: InstrumentId :: FilledOn(s, s', k, i)
  }

  ghost predicate FilledOn(s: Engine, s': Engine, k: ClientId, i: InstrumentId) {
    var bought := Reserved(s.resting, k, i, Bid) - Reserved(s'.resting, k, i, Bid);
    var sold := Reserved(s.resting, k, i, Ask) - Reserved(s'.resting, k, i, Ask);
    && bought >= 0 && sold >= 0
    && PositionOf(s'.positions, k, i).quantity == PositionOf(s.positions, k, i).quantity + bought - sold
  }

  lemma OnlyFilledChain(a: Engine, b: Engine, c: Engine, k: ClientId)
    requires OnlyFilled(a, b, k) && OnlyFilled(b, c, k)
    ensures OnlyFilled(a, c, k)
  {
    hide Reserved, PositionOf;
    forall i: InstrumentId ensures FilledOn(a, c, k, i) {
      assert FilledOn(a, b, k, i) && FilledOn(b, c, k, i);
    }
  }

  lemma OnlyFilledSame(s: Engine, s': Engine, k: ClientId)
    requires OpenOrders(s'.resting, k) == OpenOrders(s.resting, k)
    requires forall i, side :: Reserved(s'.resting, k, i, side) == Reserved(s.resting, k, i, side)
    requires forall i :: PositionOf(s'.positions, k, i) == PositionOf(s.positions, k, i)
    ensures OnlyFilled(s, s', k)
  {
    hide Reserved, PositionOf;
    forall i: InstrumentId ensures FilledOn(s, s', k, i) {
    }
  }

  lemma MatchOneFills(st: Step, c: Message, leaves: Quantity, k: ClientId)
    requires Ready(st.engine, c) && OppositeQueue(st.engine, c) != [] && leaves > 0 && k != c.clientId
    ensures Matchable(st.engine, c)
    ensures OnlyFilled(st.engine, MatchOne(st, c, leaves).engine, k)
  {
    hide Core, MatchOne, Settle, ExecuteOrder, Reserved, PositionOf;
    FrontKnown(st.engine, c);
    MatchOneParts(st, c, leaves);
    var s := st.engine;
    var s' := MatchOne(st, c, leaves).engine;
    var front := Front(s, c);
    var size := Min(leaves, front.quantity);
    forall i: InstrumentId ensures FilledOn(s, s', k, i) {
      ReservedExecute(s.resting, front.id, size, k, i, Bid);
      ReservedExecute(s.resting, front.id, size, k, i, Ask);
      SettleQuantity(s.positions, s.resting[front.id], c, front.price, size, k, i);
    }
  }

  lemma {:induction false} MatchAllFills(st: Step, c: Message, leaves: Quantity, k: ClientId)
    requires Ready(st.engine, c) && k != c.clientId
    ensures OnlyFilled(st.engine, MatchAll(st, c, leaves).engine, k)
    decreases leaves
  {
    hide Core, MatchOne, OnlyFilled;
    if CanMatch(st.engine, c, leaves) {
      FrontKnown(st.engine, c);
      MatchOneCore(st, c, leaves);
      MatchOneFills(st, c, leaves, k);
      var st1 := MatchOne(st, c, leaves);
      MatchAllFills(st1, c, leaves - Min(leaves, Front(st.engine, c).quantity), k);
      OnlyFilledChain(st.engine, st1.engine, MatchAll(st, c, leaves).engine, k);
    } else {
      NothingFilled(st.engine, k);
    }
  }

  lemma NothingFilled(s: Engine, k: ClientId)
    ensures OnlyFilled(s, s, k)
  {
    hide Reserved, PositionOf;
    forall i: InstrumentId ensures FilledOn(s, s, k, i) {
    }
  }

  /** Changes to orders of another client are invisible here. */
  lemma OtherRemoved(s: Engine, s': Engine, id: OrderId, k: ClientId)
    requires id in s.resting ==> s.resting[id].clientId != k
    requires s'.resting == s.resting - {id}
    requires forall i :: PositionOf(s'.positions, k, i) == PositionOf(s.positions, k, i)
    ensures OnlyFilled(s, s', k)
  {
    hide Reserved, PositionOf;
    assert OpenOrders(s'.resting, k) == OpenOrders(s.resting, k);
    forall i: InstrumentId ensures FilledOn(s, s', k, i) {
      ReservedRemove(s.resting, id, k, i, Bid);
      ReservedRemove(s.resting, id, k, i, Ask);
    }
  }

  lemma OtherAdded(s: Engine, s': Engine, id: OrderId, m: Message, k: ClientId)
    requires id !in s.resting && m.clientId != k
    requires s'.resting == s.resting[id := m]
    requires forall i :: PositionOf(s'.positions, k, i) == PositionOf(s.positions, k, i)
    ensures OnlyFilled(s, s', k)
  {
    hide Reserved, PositionOf;
    assert OpenOrders(s'.resting, k) == OpenOrders(s.resting, k);
    forall i: InstrumentId ensures FilledOn(s, s', k, i) {
      ReservedInsert(s.resting, id, m, k, i, Bid);
      ReservedInsert(s.resting, id, m, k, i, Ask);
    }
  }

  lemma EnterFills(st: Step, c: Message, prior: OrderId, k: ClientId)
    requires Admissible(st.engine, c, prior) && k != c.clientId
    ensures OnlyFilled(st.engine, Enter(st, c, prior).engine, k)
  {
    hide BooksOk, Agreement, Indexed, HasAccounts, Balanced, AllSound, RiskRefusal, BookRefusal, Accept, MatchAll, Leaves, Crosses, OnlyFilled, PositionOf, Add;
    AdmissibleParts(st, c, prior);
    AcceptParts(st, c, prior);
    var s := st.engine;
    var m := Incoming(s, c);
    var st1 := Accept(st, c, prior);
    OtherRemoved(s, st1.engine, prior, k);
    MatchAllFills(st1, m, c.quantity, k);
    MatchAllStops(st1, m, c.quantity);
    var st2 := MatchAll(st1, m, c.quantity);
    OnlyFilledChain(s, st1.engine, st2.engine, k);
    var left := Leaves(c, OppositeQueue(s, c), c.quantity);
    var s' := Enter(st, c, prior).engine;
    if Rests(m, left) {
      OtherAdded(st2.engine, s', m.exchangeId, m.(quantity := left, remaining := left), k);
    } else {
      OnlyFilledSame(st2.engine, s', k);
    }
    OnlyFilledChain(s, st2.engine, s', k);
  }

  lemma AmendFills(st: Step, c: Message, prior: OrderId, k: ClientId)
    requires KeepsPriority(st.engine, c, prior) && Live(st.engine, prior) && st.engine.resting[prior].clientId != k
    ensures OnlyFilled(st.engine, Amend(st, c, prior).engine, k)
  {
    hide Reserved, PositionOf, Amend;
    AmendParts(st, c, prior);
    var s := st.engine;
    var s' := Amend(st, c, prior).engine;
    var m := s.resting[prior];
    assert OpenOrders(s'.resting, k) == OpenOrders(s.resting, k);
    forall i: InstrumentId ensures FilledOn(s, s', k, i) {
      ReservedRemove(s.resting, prior, k, i, Bid);
      ReservedRemove(s.resting, prior, k, i, Ask);
      ReservedRemove(s'.resting, prior, k, i, Bid);
      ReservedRemove(s'.resting, prior, k, i, Ask);
      assert s'.resting - {prior} == s.resting - {prior};
    }
  }

  lemma SubmitFills(st: Step, c: Message, prior: OrderId, k: ClientId)
    requires Submittable(st.engine, c, prior) && k != c.clientId
    ensures OnlyFilled(st.engine, Submit(st, c, prior).engine, k)
  {
    hide Core, RiskRefusal, BookRefusal, Enter, Amend, Submit, OnlyFilled, Reserved;
    SubmitCases(st, c, prior);
    var r := Submit(st, c, prior);
    var s := st.engine;
    if Admissible(s, c, prior) && r == Enter(st, c, prior) {
      EnterFills(st, c, prior, k);
    } else if KeepsPriority(s, c, prior) && Live(s, prior) && r == Amend(st, c, prior) {
      AmendFills(st, c, prior, k);
    } else {
      OnlyFilledSame(s, r.engine, k);
    }
  }

  lemma CancelFills(st: Step, id: OrderId, request: nat, k: ClientId)
    requires Live(st.engine, id) && st.engine.resting[id].clientId != k
    ensures OnlyFilled(st.engine, CancelResting(st, id, request).engine, k)
  {
    hide OnlyFilled;
    OtherRemoved(st.engine, CancelResting(st, id, request).engine, id, k);
  }

  lemma {:induction false} CancelAllFills(st: Step, ids: seq<OrderId>, request: nat, k: ClientId)
    requires forall id | id in ids && id in st.engine.resting :: st.engine.resting[id].clientId != k
    ensures OnlyFilled(st.engine, CancelAllOf(st, ids, request).engine, k)
    decreases |ids|
  {
    hide OnlyFilled;
    if ids == [] {
      NothingFilled(st.engine, k);
    } else {
      assert ids[0] in ids;
      if Live(st.engine, ids[0]) {
        CancelFills(st, ids[0], request, k);
        var st1 := CancelResting(st, ids[0], request);
        CancelAllFills(st1, ids[1..], request, k);
        OnlyFilledChain(st.engine, st1.engine, CancelAllOf(st, ids, request).engine, k);
      } else {
        CancelAllFills(st, ids[1..], request, k);
      }
    }
  }

  lemma BusinessFills(st: Step, c: Message, k: ClientId)
    requires Core(st.engine) && c.clientId != 0 && c.clientId in st.engine.clients && k != c.clientId
    ensures OnlyFilled(st.engine, Business(st, c).engine, k)
  {
    hide BooksOk, Agreement, Issued, HasAccounts, Balanced, AllSound, Submit, CancelResting, CancelAllOf, SortedKeys, OnlyFilled, Reserved;
    var s := st.engine;
    BookKeys(s);
    match c.action
    case New => SubmitFills(st, c, 0, k);
    case CancelAll => CancelAllFills(st, OrdersOf(s, c.clientId, c.instrumentId), c.requestId, k);
    case Cancel =>
      if Addressed(s, c) {
        CancelFills(st, s.byClient[OwnerKey(c)], c.requestId, k);
      } else {
        OnlyFilledSame(s, Business(st, c).engine, k);
      }
    case Replace =>
      if Addressed(s, c) {
        SubmitFills(st, c, s.byClient[OwnerKey(c)], k);
      } else {
        OnlyFilledSame(s, Business(st, c).engine, k);
      }
    case Snapshot => OnlyFilledSame(s, Business(st, c).engine, k);
    case Status => OnlyFilledSame(s, Business(st, c).engine, k);
  }

  lemma PerformFills(s: Engine, c: Message, k: ClientId)
    requires Core(s) && Effective(s, c) && k != c.clientId
    ensures OnlyFilled(s, Perform(s, c).engine, k)
  {
    hide Core, Business, Completion, OnlyFilled, Reserved, Private;
    BeginCore(s, c);
    BusinessCore(Begin(s, c), c);
    BusinessFills(Begin(s, c), c, k);
    var done := Business(Begin(s, c), c).engine;
    OnlyFilledSame(s, Begin(s, c).engine, k);
    OnlyFilledSame(done, Perform(s, c).engine, k);
    OnlyFilledChain(s, Begin(s, c).engine, done, k);
    OnlyFilledChain(s, done, Perform(s, c).engine, k);
  }

  /** A command of someone else can only fill a client's resting orders. */
  lemma ProcessFills(s: Engine, c: Message, k: ClientId)
    requires Core(s) && k != c.clientId
    ensures OnlyFilled(s, Process(s, c).engine, k)
  {
    hide Core, Perform, Answer, OnlyFilled, Reserved;
    if Effective(s, c) {
      PerformFills(s, c, k);
    } else {
      AnswerKeeps(s, c);
      OnlyFilledSame(s, Answer(s, c).engine, k);
    }
  }

  lemma {:induction false} AfterFills(s: Engine, commands: seq<Message>, k: ClientId)
    requires Inv(s) && forall c | c in commands :: c.clientId != k
    ensures OnlyFilled(s, After(s, commands), k)
    decreases |commands|
  {
    hide Core, Bounded, Process, OnlyFilled;
    if commands == [] {
      NothingFilled(s, k);
    } else {
      assert commands[0] in commands;
      ProcessKeepsInv(s, commands[0]);
      ProcessFills(s, commands[0], k);
      var s1 := Process(s, commands[0]).engine;
      AfterFills(s1, commands[1..], k);
      OnlyFilledChain(s, s1, After(s, commands), k);
    }
  }

  // ---- Stability ----------------------------------------------------------

  predicate RiskReason(why: Reject) {
    why == RiskQuantity || why == RiskNotional || why == RiskOpenOrders || why == RiskPosition
  }

  lemma CountMonotone(a: set<OrderId>, b: set<OrderId>)
    requires a <= b
    ensures |a| <= |b|
  {
    assert b == a + (b - a);
  }

  /** The exposure bound keeps the worst case admissible while own orders are being filled. */
  lemma WorstCaseStable(s: Engine, s': Engine, c: Message)
    requires Bounded(s') && c.instrumentId in s'.instruments && s'.instruments == s.instruments
    requires OnlyFilled(s, s', c.clientId)
    requires s.instruments[c.instrumentId].maxPosition >= Abs(
      PositionOf(s.positions, c.clientId, c.instrumentId).quantity
      + c.side.Sign() * (Reserved(s.resting, c.clientId, c.instrumentId, c.side) + c.quantity))
    ensures Abs(PositionOf(s'.positions, c.clientId, c.instrumentId).quantity
                + c.side.Sign() * (Reserved(s'.resting, c.clientId, c.instrumentId, c.side) + c.quantity))
            <= s.instruments[c.instrumentId].maxPosition
  {
    hide Reserved, PositionOf;
    assert FilledOn(s, s', c.clientId, c.instrumentId);
    assert WithinLimit(s', c.clientId, c.instrumentId);
    ReservedNonNegative(s'.resting, c.clientId, c.instrumentId, Bid);
    ReservedNonNegative(s'.resting, c.clientId, c.instrumentId, Ask);
  }

  lemma ManagerFigures(g: Manager, s: Engine, k: ClientId, i: InstrumentId, side: Side)
    requires Core(s) && Agrees(g, s, k)
    ensures |g.orders| == |OpenOrders(s.resting, k)|
    ensures ReservedBy(g.orders, i, side) == Reserved(s.resting, k, i, side)
    ensures Held(g, i).quantity == PositionOf(s.positions, k, i).quantity
  {
    hide BooksOk, Agreement, Issued, HasAccounts, Balanced, AllSound, Reserved, ReservedBy;
    forall o: OrderId
      ensures (if o in g.orders then Some(ViewOf(g.orders[o])) else None) == OpenView(s.resting, s.byClient, k, o)
    {
      assert Seen(g, o) == OpenView(s.resting, s.byClient, k, o);
    }
    FiguresAgree(s.resting, s.byClient, g.orders, k, i, side);
  }

  /**
   A new order that passes the local check of an agreeing manager is refused by the
   engine for none of the four risk reasons, whatever other clients do in between.
   */
  lemma LocalAdmissionIsStable(g: Manager, s: Engine, c: Message, market: Replica, maxLoss: real, between: seq<Message>)
    requires Inv(s) && Agrees(g, s, c.clientId) && c.action == New && c.instrumentId in s.instruments
    requires LocalRefusal(g, c, s.instruments[c.instrumentId], market, maxLoss) == NoReject
    requires forall m | m in between :: m.clientId != c.clientId
    ensures var s' := After(s, between); Core(s') && !RiskReason(RiskRefusal(s', c, 0))
  {
    hide BooksOk, Agreement, Indexed, Issued, HasAccounts, Balanced, AllSound, Agrees, Reserved, ReservedBy, OpenOrders, Bounded, After, PositionOf, Held, Pnl, MarkPrice;
    var k := c.clientId;
    var s' := After(s, between);
    AfterFills(s, between, k);
    AfterConfig(s, between);
    ManagerFigures(g, s, k, c.instrumentId, c.side);
    WorstCaseStable(s, s', c);
    CountMonotone(OpenOrders(s'.resting, k), OpenOrders(s.resting, k));
    NumbersAreIssued(s');
    assert s'.resting - {0} == s'.resting;
  }

  lemma NumbersAreIssued(s: Engine)
    requires Core(s)
    ensures 0 !in s.resting
  {
  }
}
