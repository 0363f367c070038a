/** The exposure bound, and the invariant of every reachable engine state. */
module Exposure {
  import opened Types
  import opened Sums
  import opened BookModel
  import opened Positions
  import opened EngineModel
  import opened AgreementLemmas
  import opened Exchange

  // ---- Reservations -------------------------------------------------------

  predicate Counts(m: Message, client: ClientId, i: InstrumentId, side: Side) {
    m.clientId == client && m.instrumentId == i && m.side == side
  }

  lemma ReservedRemove(resting: map<OrderId, Message>, id: OrderId, client: ClientId, i: InstrumentId, side: Side)
    ensures Reserved(resting - {id}, client, i, side) == Reserved(resting, client, i, side)
            - if id in resting && Counts(resting[id], client, i, side) then resting[id].quantity else 0
  {
    var o := Open(resting, client, i, side);
    if id in o {
      TotalRemove(o, id);
    }
    assert Open(resting - {id}, client, i, side) == o - {id};
    assert id !in o ==> o - {id} == o;
  }

  lemma ReservedInsert(resting: map<OrderId, Message>, id: OrderId, m: Message, client: ClientId, i: InstrumentId, side: Side)
    requires id !in resting
    ensures Reserved(resting[id := m], client, i, side) == Reserved(resting, client, i, side)
            + if Counts(m, client, i, side) then m.quantity else 0
  {
    ReservedRemove(resting[id := m], id, client, i, side);
    assert resting[id := m] - {id} == resting;
  }

  lemma ReservedExecute(resting: map<OrderId, Message>, id: OrderId, size: Quantity, client: ClientId, i: InstrumentId, side: Side)
    requires id in resting && size <= resting[id].quantity
    ensures Reserved(AfterExecute(resting, id, size), client, i, side) == Reserved(resting, client, i, side)
            - if Counts(resting[id], client, i, side) then size else 0
  {
    ReservedRemove(resting, id, client, i, side);
    if size != resting[id].quantity {
      var m := resting[id].(quantity := resting[id].quantity - size);
      ReservedInsert(resting - {id}, id, m, client, i, side);
      assert (resting - {id})[id := m] == resting[id := m];
    }
  }

  lemma ReservedNonNegative(resting: map<OrderId, Message>, client: ClientId, i: InstrumentId, side: Side)
    ensures Reserved(resting, client, i, side) >= 0
  {
    TotalNonNegative(Open(resting, client, i, side));
  }

  // ---- Positions ----------------------------------------------------------

  lemma SettleQuantity(h: Holdings, maker: Message, c: Message, price: Price, size: Quantity, client: ClientId, i: InstrumentId)
    requires (maker.clientId, c.instrumentId) in h && (c.clientId, c.instrumentId) in h
    ensures PositionOf(Settle(h, maker, c, price, size), client, i).quantity == PositionOf(h, client, i).quantity
            + (if client == maker.clientId && i == c.instrumentId then maker.side.Sign() * size else 0)
            + (if client == c.clientId && i == c.instrumentId then c.side.Sign() * size else 0)
  {
  }

  // ---- The bound while an order is on its way ----------------------------

  /** Quantity the incoming order may still trade, counted as if it were open. */
  function Pending(c: Message, leaves: Quantity, client: ClientId, i: InstrumentId, side: Side): nat {
    if Counts(c, client, i, side) then leaves else 0
  }

  ghost predicate CoveredFor(s: Engine, c: Message, leaves: Quantity, client: ClientId, i: InstrumentId)
    requires i in s.instruments
  {
    var p := PositionOf(s.positions, client, i).quantity;
    && p + Reserved(s.resting, client, i, Bid) + Pending(c, leaves, client, i, Bid) <= s.instruments[i].maxPosition
    && p - Reserved(s.resting, client, i, Ask) - Pending(c, leaves, client, i, Ask) >= -s.instruments[i].maxPosition
  }

  ghost predicate Covered(s: Engine, c: Message, leaves: Quantity) {
    forall client: ClientId, i: InstrumentId | i in s.instruments :: CoveredFor(s, c, leaves, client, i)
  }

  lemma CoveredBounds(s: Engine, c: Message, leaves: Quantity)
    requires Covered(s, c, leaves)
    ensures Bounded(s)
  {
    forall client: ClientId, i: InstrumentId | i in s.instruments ensures WithinLimit(s, client, i) {
      assert CoveredFor(s, c, leaves, client, i);
    }
  }

  /** A trade moves quantity from reservation to position, on both sides at once. */
  lemma MatchOneCovered(st: Step, c: Message, leaves: Quantity)
    requires Ready(st.engine, c) && OppositeQueue(st.engine, c) != [] && leaves > 0
    requires Covered(st.engine, c, leaves)
    ensures Matchable(st.engine, c)
    ensures Covered(MatchOne(st, c, leaves).engine, c, leaves - Min(leaves, OppositeQueue(st.engine, c)[0].quantity))
  {
    hide Core, MatchOne, Settle, ExecuteOrder, AfterExecute, Reserved;
    MatchOneParts(st, c, leaves);
    FrontKnown(st.engine, c);
    var s := st.engine;
    var s' := MatchOne(st, c, leaves).engine;
    var front := Front(s, c);
    var size := Min(leaves, front.quantity);
    var m := s.resting[front.id];
    var left := leaves - size;
    forall client: ClientId, i: InstrumentId | i in s'.instruments
      ensures CoveredFor(s', c, left, client, i)
    {
      assert CoveredFor(s, c, leaves, client, i);
      SettleQuantity(s.positions, m, c, front.price, size, client, i);
      ReservedExecute(s.resting, front.id, size, client, i, Bid);
      ReservedExecute(s.resting, front.id, size, client, i, Ask);
    }
  }

  lemma {:induction false} MatchAllCovered(st: Step, c: Message, leaves: Quantity)
    requires Ready(st.engine, c) && Covered(st.engine, c, leaves)
    ensures Covered(MatchAll(st, c, leaves).engine, c, Leaves(c, OppositeQueue(st.engine, c), leaves))
    decreases leaves
  {
    hide Core, MatchOne, Covered;
    if CanMatch(st.engine, c, leaves) {
      FrontKnown(st.engine, c);
      MatchOneCore(st, c, leaves);
      MatchOneFrame(st, c, leaves);
      MatchOneCovered(st, c, leaves);
      var q := OppositeQueue(st.engine, c);
      MatchAllCovered(MatchOne(st, c, leaves), c, leaves - Min(leaves, q[0].quantity));
    }
  }

  lemma AcceptCovered(st: Step, c: Message, prior: OrderId)
    requires Admissible(st.engine, c, prior) && Bounded(st.engine)
    ensures prior != 0 ==> Live(st.engine, prior)
    ensures Covered(Accept(st, c, prior).engine, Incoming(st.engine, c), c.quantity)
  {
    hide BooksOk, Agreement, Indexed, Issued, HasAccounts, Balanced, AllSound, Accept, BookRefusal, Reserved;
    AdmissibleParts(st, c, prior);
    AcceptParts(st, c, prior);
    var s := st.engine;
    var s' := Accept(st, c, prior).engine;
    var m := Incoming(s, c);
    assert Abs(WorstPosition(s, c, prior)) <= s.instruments[c.instrumentId].maxPosition;
    forall client: ClientId, i: InstrumentId | i in s'.instruments
      ensures CoveredFor(s', m, c.quantity, client, i)
    {
      assert WithinLimit(s, client, i);
      ReservedRemove(s.resting, prior, client, i, Bid);
      ReservedRemove(s.resting, prior, client, i, Ask);
    }
  }

  lemma RestBounded(st: Step, c: Message, left: Quantity)
    requires c.instrumentId in st.engine.books && c.exchangeId !in st.engine.resting
    requires Covered(st.engine, c, left)
    ensures Bounded(Rest(st, c.(quantity := left, remaining := left)).engine)
  {
    hide Reserved, Add;
    var s := st.engine;
    var m := c.(quantity := left, remaining := left);
    var s' := Rest(st, m).engine;
    forall client: ClientId, i: InstrumentId | i in s'.instruments ensures WithinLimit(s', client, i) {
      assert CoveredFor(s, c, left, client, i);
      ReservedInsert(s.resting, m.exchangeId, m, client, i, Bid);
      ReservedInsert(s.resting, m.exchangeId, m, client, i, Ask);
    }
  }

  lemma EnterBounded(st: Step, c: Message, prior: OrderId)
    requires Admissible(st.engine, c, prior) && Bounded(st.engine)
    ensures Bounded(Enter(st, c, prior).engine)
  {
    hide BooksOk, Agreement, Indexed, HasAccounts, Balanced, AllSound, RiskRefusal, BookRefusal, Accept, Covered, Bounded, Rest;
    AdmissibleParts(st, c, prior);
    AcceptParts(st, c, prior);
    AcceptCovered(st, c, prior);
    var s := st.engine;
    var m := Incoming(s, c);
    var st1 := Accept(st, c, prior);
    var left := Leaves(c, OppositeQueue(s, c), c.quantity);
    LeavesSame(c, m, OppositeQueue(s, c), c.quantity);
    MatchAllStops(st1, m, c.quantity);
    MatchAllCovered(st1, m, c.quantity);
    var st2 := MatchAll(st1, m, c.quantity);
    CoveredBounds(st2.engine, m, left);
    if Rests(m, left) {
      RestBounded(st2, m, left);
    } else {
      SameExposure(st2.engine, Finish(st2, m, left).engine);
    }
  }

  /** Counters, sessions and accounts opened flat do not matter to exposure. */
  lemma SameExposure(s: Engine, s': Engine)
    requires s'.instruments == s.instruments && s'.resting == s.resting
    requires forall k, i :: PositionOf(s'.positions, k, i) == PositionOf(s.positions, k, i)
    ensures Bounded(s) <==> Bounded(s')
  {
    hide Reserved;
    forall k: ClientId, i: InstrumentId | i in s.instruments ensures WithinLimit(s, k, i) <==> WithinLimit(s', k, i) {
    }
  }

  /** Orders that only shrink or go cannot raise exposure. */
  lemma ExecuteBounded(s: Engine, s': Engine, id: OrderId, size: Quantity)
    requires Bounded(s) && id in s.resting && size <= s.resting[id].quantity
    requires s'.instruments == s.instruments && s'.positions == s.positions
    requires s'.resting == AfterExecute(s.resting, id, size)
    ensures Bounded(s')
  {
    hide Reserved, AfterExecute;
    forall client: ClientId, i: InstrumentId | i in s'.instruments ensures WithinLimit(s', client, i) {
      assert WithinLimit(s, client, i);
      ReservedExecute(s.resting, id, size, client, i, Bid);
      ReservedExecute(s.resting, id, size, client, i, Ask);
    }
  }

  lemma SubmitBounded(st: Step, c: Message, prior: OrderId)
    requires Submittable(st.engine, c, prior) && Bounded(st.engine)
    ensures Bounded(Submit(st, c, prior).engine)
  {
    hide BooksOk, Agreement, Indexed, Issued, HasAccounts, Balanced, AllSound, RiskRefusal, BookRefusal, Enter, ExecuteOrder, Bounded, Submit;
    SubmitCases(st, c, prior);
    var s := st.engine;
    var r := Submit(st, c, prior);
    if Admissible(s, c, prior) && r == Enter(st, c, prior) {
      EnterBounded(st, c, prior);
    } else if KeepsPriority(s, c, prior) && Live(s, prior) && r == Amend(st, c, prior) {
      AmendBounded(st, c, prior);
    } else {
      OpenAccountBalances(s.positions, (c.clientId, c.instrumentId));
      SameExposure(s, r.engine);
    }
  }

  lemma AmendBounded(st: Step, c: Message, prior: OrderId)
    requires KeepsPriority(st.engine, c, prior) && Live(st.engine, prior) && Bounded(st.engine) && c.quantity > 0
    ensures Bounded(Amend(st, c, prior).engine)
  {
    hide Bounded, ExecuteOrder;
    var s := st.engine;
    var owned := s.resting[prior];
    if c.quantity == owned.quantity {
      assert s.resting[prior := owned.(quantity := c.quantity)] == s.resting;
      SameExposure(s, Amend(st, c, prior).engine);
    } else {
      ExecuteBounded(s, Amend(st, c, prior).engine, prior, owned.quantity - c.quantity);
    }
  }

  lemma CancelBounded(st: Step, id: OrderId, request: nat)
    requires Live(st.engine, id) && Bounded(st.engine)
    ensures Bounded(CancelResting(st, id, request).engine)
  {
    hide Bounded;
    ExecuteBounded(st.engine, CancelResting(st, id, request).engine, id, st.engine.resting[id].quantity);
  }

  lemma {:induction false} CancelAllBounded(st: Step, ids: seq<OrderId>, request: nat)
    requires Bounded(st.engine)
    ensures Bounded(CancelAllOf(st, ids, request).engine)
    decreases |ids|
  {
    hide Bounded, CancelResting;
    if ids != [] {
      if Live(st.engine, ids[0]) {
        CancelBounded(st, ids[0], request);
        CancelAllBounded(CancelResting(st, ids[0], request), ids[1..], request);
      } else {
        CancelAllBounded(st, ids[1..], request);
      }
    }
  }

  lemma BusinessBounded(st: Step, c: Message)
    requires Core(st.engine) && c.clientId != 0 && c.clientId in st.engine.clients && Bounded(st.engine)
    ensures Bounded(Business(st, c).engine)
  {
    hide BooksOk, Agreement, Issued, HasAccounts, Balanced, AllSound, Submit, CancelResting, CancelAllOf, OrdersOf, Bounded;
    var s := st.engine;
    BookKeys(s);
    match c.action
    case New => SubmitBounded(st, c, 0);
    case CancelAll => CancelAllBounded(st, OrdersOf(s, c.clientId, c.instrumentId), c.requestId);
    case Cancel =>
      if Addressed(s, c) {
        CancelBounded(st, s.byClient[OwnerKey(c)], c.requestId);
      } else {
        SameExposure(s, Business(st, c).engine);
      }
    case Replace =>
      if Addressed(s, c) {
        SubmitBounded(st, c, s.byClient[OwnerKey(c)]);
      } else {
        SameExposure(s, Business(st, c).engine);
      }
    case Snapshot => SameExposure(s, Business(st, c).engine);
    case Status => SameExposure(s, Business(st, c).engine);
  }

  // ---- Every reachable state ----------------------------------------------

  lemma PerformBounded(s: Engine, c: Message)
    requires Inv(s) && Effective(s, c)
    ensures Bounded(Perform(s, c).engine)
  {
    hide Core, Bounded, Business, Completion;
    BeginCore(s, c);
    SameExposure(s, Begin(s, c).engine);
    BusinessBounded(Begin(s, c), c);
    BusinessCore(Begin(s, c), c);
    SameExposure(Business(Begin(s, c), c).engine, Perform(s, c).engine);
  }

  /** Any command, however malformed, keeps books, owners, indices, accounts and limits in agreement. */
  lemma ProcessKeepsInv(s: Engine, c: Message)
    requires Inv(s)
    ensures Inv(Process(s, c).engine)
  {
    hide Core, Bounded, Perform, Answer;
    ProcessCore(s, c);
    if Effective(s, c) {
      PerformBounded(s, c);
    } else {
      AnswerKeeps(s, c);
      SameExposure(s, Process(s, c).engine);
    }
  }

  /** The state after a sequence of commands. */
  ghost function After(s: Engine, commands: seq<Message>): (r: Engine)
    requires Inv(s)
    ensures Inv(r)
    decreases |commands|
  {
    if commands == [] then s else
    ProcessKeepsInv(s, commands[0]);
    After(Process(s, commands[0]).engine, commands[1..])
  }

  lemma FreshCore(instruments: map<InstrumentId, Rules>, capacity: nat, epoch: nat)
    requires ConfigOk(instruments)
    ensures Core(Fresh(instruments, capacity, epoch))
  {
    NobodyHolds();
    hide Balanced;
  }

  lemma NobodyHolds()
    ensures Balanced(map[])
  {
    forall i: InstrumentId ensures Total(Quantities(map[], i)) == 0 && Total(Cash(map[], i)) == 0 {
      assert Quantities(map[], i) == map[] && Cash(map[], i) == map[];
    }
  }

  lemma FreshInv(instruments: map<InstrumentId, Rules>, capacity: nat, epoch: nat)
    requires ConfigOk(instruments)
    ensures Inv(Fresh(instruments, capacity, epoch))
  {
    var s := Fresh(instruments, capacity, epoch);
    FreshCore(instruments, capacity, epoch);
    hide Core;
    forall client: ClientId, i: InstrumentId | i in instruments ensures WithinLimit(s, client, i) {
      assert Open(map[], client, i, Bid) == map[];
      assert Open(map[], client, i, Ask) == map[];
      assert ValidRules(instruments[i]);
    }
  }

  /** Exposure in every reachable state: no sequence of passive fills can breach the position limit. */
  lemma ReachableWithinLimits(instruments: map<InstrumentId, Rules>, capacity: nat, epoch: nat,
                              commands: seq<Message>, client: ClientId, i: InstrumentId)
    requires ConfigOk(instruments) && i in instruments
    ensures Inv(Fresh(instruments, capacity, epoch))
    ensures var s := After(Fresh(instruments, capacity, epoch), commands);
            var p := PositionOf(s.positions, client, i).quantity;
            var limit := instruments[i].maxPosition;
            && Inv(s)
            && -limit <= p - Reserved(s.resting, client, i, Ask) <= p
            && p <= p + Reserved(s.resting, client, i, Bid) <= limit
            && Reserved(s.resting, client, i, Bid) <= 2_000_000_000_000
            && Reserved(s.resting, client, i, Ask) <= 2_000_000_000_000
  {
    FreshInv(instruments, capacity, epoch);
    var s0 := Fresh(instruments, capacity, epoch);
    var s := After(s0, commands);
    AfterConfig(s0, commands);
    assert WithinLimit(s, client, i);
    assert ValidRules(instruments[i]);
    ReservedNonNegative(s.resting, client, i, Bid);
    ReservedNonNegative(s.resting, client, i, Ask);
  }

  lemma PerformConfig(s: Engine, c: Message)
    requires Core(s) && Effective(s, c)
    ensures var s' := Perform(s, c).engine;
            s'.instruments == s.instruments && s'.capacity == s.capacity && s'.epoch == s.epoch
  {
    hide Core, Business, Completion;
    BeginCore(s, c);
    BusinessCore(Begin(s, c), c);
  }

  lemma ProcessConfig(s: Engine, c: Message)
    requires Core(s)
    ensures Process(s, c).engine.instruments == s.instruments
    ensures Process(s, c).engine.capacity == s.capacity
    ensures Process(s, c).engine.epoch == s.epoch
  {
    hide Core, Perform, Answer;
    if Effective(s, c) {
      PerformConfig(s, c);
    } else {
      AnswerKeeps(s, c);
    }
  }

  lemma {:induction false} AfterConfig(s: Engine, commands: seq<Message>)
    requires Inv(s)
    ensures After(s, commands).instruments == s.instruments
    ensures After(s, commands).capacity == s.capacity
    ensures After(s, commands).epoch == s.epoch
    decreases |commands|
  {
    hide Core, Bounded, Process;
    if commands != [] {
      ProcessKeepsInv(s, commands[0]);
      ProcessConfig(s, commands[0]);
      AfterConfig(Process(s, commands[0]).engine, commands[1..]);
    }
  }
}
