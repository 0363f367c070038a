/** The order manager simulates the engine: every command, seen by every client. */
module ManagerSimulation {
  import opened Types
  import opened BookModel
  import opened Positions
  import opened EngineModel
  import opened AgreementLemmas
  import opened Exchange
  import opened Exposure
  import opened Outcome
  import opened Sequencing
  import opened ManagerModel

  // ---- Steps of order entry -----------------------------------------------

  /** What accepting an order changes in the views of its client, before the acknowledgement. */
  lemma AcceptViews(st: Step, c: Message, prior: OrderId, k: ClientId)
    requires Admissible(st.engine, c, prior)
    ensures prior != 0 ==> Live(st.engine, prior)
    ensures var s := st.engine;
            var s' := Accept(st, c, prior).engine;
            && s'.responseSequence == s.responseSequence + 1
            && OwnerKey(c) !in s'.byClient
            && (forall i: InstrumentId :: PositionOf(s'.positions, k, i) == PositionOf(s.positions, k, i))
            && (forall o: OrderId | (k, o) != OwnerKey(c) ::
                  OpenView(s'.resting, s'.byClient, k, o) == OpenView(s.resting, s.byClient, k, o))
  {
    hide BooksOk, Agreement, Issued, HasAccounts, Balanced, AllSound, RiskRefusal, BookRefusal, OpenView, PositionOf, CancelOrder;
    AdmissibleParts(st, c, prior);
    AcceptParts(st, c, prior);
    var s := st.engine;
    if prior != 0 {
      forall o: OrderId {
        ViewRemove(s.resting, s.byClient, prior, k, o);
      }
    } else {
      assert s.resting - {prior} == s.resting;
    }
  }

  lemma ToldAccept(g: Manager, st: Step, c: Message, prior: OrderId, k: ClientId)
    requires c.clientId in st.engine.clients && (prior != 0 ==> Live(st.engine, prior))
    ensures var s := st.engine;
            Told(g, Accept(st, c, prior), k) ==
              if k == c.clientId
              then Consume(Told(g, st, k), StampReport(Incoming(s, c), if prior == 0 then Accepted else Replaced, NoReject,
                                                       s.epoch, s.responseSequence + 1))
              else Told(g, st, k)
  {
    hide Consume, Told, StampReport, StampUpdate, CancelOrder, OpenAccount;
    var s := st.engine;
    var client := s.clients[c.clientId];
    var s1 := s.(
      positions := OpenAccount(s.positions, (c.clientId, c.instrumentId)),
      nextOrder := s.nextOrder + 1,
      clients := s.clients[c.clientId := client.(maxOrderId := Max(client.maxOrderId, c.orderId))]);
    if prior == 0 {
      ToldSame(g, st, st.(engine := s1), k);
      ToldReport(g, st.(engine := s1), Incoming(s, c), Accepted, NoReject, k);
    } else {
      var m := s.resting[prior];
      var s2 := s1.(
        books := s.books[m.instrumentId := BookModel.CancelOrder(s.books[m.instrumentId], prior).0],
        resting := s.resting - {prior},
        byClient := s.byClient - {OwnerKey(c)});
      var st2 := EmitUpdate(st.(engine := s2), m, CancelUpdate);
      ToldSame(g, st, st2, k);
      ToldReport(g, st2, Incoming(s, c), Replaced, NoReject, k);
    }
  }

  lemma AcceptInFlight(g: Manager, st: Step, c: Message, prior: OrderId)
    requires Admissible(st.engine, c, prior) && Agrees(Told(g, st, c.clientId), st.engine, c.clientId)
    ensures prior != 0 ==> Live(st.engine, prior)
    ensures c.quantity > 0
    ensures InFlight(Told(g, Accept(st, c, prior), c.clientId), Accept(st, c, prior).engine, Incoming(st.engine, c), c.quantity)
  {
    hide Core, RiskRefusal, BookRefusal, Accept, Told, Consume, Held, Seen, OpenView, PositionOf;
    AdmissibleParts(st, c, prior);
    AcceptViews(st, c, prior, c.clientId);
    ToldAccept(g, st, c, prior, c.clientId);
    var s := st.engine;
    var t := Told(g, st, c.clientId);
    var m := StampReport(Incoming(s, c), if prior == 0 then Accepted else Replaced, NoReject, s.epoch, s.responseSequence + 1);
    ConsumeOpen(t, m);
    SamePositions(t, Consume(t, m));
  }

  lemma SamePositions(g: Manager, h: Manager)
    requires h.positions == g.positions
    ensures forall i: InstrumentId :: Held(h, i) == Held(g, i)
  {
  }

  lemma AcceptAgrees(g: Manager, st: Step, c: Message, prior: OrderId, k: ClientId)
    requires Admissible(st.engine, c, prior) && k != c.clientId && Agrees(Told(g, st, k), st.engine, k)
    ensures prior != 0 ==> Live(st.engine, prior)
    ensures Agrees(Told(g, Accept(st, c, prior), k), Accept(st, c, prior).engine, k)
  {
    hide Core, RiskRefusal, BookRefusal, Accept, Told, Consume, Held, Seen, OpenView, PositionOf;
    AdmissibleParts(st, c, prior);
    AcceptViews(st, c, prior, k);
    ToldAccept(g, st, c, prior, k);
  }

  lemma ViewInsert(resting: map<OrderId, Message>, byClient: map<Key, OrderId>, m: Message, k: ClientId, o: OrderId)
    requires Indexed(resting, byClient) && m.exchangeId !in resting
    ensures OpenView(resting[m.exchangeId := m], byClient[OwnerKey(m) := m.exchangeId], k, o)
         == if (k, o) == OwnerKey(m) then Some(ViewOf(m)) else OpenView(resting, byClient, k, o)
  {
  }

  /** Resting the residual: the taker's order in flight becomes an open order; nobody else notices. */
  lemma RestAgrees(g: Manager, st: Step, m: Message, k: ClientId)
    requires m.instrumentId in st.engine.books && m.quantity > 0
    requires Indexed(st.engine.resting, st.engine.byClient) && m.exchangeId !in st.engine.resting
    requires if k == m.clientId then InFlight(Told(g, st, k), st.engine, m, m.quantity) else Agrees(Told(g, st, k), st.engine, k)
    ensures Agrees(Told(g, Rest(st, m), k), Rest(st, m).engine, k)
  {
    hide Told, Held, Seen, OpenView, PositionOf, Add;
    var s := st.engine;
    ToldSame(g, st, Rest(st, m), k);
    forall o: OrderId {
      ViewInsert(s.resting, s.byClient, m, k, o);
    }
  }

  lemma FinishAgrees(g: Manager, st: Step, m: Message, left: Quantity, k: ClientId)
    requires m.instrumentId in st.engine.books
    requires Indexed(st.engine.resting, st.engine.byClient) && m.exchangeId !in st.engine.resting
    requires if k == m.clientId then InFlight(Told(g, st, k), st.engine, m, left) else Agrees(Told(g, st, k), st.engine, k)
    ensures Agrees(Told(g, Finish(st, m, left), k), Finish(st, m, left).engine, k)
  {
    hide Told, Consume, Held, Seen, OpenView, PositionOf, Rest, Indexed;
    var s := st.engine;
    if Rests(m, left) {
      RestAgrees(g, st, m.(quantity := left, remaining := left), k);
    } else if left != 0 {
      var x := m.(quantity := left, remaining := 0);
      ToldReport(g, st, x, Cancelled, NoReject, k);
      if k == m.clientId {
        var t := Told(g, st, k);
        var r := StampReport(x, Cancelled, NoReject, s.epoch, s.responseSequence + 1);
        ConsumeCancelled(t, r);
        SamePositions(t, Consume(t, r));
        Unlisted(s, k, m.orderId);
      }
    } else if k == m.clientId {
      Unlisted(s, k, m.orderId);
    }
  }

  lemma Unlisted(s: Engine, k: ClientId, o: OrderId)
    requires (k, o) !in s.byClient
    ensures OpenView(s.resting, s.byClient, k, o) == None
  {
  }

  lemma EnterAgrees(g: Manager, st: Step, c: Message, prior: OrderId, k: ClientId)
    requires Admissible(st.engine, c, prior) && Agrees(Told(g, st, k), st.engine, k)
    ensures Agrees(Told(g, Enter(st, c, prior), k), Enter(st, c, prior).engine, k)
  {
    hide BooksOk, Agreement, HasAccounts, Balanced, AllSound, RiskRefusal, Accept, MatchAll, Finish, Leaves, Told, Agrees, InFlight, Crosses, SweepRefusal, Indexed;
    AdmissibleParts(st, c, prior);
    AcceptParts(st, c, prior);
    var s := st.engine;
    var m := Incoming(s, c);
    var st1 := Accept(st, c, prior);
    var left := Leaves(c, OppositeQueue(s, c), c.quantity);
    LeavesSame(c, m, OppositeQueue(s, c), c.quantity);
    SweepStays(st, c, prior);
    MatchAllStops(st1, m, c.quantity);
    var st2 := MatchAll(st1, m, c.quantity);
    if k == c.clientId {
      AcceptInFlight(g, st, c, prior);
      MatchAllInFlight(g, st1, m, c.quantity);
    } else {
      AcceptAgrees(g, st, c, prior, k);
      MatchAllAgrees(g, st1, m, c.quantity, k);
    }
    FinishAgrees(g, st2, m, left, k);
  }

  /** Taking the replaced order out does not bring an own order into the sweep's way. */
  lemma SweepStays(st: Step, c: Message, prior: OrderId)
    requires Admissible(st.engine, c, prior)
    ensures prior != 0 ==> Live(st.engine, prior)
    ensures var m := Incoming(st.engine, c);
            var s' := Accept(st, c, prior).engine;
            && c.instrumentId in s'.books
            && SweepRefusal(m, s'.resting, OppositeQueue(s', m), c.quantity) == NoReject
  {
    hide BooksOk, Indexed, Issued, HasAccounts, Balanced, AllSound, RiskRefusal, Accept, SweepRefusal, Leaves;
    AdmissibleParts(st, c, prior);
    AcceptParts(st, c, prior);
    var s := st.engine;
    var q := OppositeQueue(s, c);
    forall e | e in q ensures e.id in s.resting && e.id != prior {
      assert e in s.books[c.instrumentId].Queue(c.side.Opposite());
    }
    SweepSameOwners(c, s.resting, s.resting - {prior}, q, c.quantity);
    SweepSame(c, Incoming(s, c), s.resting - {prior}, q, c.quantity);
  }

  lemma {:induction false} SweepSame(c: Message, m: Message, resting: map<OrderId, Message>, queue: seq<Entry>, quantity: Quantity)
    requires m.orderType == c.orderType && m.side == c.side && m.price == c.price
    requires m.postOnly == c.postOnly && m.clientId == c.clientId
    ensures SweepRefusal(m, resting, queue, quantity) == SweepRefusal(c, resting, queue, quantity)
    decreases |queue|
  {
    if queue != [] {
      SweepSame(c, m, resting, queue[1..], quantity - Min(quantity, queue[0].quantity));
    }
  }

  // ---- Other outcomes -----------------------------------------------------

  lemma ViewAmend(resting: map<OrderId, Message>, byClient: map<Key, OrderId>, id: OrderId, quantity: Quantity, k: ClientId, o: OrderId)
    requires Indexed(resting, byClient) && id in resting
    ensures OpenView(resting[id := resting[id].(quantity := quantity)], byClient, k, o)
         == if (k, o) == OwnerKey(resting[id]) then Some(ViewOf(resting[id]).(left := quantity))
            else OpenView(resting, byClient, k, o)
  {
    assert byClient[OwnerKey(resting[id])] == id;
    if (k, o) in byClient && byClient[(k, o)] in resting {
      assert OwnerKey(resting[byClient[(k, o)]]) == (k, o);
    }
  }

  lemma ToldAmend(g: Manager, st: Step, c: Message, prior: OrderId, k: ClientId)
    requires KeepsPriority(st.engine, c, prior) && Live(st.engine, prior)
    ensures var s := st.engine;
            var m := c.(exchangeId := prior, remaining := c.quantity);
            Told(g, Amend(st, c, prior), k) ==
              if k == c.clientId
              then Consume(Told(g, st, k), StampReport(m, Replaced, NoReject, s.epoch, s.responseSequence + 1))
              else Told(g, st, k)
  {
    hide Consume, Told, StampReport, StampUpdate, ExecuteOrder;
    var s := st.engine;
    var m := c.(exchangeId := prior, remaining := c.quantity);
    var owned := s.resting[prior];
    var s1 := s.(resting := s.resting[prior := owned.(quantity := c.quantity)]);
    if c.quantity == owned.quantity {
      ToldSame(g, st, st.(engine := s1), k);
      ToldReport(g, st.(engine := s1), m, Replaced, NoReject, k);
    } else {
      var b := BookModel.ExecuteOrder(s.books[owned.instrumentId], prior, owned.quantity - c.quantity).0;
      var st2 := EmitUpdate(st.(engine := s1.(books := s.books[owned.instrumentId := b])), m, ReduceUpdate);
      ToldSame(g, st, st2, k);
      ToldReport(g, st2, m, Replaced, NoReject, k);
    }
  }

  lemma AmendParts(st: Step, c: Message, prior: OrderId)
    requires KeepsPriority(st.engine, c, prior) && Live(st.engine, prior)
    ensures var s := st.engine;
            var s' := Amend(st, c, prior).engine;
            && s'.resting == s.resting[prior := s.resting[prior].(quantity := c.quantity)]
            && s'.byClient == s.byClient && s'.positions == s.positions
            && s'.responseSequence == s.responseSequence + 1
  {
    hide ExecuteOrder;
  }

  lemma AmendAgrees(g: Manager, st: Step, c: Message, prior: OrderId, k: ClientId)
    requires KeepsPriority(st.engine, c, prior) && Live(st.engine, prior)
    requires Indexed(st.engine.resting, st.engine.byClient) && OwnerKey(st.engine.resting[prior]) == OwnerKey(c)
    requires st.engine.resting[prior].instrumentId == c.instrumentId && st.engine.resting[prior].side == c.side
    requires Agrees(Told(g, st, k), st.engine, k)
    ensures Agrees(Told(g, Amend(st, c, prior), k), Amend(st, c, prior).engine, k)
  {
    hide Told, Consume, Held, Seen, OpenView, PositionOf, Amend, Indexed;
    ToldAmend(g, st, c, prior, k);
    AmendParts(st, c, prior);
    var s := st.engine;
    forall o: OrderId {
      ViewAmend(s.resting, s.byClient, prior, c.quantity, k, o);
    }
    if k == c.clientId {
      var t := Told(g, st, k);
      var r := StampReport(c.(exchangeId := prior, remaining := c.quantity), Replaced, NoReject, s.epoch, s.responseSequence + 1);
      ConsumeOpen(t, r);
      SamePositions(t, Consume(t, r));
    }
  }

  /** A refusal tells the client something but changes nothing it tracks. */
  lemma RefuseAgrees(g: Manager, st: Step, c: Message, why: Reject, k: ClientId)
    requires Agrees(Told(g, st, k), st.engine, k)
    ensures Agrees(Told(g, Refuse(st, c, why), k), Refuse(st, c, why).engine, k)
  {
    hide Told, Held, Seen, OpenView, PositionOf;
    var s := st.engine;
    var st1 := st.(engine := s.(stats := s.stats.(rejected := s.stats.rejected + 1)));
    ToldSame(g, st, st1, k);
    ToldReport(g, st1, c, Rejected, why, k);
    if k == c.clientId {
      var t := Told(g, st, k);
      ConsumeRejected(t, StampReport(c, Rejected, why, s.epoch, s.responseSequence + 1));
    }
  }

  lemma ConsumeRejected(g: Manager, m: Message)
    requires !Ignores(g, m) && m.report == Rejected
    ensures var h := Consume(g, m);
            && h.lastReport == m.sequence
            && (forall i: InstrumentId :: Held(h, i) == Held(g, i))
            && (forall o: OrderId :: Seen(h, o) == Seen(g, o))
  {
  }

  lemma OpenedAgrees(g: Manager, st: Step, c: Message, k: ClientId)
    requires Agrees(Told(g, st, k), st.engine, k)
    ensures Agrees(Told(g, Opened(st, c), k), Opened(st, c).engine, k)
  {
    ToldSame(g, st, Opened(st, c), k);
  }

  lemma SubmitAgrees(g: Manager, st: Step, c: Message, prior: OrderId, k: ClientId)
    requires Submittable(st.engine, c, prior) && Agrees(Told(g, st, k), st.engine, k)
    ensures Agrees(Told(g, Submit(st, c, prior), k), Submit(st, c, prior).engine, k)
  {
    hide BooksOk, Agreement, Indexed, Issued, HasAccounts, Balanced, AllSound, RiskRefusal, BookRefusal, Enter, Amend, Submit, Refuse, Opened, Told, Agrees;
    SubmitCases(st, c, prior);
    var r := Submit(st, c, prior);
    var s := st.engine;
    if Admissible(s, c, prior) && r == Enter(st, c, prior) {
      EnterAgrees(g, st, c, prior, k);
    } else if KeepsPriority(s, c, prior) && Live(s, prior) && r == Amend(st, c, prior)
              && s.resting[prior].instrumentId == c.instrumentId && s.resting[prior].side == c.side {
      AmendAgrees(g, st, c, prior, k);
    } else if r == Refuse(Opened(st, c), c, Capacity) {
      OpenedAgrees(g, st, c, k);
      RefuseAgrees(g, Opened(st, c), c, Capacity, k);
    } else if RiskRefusal(s, c, prior) != NoReject && r == Refuse(st, c, RiskRefusal(s, c, prior)) {
      RefuseAgrees(g, st, c, RiskRefusal(s, c, prior), k);
    } else {
      RefuseAgrees(g, st, c, BookRefusal(s, c), k);
    }
  }

  lemma CancelAgrees(g: Manager, st: Step, id: OrderId, request: nat, k: ClientId)
    requires Live(st.engine, id) && Indexed(st.engine.resting, st.engine.byClient)
    requires Agrees(Told(g, st, k), st.engine, k)
    ensures Agrees(Told(g, CancelResting(st, id, request), k), CancelResting(st, id, request).engine, k)
  {
    hide Told, Consume, Held, Seen, OpenView, PositionOf, CancelOrder, Indexed;
    var s := st.engine;
    var m := s.resting[id].(requestId := request, remaining := 0);
    var b := BookModel.CancelOrder(s.books[m.instrumentId], id).0;
    var st1 := EmitUpdate(st.(engine := s.(books := s.books[m.instrumentId := b])), m, CancelUpdate);
    ToldSame(g, st, st1, k);
    ToldReport(g, st1, m, Cancelled, NoReject, k);
    ToldSame(g, EmitReport(st1, m, Cancelled, NoReject), CancelResting(st, id, request), k);
    forall o: OrderId {
      ViewRemove(s.resting, s.byClient, id, k, o);
    }
    if k == m.clientId {
      var t := Told(g, st, k);
      var r := StampReport(m, Cancelled, NoReject, s.epoch, s.responseSequence + 1);
      ConsumeCancelled(t, r);
      SamePositions(t, Consume(t, r));
    }
  }

  lemma {:induction false} CancelAllAgrees(g: Manager, st: Step, ids: seq<OrderId>, request: nat, k: ClientId)
    requires Core(st.engine) && Agrees(Told(g, st, k), st.engine, k)
    ensures Agrees(Told(g, CancelAllOf(st, ids, request), k), CancelAllOf(st, ids, request).engine, k)
    decreases |ids|
  {
    hide BooksOk, Agreement, Indexed, Issued, HasAccounts, Balanced, AllSound, CancelResting, Agrees, Told;
    if ids != [] {
      if Live(st.engine, ids[0]) {
        CancelCore(st, ids[0], request);
        CancelAgrees(g, st, ids[0], request, k);
        CancelAllAgrees(g, CancelResting(st, ids[0], request), ids[1..], request, k);
      } else {
        CancelAllAgrees(g, st, ids[1..], request, k);
      }
    }
  }

  lemma BusinessAgrees(g: Manager, st: Step, c: Message, k: ClientId)
    requires Core(st.engine) && c.clientId != 0 && c.clientId in st.engine.clients
    requires Agrees(Told(g, st, k), st.engine, k)
    ensures Agrees(Told(g, Business(st, c), k), Business(st, c).engine, k)
  {
    hide BooksOk, Agreement, Issued, HasAccounts, Balanced, AllSound, Submit, CancelResting, CancelAllOf, OrdersOf, Refuse, Told, Agrees;
    var s := st.engine;
    BookKeys(s);
    match c.action
    case New => SubmitAgrees(g, st, c, 0, k);
    case CancelAll => CancelAllAgrees(g, st, OrdersOf(s, c.clientId, c.instrumentId), c.requestId, k);
    case Cancel =>
      if Addressed(s, c) {
        CancelAgrees(g, st, s.byClient[OwnerKey(c)], c.requestId, k);
      } else {
        RefuseAgrees(g, st, c, UnknownOrder, k);
      }
    case Replace =>
      if Addressed(s, c) {
        SubmitAgrees(g, st, c, s.byClient[OwnerKey(c)], k);
      } else {
        RefuseAgrees(g, st, c, UnknownOrder, k);
      }
    case Snapshot => RefuseAgrees(g, st, c, InvalidCommand, k);
    case Status => RefuseAgrees(g, st, c, InvalidCommand, k);
  }

  /** The terminal report repeats what the client already knows. */
  lemma CompleteAgrees(g: Manager, st: Step, c: Message, k: ClientId)
    requires Indexed(st.engine.resting, st.engine.byClient) && Positives(st.engine)
    requires Agrees(Told(g, st, k), st.engine, k)
    ensures var r := EmitReport(st, Completion(st.engine, c), Complete, NoReject);
            Agrees(Told(g, r, k), r.engine, k)
  {
    hide Told, Consume, Held, Seen, PositionOf;
    var s := st.engine;
    var m := Completion(s, c);
    ToldReport(g, st, m, Complete, NoReject, k);
    if k == c.clientId {
      var t := Told(g, st, k);
      var r := StampReport(m, Complete, NoReject, s.epoch, s.responseSequence + 1);
      ConsumeComplete(t, r);
      SamePositions(t, Consume(t, r));
      assert Seen(t, c.orderId) == OpenView(s.resting, s.byClient, k, c.orderId);
    }
  }

  ghost predicate Positives(s: Engine) {
    forall id | id in s.resting :: s.resting[id].quantity > 0
  }

  lemma CorePositive(s: Engine)
    requires Core(s)
    ensures Positives(s) && Indexed(s.resting, s.byClient)
  {
    AllConsistent(s.instruments, s.capacity, s.books);
    forall id | id in s.resting ensures s.resting[id].quantity > 0 {
      LocateResting(s.books, s.resting, id);
    }
  }

  lemma PerformAgrees(g: Manager, s: Engine, c: Message, k: ClientId)
    requires Core(s) && Effective(s, c) && Agrees(g, s, k)
    ensures var r := Perform(s, c); Agrees(Told(g, r, k), r.engine, k)
  {
    assert Told(g, Begin(s, c), k) == g;
    assert Agrees(g, Begin(s, c).engine, k);
    hide Core, Begin, Business, Completion, Told, Agrees, Private, Remember;
    BeginCore(s, c);
    BusinessCore(Begin(s, c), c);
    BusinessAgrees(g, Begin(s, c), c, k);
    var done := Business(Begin(s, c), c);
    CorePositive(done.engine);
    CompleteAgrees(g, done, c, k);
    RememberAgrees(g, EmitReport(done, Completion(done.engine, c), Complete, NoReject), c, k);
  }

  lemma RememberAgrees(g: Manager, st: Step, c: Message, k: ClientId)
    requires c.clientId in st.engine.clients && Agrees(Told(g, st, k), st.engine, k)
    ensures Agrees(Told(g, Remember(st, c), k), Remember(st, c).engine, k)
  {
    hide Private, Held, Seen, OpenView, PositionOf, ConsumeAll;
  }

  // ---- Redelivered reports ------------------------------------------------

  /** The manager has seen every report the engine would repeat on a retry. */
  ghost predicate CaughtUp(g: Manager, s: Engine, k: ClientId) {
    k in s.clients ==> forall m | m in s.clients[k].cached :: m.sequence <= g.lastReport
  }

  /** The engine keeps for each client only reports addressed to it. */
  ghost predicate OwnCaches(s: Engine) {
    forall k | k in s.clients :: forall m | m in s.clients[k].cached :: m.clientId == k
  }

  /** Manager and engine in step between two commands. */
  ghost predicate InStep(g: Manager, s: Engine, k: ClientId) {
    Agrees(g, s, k) && CaughtUp(g, s, k) && OwnCaches(s)
  }

  lemma {:induction false} ConsumeAllSees(g: Manager, reports: seq<Message>)
    requires forall m | m in reports :: m.kind == Report && m.report != StatusReport
    ensures ConsumeAll(g, reports).lastReport >= g.lastReport
    ensures forall m | m in reports :: m.sequence <= ConsumeAll(g, reports).lastReport
    decreases |reports|
  {
    if reports != [] {
      assert reports[0] in reports;
      ConsumeAllSees(Consume(g, reports[0]), reports[1..]);
    }
  }

  lemma {:induction false} ConsumeAllGrows(g: Manager, reports: seq<Message>)
    ensures ConsumeAll(g, reports).lastReport >= g.lastReport
    decreases |reports|
  {
    if reports != [] {
      ConsumeAllGrows(Consume(g, reports[0]), reports[1..]);
    }
  }

  lemma PerformKinds(s: Engine, c: Message)
    requires Core(s) && Effective(s, c)
    ensures forall m | m in Perform(s, c).batch.reports :: m.kind == Report && m.report != StatusReport
  {
    assert Clean(NO_MESSAGES);
    hide Core, Business, Completion, Private, Clean;
    BeginCore(s, c);
    BusinessCore(Begin(s, c), c);
    BusinessRefused(Begin(s, c), c);
  }

  lemma PerformCaches(s: Engine, c: Message)
    requires Core(s) && Effective(s, c) && OwnCaches(s)
    ensures OwnCaches(Perform(s, c).engine)
  {
    hide Core, Perform;
    var s' := Perform(s, c).engine;
    forall k | k in s'.clients ensures forall m | m in s'.clients[k].cached :: m.clientId == k {
      PerformMemory(s, c, k);
      if k != c.clientId {
        PerformSessions(s, c, k);
      }
    }
  }

  lemma PerformSessions(s: Engine, c: Message, k: ClientId)
    requires Core(s) && Effective(s, c) && k in Perform(s, c).engine.clients && k != c.clientId
    ensures k in s.clients
  {
    hide Core, Business, Completion, Private;
    BeginCore(s, c);
    BusinessCore(Begin(s, c), c);
  }

  /** A command that takes effect keeps manager and engine in step. */
  lemma PerformInStep(g: Manager, s: Engine, c: Message, k: ClientId)
    requires Core(s) && Effective(s, c) && InStep(g, s, k)
    ensures var r := Perform(s, c); InStep(Told(g, r, k), r.engine, k)
  {
    hide Core, Perform, Agrees, OwnCaches, Private;
    PerformAgrees(g, s, c, k);
    PerformMemory(s, c, k);
    PerformCaches(s, c);
    PerformKinds(s, c);
    var own := Private(Perform(s, c).batch.reports, k);
    ConsumeAllSees(g, own);
    if k != c.clientId && k in Perform(s, c).engine.clients {
      PerformSessions(s, c, k);
    }
  }

  // ---- Commands without effect --------------------------------------------

  /** The client has nothing open under that number, or exactly the quantity stated. */
  ghost predicate Echoes(s: Engine, c: Message) {
    var v := OpenView(s.resting, s.byClient, c.clientId, c.orderId);
    c.orderId == 0 || v.None? || v.value.left == c.remaining
  }

  /** A terminal report that merely echoes the command is right exactly if the command was. */
  lemma EchoAgrees(g: Manager, st: Step, c: Message, k: ClientId)
    requires Agrees(Told(g, st, k), st.engine, k) && Positives(st.engine)
    ensures var r := EmitReport(st, c, Complete, NoReject);
            Agrees(Told(g, r, k), r.engine, k) <==> (k == c.clientId ==> Echoes(st.engine, c))
  {
    hide Told, Consume, Held, Seen, PositionOf;
    var s := st.engine;
    ToldReport(g, st, c, Complete, NoReject, k);
    var r := EmitReport(st, c, Complete, NoReject);
    if k == c.clientId {
      var t := Told(g, st, k);
      var x := StampReport(c, Complete, NoReject, s.epoch, s.responseSequence + 1);
      ConsumeComplete(t, x);
      SamePositions(t, Consume(t, x));
      assert Seen(t, c.orderId) == OpenView(s.resting, s.byClient, k, c.orderId);
      assert Agrees(Told(g, r, k), r.engine, k) ==> Seen(Told(g, r, k), c.orderId) == OpenView(s.resting, s.byClient, k, c.orderId);
    }
  }

  /**
   A command leaves manager and engine in step if it takes effect, is a repetition
   or a query, or belongs to someone else; a command out of sequence, or without a
   request number, only if the remaining quantity it states happens to be right.
   */
  ghost predicate Harmless(s: Engine, c: Message, k: ClientId) {
    || Effective(s, c) || c.clientId != k
    || c.kind != Command || c.action == Snapshot || c.action == Status
    || (c.clientId != 0 && c.requestId != 0 && IsRetry(s, c))
    || Echoes(s, c)
  }

  lemma AnswerBooks(g: Manager, s: Engine, c: Message, k: ClientId)
    requires InStep(g, s, k)
    ensures CaughtUp(Told(g, Answer(s, c), k), Answer(s, c).engine, k) && OwnCaches(Answer(s, c).engine)
  {
    hide Consume, Answer, Agrees, Private;
    AnswerKeeps(s, c);
    ConsumeAllGrows(g, Private(Answer(s, c).batch.reports, k));
  }

  lemma AnswerAgrees(g: Manager, s: Engine, c: Message, k: ClientId)
    requires Core(s) && InStep(g, s, k) && !Effective(s, c)
    ensures Agrees(Told(g, Answer(s, c), k), Answer(s, c).engine, k) <==> Harmless(s, c, k)
  {
    CorePositive(s);
    var st := Step(s, NO_MESSAGES);
    assert Told(g, st, k) == g;
    var st1 := Step(WithClient(s, c.clientId), NO_MESSAGES);
    assert Told(g, st1, k) == g && Agrees(g, st1.engine, k);
    hide Core, Told, Agrees, Consume, EmitReport, Refuse, Effective, WithClient, Positives, Echoes;
    if c.kind != Command || c.action == Snapshot {
      RefuseAgrees(g, st, c, InvalidCommand, k);
    } else if c.action == Status {
      StatusAgrees(g, st, c.(requestId := LastRequest(s, c.clientId)), k);
    } else if c.clientId == 0 || c.requestId == 0 {
      RefuseAgrees(g, st, c, InvalidCommand, k);
      RefusePositive(st, c, InvalidCommand);
      EchoAgrees(g, Refuse(st, c, InvalidCommand), c, k);
    } else if IsRetry(s, c) {
      RetryAgrees(g, s, c, k);
    } else {
      RefuseAgrees(g, st1, c, SequenceReject, k);
      WithClientPositive(s, c.clientId);
      RefusePositive(st1, c, SequenceReject);
      EchoAgrees(g, Refuse(st1, c, SequenceReject), c, k);
    }
  }

  lemma WithClientPositive(s: Engine, client: ClientId)
    requires Positives(s)
    ensures Positives(WithClient(s, client))
    ensures WithClient(s, client).resting == s.resting && WithClient(s, client).byClient == s.byClient
  {
  }

  lemma RefusePositive(st: Step, c: Message, why: Reject)
    requires Positives(st.engine)
    ensures Positives(Refuse(st, c, why).engine)
    ensures forall m :: Echoes(Refuse(st, c, why).engine, m) <==> Echoes(st.engine, m)
  {
  }

  lemma StatusAgrees(g: Manager, st: Step, m: Message, k: ClientId)
    requires Agrees(Told(g, st, k), st.engine, k)
    ensures var r := EmitReport(st, m, StatusReport, NoReject); Agrees(Told(g, r, k), r.engine, k)
  {
    hide Told, Held, Seen, OpenView, PositionOf;
    ToldReport(g, st, m, StatusReport, NoReject, k);
  }

  lemma RetryAgrees(g: Manager, s: Engine, c: Message, k: ClientId)
    requires InStep(g, s, k) && IsRetry(s, c)
    ensures Told(g, Step(s, Batch(s.clients[c.clientId].cached, [])), k) == g
  {
    hide Agrees, Consume;
    var cached := s.clients[c.clientId].cached;
    RedeliveryIgnored(g, Private(cached, k));
  }

  /** Manager and engine stay in step through a command exactly if the command is harmless. */
  lemma ProcessInStep(g: Manager, s: Engine, c: Message, k: ClientId)
    requires Inv(s) && InStep(g, s, k)
    ensures var r := Process(s, c); InStep(Told(g, r, k), r.engine, k) <==> Harmless(s, c, k)
  {
    hide Core, Bounded, Perform, Answer, InStep, Harmless;
    if Effective(s, c) {
      PerformInStep(g, s, c, k);
      EffectiveHarmless(s, c, k);
    } else {
      AnswerInStep(g, s, c, k);
    }
  }

  lemma EffectiveHarmless(s: Engine, c: Message, k: ClientId)
    requires Effective(s, c)
    ensures Harmless(s, c, k)
  {
  }

  lemma AnswerInStep(g: Manager, s: Engine, c: Message, k: ClientId)
    requires Core(s) && InStep(g, s, k) && !Effective(s, c)
    ensures InStep(Told(g, Answer(s, c), k), Answer(s, c).engine, k) <==> Harmless(s, c, k)
  {
    hide Core, Answer, Agrees, CaughtUp, OwnCaches, Harmless, Told;
    AnswerBooks(g, s, c, k);
    AnswerAgrees(g, s, c, k);
  }

  /** The client cancels one of its open orders, but skips a request number. */
  function SkippingCancel(s: Engine, k: ClientId, o: OrderId): Message {
    BLANK.(action := Cancel, clientId := k, orderId := o, requestId := LastRequest(s, k) + 2)
  }

  /** What the client sees of its open order after the terminal report of a refused command. */
  function Echoed(c: Message, was: View): Option<View> {
    if c.remaining == 0 then None else Some(was.(left := c.remaining))
  }

  lemma EchoSeen(g: Manager, st: Step, c: Message)
    requires Agrees(Told(g, st, c.clientId), st.engine, c.clientId) && c.orderId != 0
    requires OpenView(st.engine.resting, st.engine.byClient, c.clientId, c.orderId).Some?
    ensures var r := EmitReport(st, c, Complete, NoReject);
            Seen(Told(g, r, c.clientId), c.orderId)
              == Echoed(c, OpenView(st.engine.resting, st.engine.byClient, c.clientId, c.orderId).value)
  {
    hide Told, Consume, Held, Seen, PositionOf, OpenView;
    var s := st.engine;
    ToldReport(g, st, c, Complete, NoReject, c.clientId);
    var t := Told(g, st, c.clientId);
    assert Seen(t, c.orderId) == OpenView(s.resting, s.byClient, c.clientId, c.orderId);
    ConsumeComplete(t, StampReport(c, Complete, NoReject, s.epoch, s.responseSequence + 1));
  }

  /** The command is refused for its request number alone. */
  ghost predicate OutOfSequence(s: Engine, c: Message) {
    && c.kind == Command && c.action != Snapshot && c.action != Status && !Effective(s, c)
    && !(c.clientId != 0 && c.requestId != 0 && IsRetry(s, c))
  }

  /** A refused command makes the manager believe whatever remaining quantity the command stated; the order stays. */
  lemma RefusedCommandEchoes(g: Manager, s: Engine, c: Message)
    requires Core(s) && Agrees(g, s, c.clientId) && OutOfSequence(s, c) && c.orderId != 0
    requires OpenView(s.resting, s.byClient, c.clientId, c.orderId).Some?
    ensures var r := Process(s, c);
            var was := OpenView(s.resting, s.byClient, c.clientId, c.orderId);
            && OpenView(r.engine.resting, r.engine.byClient, c.clientId, c.orderId) == was
            && Seen(Told(g, r, c.clientId), c.orderId) == Echoed(c, was.value)
  {
    var k := c.clientId;
    var st := Step(s, NO_MESSAGES);
    assert Told(g, st, k) == g;
    var st1 := Step(WithClient(s, k), NO_MESSAGES);
    assert Told(g, st1, k) == g && Agrees(g, st1.engine, k);
    RefuseKeepsOrders(st, c, InvalidCommand);
    RefuseKeepsOrders(st1, c, SequenceReject);
    AnswerKeeps(s, c);
    hide Core, Told, Agrees, Consume, EmitReport, Refuse, Effective, WithClient, Seen, OpenView, Echoed;
    if k == 0 || c.requestId == 0 {
      RefuseAgrees(g, st, c, InvalidCommand, k);
      EchoSeen(g, Refuse(st, c, InvalidCommand), c);
    } else {
      RefuseAgrees(g, st1, c, SequenceReject, k);
      EchoSeen(g, Refuse(st1, c, SequenceReject), c);
    }
  }

  lemma RefuseKeepsOrders(st: Step, c: Message, why: Reject)
    ensures Refuse(st, c, why).engine.resting == st.engine.resting
    ensures Refuse(st, c, why).engine.byClient == st.engine.byClient
  {
  }

  /** A client that skips a request number while naming one of its open orders loses it; the engine keeps it. */
  lemma SkippedRequestLosesOrder(g: Manager, s: Engine, k: ClientId, o: OrderId)
    requires Inv(s) && InStep(g, s, k) && k != 0 && o != 0 && OpenView(s.resting, s.byClient, k, o).Some?
    ensures var r := Process(s, SkippingCancel(s, k, o));
            && Seen(g, o).Some? && Seen(Told(g, r, k), o) == None
            && OpenView(r.engine.resting, r.engine.byClient, k, o) == OpenView(s.resting, s.byClient, k, o)
            && !InStep(Told(g, r, k), r.engine, k)
  {
    var c := SkippingCancel(s, k, o);
    assert OutOfSequence(s, c);
    hide Core, Bounded, Process, Told, OutOfSequence, OpenView, Seen;
    RefusedCommandEchoes(g, s, c);
  }

  // ---- Whole runs ---------------------------------------------------------

  /** The manager of client `k` fed with the reports of a whole run. */
  ghost function Followed(g: Manager, s: Engine, commands: seq<Message>, k: ClientId): Manager
    requires Inv(s)
    decreases |commands|
  {
    if commands == [] then g else
    ProcessKeepsInv(s, commands[0]);
    var r := Process(s, commands[0]);
    Followed(Told(g, r, k), r.engine, commands[1..], k)
  }

  ghost predicate HarmlessRun(s: Engine, commands: seq<Message>, k: ClientId)
    requires Inv(s)
    decreases |commands|
  {
    commands != [] ==>
      && Harmless(s, commands[0], k)
      && (ProcessKeepsInv(s, commands[0]); HarmlessRun(Process(s, commands[0]).engine, commands[1..], k))
  }

  /** After every command of every such run the manager holds exactly the engine's orders and positions. */
  lemma {:induction false} ManagerFollowsEngine(g: Manager, s: Engine, commands: seq<Message>, k: ClientId)
    requires Inv(s) && InStep(g, s, k) && HarmlessRun(s, commands, k)
    ensures InStep(Followed(g, s, commands, k), After(s, commands), k)
    decreases |commands|
  {
    hide Core, Bounded, Process, InStep, Told, Harmless;
    if commands != [] {
      ProcessKeepsInv(s, commands[0]);
      ProcessInStep(g, s, commands[0], k);
      var r := Process(s, commands[0]);
      ManagerFollowsEngine(Told(g, r, k), r.engine, commands[1..], k);
    }
  }

  lemma FreshInStep(instruments: map<InstrumentId, Rules>, capacity: nat, epoch: nat, k: ClientId)
    ensures InStep(NEW_MANAGER, Fresh(instruments, capacity, epoch), k)
  {
  }
}
