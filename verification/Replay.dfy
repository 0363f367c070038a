/** Durable replay: a fresh engine fed the journalled commands is the live engine again. */
module DurableReplay {
  import opened Types
  import opened Sums
  import opened BookModel
  import opened Positions
  import opened EngineModel
  import opened Exchange
  import opened Exposure

  // ---- Equal but for epoch and report numbers -----------------------------

  function Plain(m: Message): Message {
    m.(epoch := 0, sequence := 0)
  }

  /** The same messages under other stamps. */
  ghost predicate SameText(a: seq<Message>, b: seq<Message>) {
    |a| == |b| && forall k | 0 <= k < |a| :: Plain(a[k]) == Plain(b[k])
  }

  ghost predicate SameClient(a: ClientState, b: ClientState) {
    a.lastRequest == b.lastRequest && a.maxOrderId == b.maxOrderId && a.lastCommand == b.lastCommand
    && SameText(a.cached, b.cached)
  }

  ghost predicate SameClients(a: map<ClientId, ClientState>, b: map<ClientId, ClientState>) {
    a.Keys == b.Keys && forall k | k in a :: SameClient(a[k], b[k])
  }

  /** Two engines that differ at most in their epoch, report counter and the stamps of cached reports. */
  ghost predicate Twin(s: Engine, t: Engine) {
    && t == s.(epoch := t.epoch, responseSequence := t.responseSequence, clients := t.clients)
    && SameClients(s.clients, t.clients)
  }

  ghost predicate TwinStep(a: Step, b: Step) {
    Twin(a.engine, b.engine) && SameText(a.batch.reports, b.batch.reports) && SameText(a.batch.updates, b.batch.updates)
  }

  lemma TextAppend(a: seq<Message>, b: seq<Message>, x: Message, y: Message)
    requires SameText(a, b) && Plain(x) == Plain(y)
    ensures SameText(a + [x], b + [y])
  {
  }

  lemma TwinReport(a: Step, b: Step, m: Message, kind: ReportType, reason: Reject)
    requires TwinStep(a, b)
    ensures TwinStep(EmitReport(a, m, kind, reason), EmitReport(b, m, kind, reason))
  {
    hide SameText, SameClients, StampReport, Plain;
    StampPlain(m, kind, reason, a.engine.epoch, b.engine.epoch, a.engine.responseSequence + 1, b.engine.responseSequence + 1);
    TextAppend(a.batch.reports, b.batch.reports,
               StampReport(m, kind, reason, a.engine.epoch, a.engine.responseSequence + 1),
               StampReport(m, kind, reason, b.engine.epoch, b.engine.responseSequence + 1));
  }

  lemma StampPlain(m: Message, kind: ReportType, reason: Reject, e: nat, f: nat, x: nat, y: nat)
    ensures Plain(StampReport(m, kind, reason, e, x)) == Plain(StampReport(m, kind, reason, f, y))
  {
  }

  lemma TwinUpdate(a: Step, b: Step, m: Message, kind: UpdateType)
    requires TwinStep(a, b)
    ensures TwinStep(EmitUpdate(a, m, kind), EmitUpdate(b, m, kind))
  {
    hide SameText, SameClients, StampUpdate, Plain;
    UpdatePlain(m, kind, a.engine.epoch, b.engine.epoch, a.engine.sequence + 1, b.engine.sequence + 1);
    TextAppend(a.batch.updates, b.batch.updates,
               StampUpdate(m, kind, a.engine.epoch, a.engine.sequence + 1),
               StampUpdate(m, kind, b.engine.epoch, b.engine.sequence + 1));
  }

  lemma UpdatePlain(m: Message, kind: UpdateType, e: nat, f: nat, x: nat, y: nat)
    ensures Plain(StampUpdate(m, kind, e, x)) == Plain(StampUpdate(m, kind, f, y))
  {
  }

  lemma TwinRefuse(a: Step, b: Step, c: Message, why: Reject)
    requires TwinStep(a, b)
    ensures TwinStep(Refuse(a, c, why), Refuse(b, c, why))
  {
    hide SameText, SameClients;
    var s, t := a.engine, b.engine;
    TwinReport(a.(engine := s.(stats := s.stats.(rejected := s.stats.rejected + 1))),
               b.(engine := t.(stats := t.stats.(rejected := t.stats.rejected + 1))), c, Rejected, why);
  }

  // ---- The steps of a command ---------------------------------------------

  lemma TwinTrade(a: Step, b: Step, c: Message, id: OrderId, price: Price, size: Quantity, leaves: Quantity)
    requires TwinStep(a, b) && Tradable(a.engine, c, id, size) && size <= leaves
    ensures Tradable(b.engine, c, id, size)
    ensures TwinStep(TradeWith(a, c, id, price, size, leaves), TradeWith(b, c, id, price, size, leaves))
  {
    hide SameText, SameClients, Settle, ExecuteOrder, EmitReport, EmitUpdate;
    var maker := MakerAfter(a.engine, id, size);
    var execution := maker.(quantity := size, remaining := maker.quantity, tradeId := a.engine.nextTrade);
    var taker := c.(price := price, quantity := size, remaining := leaves - size, tradeId := a.engine.nextTrade);
    var a0 := a.(engine := Traded(a.engine, c, id, price, size));
    var b0 := b.(engine := Traded(b.engine, c, id, price, size));
    TwinReport(a0, b0, execution, ReportType.Fill, NoReject);
    var a1, b1 := EmitReport(a0, execution, ReportType.Fill, NoReject), EmitReport(b0, execution, ReportType.Fill, NoReject);
    TwinUpdate(a1, b1, execution, ExecuteUpdate);
    var a2, b2 := EmitUpdate(a1, execution, ExecuteUpdate), EmitUpdate(b1, execution, ExecuteUpdate);
    TwinReport(a2, b2, taker, ReportType.Fill, NoReject);
    var a3, b3 := EmitReport(a2, taker, ReportType.Fill, NoReject), EmitReport(b2, taker, ReportType.Fill, NoReject);
    TwinUpdate(a3, b3, taker, TradeUpdate);
  }

  lemma {:induction false} TwinMatchAll(a: Step, b: Step, c: Message, leaves: Quantity)
    requires TwinStep(a, b) && Ready(a.engine, c) && Ready(b.engine, c)
    ensures TwinStep(MatchAll(a, c, leaves), MatchAll(b, c, leaves))
    decreases leaves
  {
    hide Core, SameText, SameClients, TradeWith;
    if CanMatch(a.engine, c, leaves) {
      FrontKnown(a.engine, c);
      FrontKnown(b.engine, c);
      MatchOneCore(a, c, leaves);
      MatchOneCore(b, c, leaves);
      var front := Front(a.engine, c);
      var size := Min(leaves, front.quantity);
      TwinTrade(a, b, c, front.id, front.price, size, leaves);
      TwinMatchAll(MatchOne(a, c, leaves), MatchOne(b, c, leaves), c, leaves - size);
    }
  }

  lemma TwinCancel(a: Step, b: Step, id: OrderId, request: nat)
    requires TwinStep(a, b) && Live(a.engine, id)
    ensures Live(b.engine, id)
    ensures TwinStep(CancelResting(a, id, request), CancelResting(b, id, request))
  {
    hide SameText, SameClients, CancelOrder, EmitReport, EmitUpdate;
    var s, t := a.engine, b.engine;
    var m := s.resting[id].(requestId := request, remaining := 0);
    var book := BookModel.CancelOrder(s.books[m.instrumentId], id).0;
    var a0 := a.(engine := s.(books := s.books[m.instrumentId := book]));
    var b0 := b.(engine := t.(books := t.books[m.instrumentId := book]));
    TwinUpdate(a0, b0, m, CancelUpdate);
    TwinReport(EmitUpdate(a0, m, CancelUpdate), EmitUpdate(b0, m, CancelUpdate), m, Cancelled, NoReject);
  }

  lemma {:induction false} TwinCancelAll(a: Step, b: Step, ids: seq<OrderId>, request: nat)
    requires TwinStep(a, b)
    ensures TwinStep(CancelAllOf(a, ids, request), CancelAllOf(b, ids, request))
    decreases |ids|
  {
    hide SameText, SameClients, CancelResting;
    if ids != [] {
      if Live(a.engine, ids[0]) {
        TwinCancel(a, b, ids[0], request);
        TwinCancelAll(CancelResting(a, ids[0], request), CancelResting(b, ids[0], request), ids[1..], request);
      } else {
        TwinCancelAll(a, b, ids[1..], request);
      }
    }
  }

  lemma TwinAccept(a: Step, b: Step, c: Message, prior: OrderId)
    requires TwinStep(a, b) && c.clientId in a.engine.clients && (prior != 0 ==> Live(a.engine, prior))
    ensures c.clientId in b.engine.clients && (prior != 0 ==> Live(b.engine, prior))
    ensures TwinStep(Accept(a, c, prior), Accept(b, c, prior))
  {
    hide SameText, CancelOrder, OpenAccount, EmitReport, EmitUpdate, Incoming;
    var s, t := a.engine, b.engine;
    TwinIncoming(s, t, c);
    var s1, t1 := Promoted(s, c), Promoted(t, c);
    if prior == 0 {
      TwinReport(a.(engine := s1), b.(engine := t1), Incoming(s, c), Accepted, NoReject);
    } else {
      var m := s.resting[prior];
      var s2 := s1.(
        books := s.books[m.instrumentId := BookModel.CancelOrder(s.books[m.instrumentId], prior).0],
        resting := s.resting - {prior},
        byClient := s.byClient - {OwnerKey(c)});
      var t2 := t1.(
        books := t.books[m.instrumentId := BookModel.CancelOrder(t.books[m.instrumentId], prior).0],
        resting := t.resting - {prior},
        byClient := t.byClient - {OwnerKey(c)});
      TwinUpdate(a.(engine := s2), b.(engine := t2), m, CancelUpdate);
      TwinReport(EmitUpdate(a.(engine := s2), m, CancelUpdate), EmitUpdate(b.(engine := t2), m, CancelUpdate),
                 Incoming(s, c), Replaced, NoReject);
    }
  }

  lemma TwinIncoming(s: Engine, t: Engine, c: Message)
    requires s.nextOrder == t.nextOrder
    ensures Incoming(s, c) == Incoming(t, c)
  {
  }

  function Promoted(s: Engine, c: Message): Engine
    requires c.clientId in s.clients
  {
    var client := s.clients[c.clientId];
    s.(positions := OpenAccount(s.positions, (c.clientId, c.instrumentId)),
       nextOrder := s.nextOrder + 1,
       clients := s.clients[c.clientId := client.(maxOrderId := Max(client.maxOrderId, c.orderId))])
  }

  lemma TwinFinish(a: Step, b: Step, m: Message, left: Quantity)
    requires TwinStep(a, b) && m.instrumentId in a.engine.books
    ensures m.instrumentId in b.engine.books
    ensures TwinStep(Finish(a, m, left), Finish(b, m, left))
  {
    hide SameText, SameClients, Add, EmitReport, EmitUpdate;
    var s, t := a.engine, b.engine;
    if Rests(m, left) {
      var r := m.(quantity := left, remaining := left);
      var book := BookModel.Add(s.books[r.instrumentId], s.capacity, r.exchangeId, r.side, r.price, r.quantity).0;
      TwinUpdate(a.(engine := s.(books := s.books[r.instrumentId := book], resting := s.resting[r.exchangeId := r],
                                 byClient := s.byClient[OwnerKey(r) := r.exchangeId])),
                 b.(engine := t.(books := t.books[r.instrumentId := book], resting := t.resting[r.exchangeId := r],
                                 byClient := t.byClient[OwnerKey(r) := r.exchangeId])), r, AddUpdate);
    } else if left != 0 {
      TwinReport(a, b, m.(quantity := left, remaining := 0), Cancelled, NoReject);
    }
  }

  lemma TwinAmend(a: Step, b: Step, c: Message, prior: OrderId)
    requires TwinStep(a, b) && KeepsPriority(a.engine, c, prior) && Live(a.engine, prior)
    ensures KeepsPriority(b.engine, c, prior) && Live(b.engine, prior)
    ensures TwinStep(Amend(a, c, prior), Amend(b, c, prior))
  {
    hide SameText, SameClients, ExecuteOrder, EmitReport, EmitUpdate;
    var s, t := a.engine, b.engine;
    var m := c.(exchangeId := prior, remaining := c.quantity);
    var owned := s.resting[prior];
    var s1 := s.(resting := s.resting[prior := owned.(quantity := c.quantity)]);
    var t1 := t.(resting := t.resting[prior := owned.(quantity := c.quantity)]);
    if c.quantity == owned.quantity {
      TwinReport(a.(engine := s1), b.(engine := t1), m, Replaced, NoReject);
    } else {
      var book := BookModel.ExecuteOrder(s.books[owned.instrumentId], prior, owned.quantity - c.quantity).0;
      var a2 := a.(engine := s1.(books := s.books[owned.instrumentId := book]));
      var b2 := b.(engine := t1.(books := t.books[owned.instrumentId := book]));
      TwinUpdate(a2, b2, m, ReduceUpdate);
      TwinReport(EmitUpdate(a2, m, ReduceUpdate), EmitUpdate(b2, m, ReduceUpdate), m, Replaced, NoReject);
    }
  }

  lemma TwinEnter(a: Step, b: Step, c: Message, prior: OrderId)
    requires TwinStep(a, b) && Admissible(a.engine, c, prior) && Admissible(b.engine, c, prior)
    ensures TwinStep(Enter(a, c, prior), Enter(b, c, prior))
  {
    hide Core, RiskRefusal, BookRefusal, Accept, MatchAll, Finish, Leaves, SameText, SameClients, Incoming;
    AdmissibleParts(a, c, prior);
    AdmissibleParts(b, c, prior);
    TwinIncoming(a.engine, b.engine, c);
    var m := Incoming(a.engine, c);
    TwinAccept(a, b, c, prior);
    TwinMatchAll(Accept(a, c, prior), Accept(b, c, prior), m, c.quantity);
    var a2, b2 := MatchAll(Accept(a, c, prior), m, c.quantity), MatchAll(Accept(b, c, prior), m, c.quantity);
    IncomingParts(a.engine, c);
    TwinFinish(a2, b2, m, Leaves(c, OppositeQueue(a.engine, c), c.quantity));
  }

  lemma IncomingParts(s: Engine, c: Message)
    ensures Incoming(s, c).instrumentId == c.instrumentId && Incoming(s, c).clientId == c.clientId
  {
  }

  lemma TwinRefusals(s: Engine, t: Engine, c: Message, prior: OrderId)
    requires Twin(s, t) && forall i | i in s.instruments :: ValidRules(s.instruments[i])
    ensures RiskRefusal(s, c, prior) == RiskRefusal(t, c, prior)
    ensures KeepsPriority(s, c, prior) == KeepsPriority(t, c, prior)
    ensures c.instrumentId in s.books ==> BookRefusal(s, c) == BookRefusal(t, c)
  {
    hide SameText, Reserved, Leaves, SweepRefusal;
  }

  lemma TwinSubmit(a: Step, b: Step, c: Message, prior: OrderId)
    requires TwinStep(a, b) && Submittable(a.engine, c, prior) && Submittable(b.engine, c, prior)
    ensures TwinStep(Submit(a, c, prior), Submit(b, c, prior))
  {
    hide BooksOk, Agreement, Indexed, Issued, HasAccounts, Balanced, AllSound, WorstPosition, Enter, Amend, Refuse, SameText, SameClients;
    BookKeys(a.engine);
    BookKeys(b.engine);
    TwinRefusals(a.engine, b.engine, c, prior);
    var s := a.engine;
    if RiskRefusal(s, c, prior) != NoReject {
      TwinRefuse(a, b, c, RiskRefusal(s, c, prior));
    } else if KeepsPriority(s, c, prior) {
      TwinAmend(a, b, c, prior);
    } else if BookRefusal(s, c) == Capacity {
      TwinRefuse(Opened(a, c), Opened(b, c), c, Capacity);
    } else if BookRefusal(s, c) != NoReject {
      TwinRefuse(a, b, c, BookRefusal(s, c));
    } else {
      TwinEnter(a, b, c, prior);
    }
  }

  lemma TwinBusiness(a: Step, b: Step, c: Message)
    requires TwinStep(a, b) && Core(a.engine) && Core(b.engine) && c.clientId != 0
    requires c.clientId in a.engine.clients && c.clientId in b.engine.clients
    ensures TwinStep(Business(a, c), Business(b, c))
  {
    hide BooksOk, Agreement, Issued, HasAccounts, Balanced, AllSound, Submit, CancelResting, CancelAllOf, SortedKeys, Refuse, SameText, SameClients;
    var s := a.engine;
    BookKeys(s);
    BookKeys(b.engine);
    match c.action
    case New => TwinSubmit(a, b, c, 0);
    case CancelAll => TwinCancelAll(a, b, OrdersOf(s, c.clientId, c.instrumentId), c.requestId);
    case Cancel =>
      if Addressed(s, c) {
        TwinCancel(a, b, s.byClient[OwnerKey(c)], c.requestId);
      } else {
        TwinRefuse(a, b, c, UnknownOrder);
      }
    case Replace =>
      if Addressed(s, c) {
        TwinSubmit(a, b, c, s.byClient[OwnerKey(c)]);
      } else {
        TwinRefuse(a, b, c, UnknownOrder);
      }
    case Snapshot => TwinRefuse(a, b, c, InvalidCommand);
    case Status => TwinRefuse(a, b, c, InvalidCommand);
  }

  lemma {:induction false} TextPrivate(a: seq<Message>, b: seq<Message>, client: ClientId)
    requires SameText(a, b)
    ensures SameText(Private(a, client), Private(b, client))
    decreases |a|
  {
    hide Plain;
    if a != [] {
      assert Plain(a[0]) == Plain(b[0]);
      PlainClient(a[0], b[0]);
      TextPrivate(a[1..], b[1..], client);
      TextPrepend(Private(a[1..], client), Private(b[1..], client), a[0], b[0]);
    }
  }

  lemma PlainClient(x: Message, y: Message)
    requires Plain(x) == Plain(y)
    ensures x.clientId == y.clientId
  {
  }

  lemma TextPrepend(a: seq<Message>, b: seq<Message>, x: Message, y: Message)
    requires SameText(a, b) && Plain(x) == Plain(y)
    ensures SameText([x] + a, [y] + b)
  {
    hide Plain;
  }

  lemma TwinRemember(a: Step, b: Step, c: Message)
    requires TwinStep(a, b) && c.clientId in a.engine.clients
    ensures c.clientId in b.engine.clients
    ensures TwinStep(Remember(a, c), Remember(b, c))
  {
    hide SameText, Private;
    TextPrivate(a.batch.reports, b.batch.reports, c.clientId);
  }

  lemma TwinBegin(s: Engine, t: Engine, c: Message)
    requires Twin(s, t)
    ensures TwinStep(Begin(s, c), Begin(t, c))
    ensures Effective(s, c) == Effective(t, c)
  {
  }

  lemma TwinPerform(s: Engine, t: Engine, c: Message)
    requires Twin(s, t) && Core(s) && Core(t) && Effective(s, c) && Effective(t, c)
    ensures TwinStep(Perform(s, c), Perform(t, c))
  {
    hide Core, Twin, Begin, Business, Remember, EmitReport, SameText, Effective;
    TwinBegin(s, t, c);
    BeginCore(s, c);
    BeginCore(t, c);
    PerformNonzero(s, c);
    BusinessCore(Begin(s, c), c);
    BusinessCore(Begin(t, c), c);
    TwinBusiness(Begin(s, c), Begin(t, c), c);
    var a, b := Business(Begin(s, c), c), Business(Begin(t, c), c);
    TwinCompletion(a.engine, b.engine, c);
    TwinReport(a, b, Completion(a.engine, c), Complete, NoReject);
    EmitEngine(a, Completion(a.engine, c), Complete, NoReject);
    TwinRemember(EmitReport(a, Completion(a.engine, c), Complete, NoReject),
                 EmitReport(b, Completion(b.engine, c), Complete, NoReject), c);
  }

  lemma PerformNonzero(s: Engine, c: Message)
    requires Effective(s, c)
    ensures c.clientId != 0
  {
  }

  lemma TwinCompletion(s: Engine, t: Engine, c: Message)
    requires Twin(s, t)
    ensures Completion(s, c) == Completion(t, c)
  {
    hide SameClients;
  }

  lemma TwinAnswer(s: Engine, t: Engine, c: Message)
    requires Twin(s, t)
    ensures TwinStep(Answer(s, c), Answer(t, c))
  {
    hide EmitReport, Refuse;
    var a, b := Step(s, NO_MESSAGES), Step(t, NO_MESSAGES);
    if c.kind != Command || c.action == Snapshot {
      TwinRefuse(a, b, c, InvalidCommand);
    } else if c.action == Status {
      assert LastRequest(s, c.clientId) == LastRequest(t, c.clientId);
      TwinReport(a, b, c.(requestId := LastRequest(s, c.clientId)), StatusReport, NoReject);
    } else if c.clientId == 0 || c.requestId == 0 {
      TwinRefuse(a, b, c, InvalidCommand);
      TwinReport(Refuse(a, c, InvalidCommand), Refuse(b, c, InvalidCommand), c, Complete, NoReject);
    } else if IsRetry(s, c) {
      assert IsRetry(t, c);
    } else {
      assert !IsRetry(t, c);
      var x, y := Step(WithClient(s, c.clientId), NO_MESSAGES), Step(WithClient(t, c.clientId), NO_MESSAGES);
      TwinRefuse(x, y, c, SequenceReject);
      TwinReport(Refuse(x, c, SequenceReject), Refuse(y, c, SequenceReject), c, Complete, NoReject);
    }
  }

  /** Twins answer a command alike and stay twins. */
  lemma TwinProcess(s: Engine, t: Engine, c: Message)
    requires Twin(s, t) && Core(s) && Core(t)
    ensures TwinStep(Process(s, c), Process(t, c))
  {
    hide Core, Twin, Perform, Answer, Effective, SameText;
    TwinBegin(s, t, c);
    if Effective(s, c) {
      TwinPerform(s, t, c);
    } else {
      TwinAnswer(s, t, c);
    }
  }

  // ---- What is written to the journal -------------------------------------

  /** A status query changes nothing that matters after a restart. */
  lemma StatusIsTwin(s: Engine, c: Message)
    requires Core(s) && c.kind == Command && c.action == Status
    ensures Twin(s, Process(s, c).engine)
  {
    hide Core;
  }

  /** The live engine: snapshot requests are answered without touching it. */
  ghost function LiveRun(s: Engine, requests: seq<Message>): (r: Engine)
    requires Inv(s)
    ensures Inv(r)
    decreases |requests|
  {
    if requests == [] then s
    else if requests[0].action == Snapshot then LiveRun(s, requests[1..])
    else
      ProcessKeepsInv(s, requests[0]);
      LiveRun(Process(s, requests[0]).engine, requests[1..])
  }

  /** The order server admits nothing but commands. */
  ghost predicate AllCommands(requests: seq<Message>) {
    forall c | c in requests :: c.kind == Command
  }

  /** The commands a run appends to the journal. */
  function Journalled(requests: seq<Message>): seq<Message> {
    if requests == [] then []
    else (if Durable(requests[0]) then [requests[0]] else []) + Journalled(requests[1..])
  }

  lemma TwinTransitive(s: Engine, t: Engine, u: Engine)
    requires Twin(s, t) && Twin(s, u)
    ensures Twin(t, u)
  {
    forall k | k in t.clients ensures SameClient(t.clients[k], u.clients[k]) {
      assert SameClient(s.clients[k], t.clients[k]) && SameClient(s.clients[k], u.clients[k]);
    }
  }

  /** Replaying the journalled commands of any run on a twin reproduces the live engine. */
  lemma {:induction false} ReplaySimulates(live: Engine, copy: Engine, requests: seq<Message>)
    requires Inv(live) && Inv(copy) && Twin(live, copy) && AllCommands(requests)
    ensures Twin(LiveRun(live, requests), After(copy, Journalled(requests)))
    decreases |requests|
  {
    hide Core, Bounded, Twin, Process;
    if requests != [] {
      var c := requests[0];
      assert c in requests;
      if c.action == Snapshot {
        assert Journalled(requests) == Journalled(requests[1..]);
        ReplaySimulates(live, copy, requests[1..]);
      } else if c.action == Status {
        assert Journalled(requests) == Journalled(requests[1..]);
        ProcessKeepsInv(live, c);
        StatusIsTwin(live, c);
        TwinTransitive(live, Process(live, c).engine, copy);
        ReplaySimulates(Process(live, c).engine, copy, requests[1..]);
      } else {
        assert Journalled(requests) == [c] + Journalled(requests[1..]);
        assert ([c] + Journalled(requests[1..]))[1..] == Journalled(requests[1..]);
        ProcessKeepsInv(live, c);
        ProcessKeepsInv(copy, c);
        TwinProcess(live, copy, c);
        ReplaySimulates(Process(live, c).engine, Process(copy, c).engine, requests[1..]);
      }
    }
  }

  lemma FreshTwins(instruments: map<InstrumentId, Rules>, capacity: nat, e: nat, f: nat)
    ensures Twin(Fresh(instruments, capacity, e), Fresh(instruments, capacity, f))
  {
  }

  // ---- Crashes ------------------------------------------------------------

  /** The exchange between two steps of its engine thread: what is on disk, what has been processed. */
  datatype Server = Server(journal: seq<Message>, engine: Engine, done: seq<Message>, pending: Option<Message>)

  /** One step: take a request and append it, or process what has been appended, or answer what is not durable. */
  ghost predicate ServerStep(x: Server, y: Server) {
    && Inv(x.engine)
    && exists c: Message :: c.kind == Command && ServerStepWith(x, y, c)
  }

  ghost predicate ServerStepWith(x: Server, y: Server, c: Message)
    requires Inv(x.engine)
  {
    || (x.pending.None? && Durable(c) && y == x.(journal := x.journal + [c], pending := Some(c)))
    || (x.pending == Some(c)
        && y == Server(x.journal, Process(x.engine, c).engine, x.done + [c], None))
    || (x.pending.None? && c.action == Snapshot && y == x.(done := x.done + [c]))
    || (x.pending.None? && c.action == Status
        && y == x.(engine := Process(x.engine, c).engine, done := x.done + [c]))
  }

  /** On disk is everything processed, and at most one command more. */
  ghost predicate WriteAhead(s0: Engine, x: Server)
    requires Inv(s0)
  {
    && x.engine == LiveRun(s0, x.done)
    && x.journal == Journalled(x.done) + (if x.pending.Some? then [x.pending.value] else [])
    && (x.pending.Some? ==> Durable(x.pending.value) && x.pending.value.kind == Command)
    && AllCommands(x.done)
  }

  lemma {:induction false} LiveRunAppend(s: Engine, requests: seq<Message>, c: Message)
    requires Inv(s)
    ensures LiveRun(s, requests + [c]) ==
            if c.action == Snapshot then LiveRun(s, requests) else Process(LiveRun(s, requests), c).engine
    decreases |requests|
  {
    hide Core, Bounded, Process;
    if requests == [] {
      assert requests + [c] == [c] && [c][1..] == [];
    } else {
      assert (requests + [c])[1..] == requests[1..] + [c];
      if requests[0].action == Snapshot {
        LiveRunAppend(s, requests[1..], c);
      } else {
        ProcessKeepsInv(s, requests[0]);
        LiveRunAppend(Process(s, requests[0]).engine, requests[1..], c);
      }
    }
  }

  lemma {:induction false} JournalledAppend(requests: seq<Message>, c: Message)
    ensures Journalled(requests + [c]) == Journalled(requests) + if Durable(c) then [c] else []
    decreases |requests|
  {
    if requests == [] {
      assert requests + [c] == [c] && [c][1..] == [];
    } else {
      assert (requests + [c])[1..] == requests[1..] + [c];
      JournalledAppend(requests[1..], c);
    }
  }

  lemma WriteAheadKept(s0: Engine, x: Server, y: Server)
    requires Inv(s0) && WriteAhead(s0, x) && ServerStep(x, y)
    ensures WriteAhead(s0, y)
  {
    hide Core, Bounded, Process, Journalled, LiveRun;
    var c: Message :| c.kind == Command && ServerStepWith(x, y, c);
    LiveRunAppend(s0, x.done, c);
    JournalledAppend(x.done, c);
  }

  lemma {:induction false} AfterAppend(s: Engine, commands: seq<Message>, c: Message)
    requires Inv(s)
    ensures After(s, commands + [c]) == Process(After(s, commands), c).engine
    decreases |commands|
  {
    hide Core, Bounded, Process;
    if commands == [] {
      assert commands + [c] == [c] && [c][1..] == [];
    } else {
      assert (commands + [c])[1..] == commands[1..] + [c];
      ProcessKeepsInv(s, commands[0]);
      AfterAppend(Process(s, commands[0]).engine, commands[1..], c);
    }
  }

  /**
   A crash at any point: a fresh engine under a new epoch, fed the journal, is the
   engine that crashed, or that engine after the one command that had been written
   but not yet processed. Nothing processed is ever lost.
   */
  lemma CrashRecovery(s0: Engine, restarted: Engine, x: Server)
    requires Inv(s0) && Inv(restarted) && Twin(s0, restarted) && WriteAhead(s0, x)
    ensures var recovered := After(restarted, x.journal);
            Twin(if x.pending.Some? then Process(x.engine, x.pending.value).engine else x.engine, recovered)
  {
    hide Core, Bounded, Process, Journalled, LiveRun, Twin, After;
    ReplaySimulates(s0, restarted, x.done);
    if x.pending.Some? {
      AfterAppend(restarted, Journalled(x.done), x.pending.value);
      TwinProcess(x.engine, After(restarted, Journalled(x.done)), x.pending.value);
    } else {
      assert Journalled(x.done) + [] == Journalled(x.done);
    }
  }

  /** The state before the last append was begun. */
  lemma WithoutPending(s0: Engine, x: Server)
    requires Inv(s0) && WriteAhead(s0, x) && x.pending.Some?
    ensures x.journal != []
    ensures WriteAhead(s0, x.(journal := x.journal[..|x.journal| - 1], pending := None))
  {
    hide Inv, LiveRun;
    assert x.journal[..|x.journal| - 1] == Journalled(x.done) == Journalled(x.done) + [];
  }

  // ---- Any number of crashes and restarts ---------------------------------

  /** The command that was being appended may have been lost. */
  ghost predicate Survives(x: Server, journal: seq<Message>) {
    || journal == x.journal
    || (x.pending.Some? && x.journal != [] && journal == x.journal[..|x.journal| - 1])
  }

  /** A new incarnation: a fresh engine under another epoch that has replayed the journal. */
  ghost predicate Reborn(instruments: map<InstrumentId, Rules>, capacity: nat, f: nat, x: Server, y: Server)
    requires ConfigOk(instruments)
  {
    FreshInv(instruments, capacity, f);
    && Survives(x, y.journal)
    && y == Server(y.journal, After(Fresh(instruments, capacity, f), y.journal), y.journal, None)
  }

  /** A step within an incarnation, or a crash and a restart. */
  ghost predicate LifeStep(instruments: map<InstrumentId, Rules>, capacity: nat, x: Server, y: Server)
    requires ConfigOk(instruments)
  {
    ServerStep(x, y) || exists f: nat :: Reborn(instruments, capacity, f, x, y)
  }

  /** The incarnation that began under epoch `e` is what its journal says. */
  ghost predicate Living(instruments: map<InstrumentId, Rules>, capacity: nat, e: nat, x: Server)
    requires ConfigOk(instruments)
  {
    FreshInv(instruments, capacity, e);
    WriteAhead(Fresh(instruments, capacity, e), x)
  }

  ghost predicate AllDurable(commands: seq<Message>) {
    forall c | c in commands :: c.kind == Command && Durable(c)
  }

  lemma {:induction false} JournalledDurable(requests: seq<Message>)
    requires AllCommands(requests)
    ensures AllDurable(Journalled(requests))
  {
    if requests != [] {
      assert requests[0] in requests;
      JournalledDurable(requests[1..]);
    }
  }

  /** A run of durable commands is its own journal. */
  lemma {:induction false} DurableRun(s: Engine, commands: seq<Message>)
    requires Inv(s) && AllDurable(commands)
    ensures LiveRun(s, commands) == After(s, commands) && Journalled(commands) == commands
    decreases |commands|
  {
    hide Core, Bounded, Process;
    if commands != [] {
      assert commands[0] in commands;
      ProcessKeepsInv(s, commands[0]);
      DurableRun(Process(s, commands[0]).engine, commands[1..]);
      assert commands == [commands[0]] + commands[1..];
    }
  }

  lemma JournalIsDurable(s0: Engine, x: Server)
    requires Inv(s0) && WriteAhead(s0, x)
    ensures AllDurable(x.journal)
    ensures x.pending.Some? ==> x.journal != [] && x.journal[..|x.journal| - 1] == Journalled(x.done)
    ensures x.pending.None? ==> x.journal == Journalled(x.done)
  {
    hide Inv, LiveRun;
    JournalledDurable(x.done);
  }

  /** Whatever survives a crash holds everything that was processed. */
  lemma SurvivorsHoldThePast(s0: Engine, x: Server, journal: seq<Message>)
    requires Inv(s0) && WriteAhead(s0, x) && Survives(x, journal)
    ensures AllDurable(journal) && Journalled(x.done) <= journal
  {
    hide Inv, WriteAhead, Journalled;
    JournalIsDurable(s0, x);
    if x.pending.Some? {
      assert x.journal[..|x.journal| - 1] <= x.journal;
    }
  }

  lemma ReplayedIsWriteAhead(s: Engine, journal: seq<Message>)
    requires Inv(s) && AllDurable(journal)
    ensures WriteAhead(s, Server(journal, After(s, journal), journal, None)) && Journalled(journal) == journal
  {
    hide Inv, After, LiveRun, Journalled;
    DurableRun(s, journal);
    assert journal + [] == journal;
  }

  /** A restart begins an incarnation that is what its journal says, and forgets nothing that was processed. */
  lemma RebornLives(instruments: map<InstrumentId, Rules>, capacity: nat, e: nat, f: nat, x: Server, y: Server)
    requires ConfigOk(instruments) && Living(instruments, capacity, e, x) && Reborn(instruments, capacity, f, x, y)
    ensures Living(instruments, capacity, f, y) && Journalled(x.done) <= Journalled(y.done)
  {
    hide Fresh, Inv, After, WriteAhead, Journalled, Survives;
    FreshInv(instruments, capacity, e);
    FreshInv(instruments, capacity, f);
    SurvivorsHoldThePast(Fresh(instruments, capacity, e), x, y.journal);
    ReplayedIsWriteAhead(Fresh(instruments, capacity, f), y.journal);
  }

  lemma StepLives(instruments: map<InstrumentId, Rules>, capacity: nat, e: nat, x: Server, y: Server)
    requires ConfigOk(instruments) && Living(instruments, capacity, e, x) && ServerStep(x, y)
    ensures Living(instruments, capacity, e, y) && Journalled(x.done) <= Journalled(y.done)
  {
    FreshInv(instruments, capacity, e);
    WriteAheadKept(Fresh(instruments, capacity, e), x, y);
    hide Fresh, Inv, Process, LiveRun, WriteAhead, Journalled;
    var c: Message :| c.kind == Command && ServerStepWith(x, y, c);
    JournalledAppend(x.done, c);
  }

  lemma FirstLives(instruments: map<InstrumentId, Rules>, capacity: nat, e: nat)
    requires ConfigOk(instruments)
    ensures Living(instruments, capacity, e, Server([], Fresh(instruments, capacity, e), [], None))
  {
    FreshInv(instruments, capacity, e);
    hide Inv, Fresh;
  }

  ghost predicate Life(instruments: map<InstrumentId, Rules>, capacity: nat, e: nat, trace: seq<Server>)
    requires ConfigOk(instruments)
  {
    && trace != [] && trace[0] == Server([], Fresh(instruments, capacity, e), [], None)
    && forall j | 0 <= j < |trace| - 1 :: LifeStep(instruments, capacity, trace[j], trace[j + 1])
  }

  /** Through any number of crashes and restarts: what has been processed is never lost, doubled or reordered. */
  lemma {:induction false} EveryLifeKeepsItsPast(instruments: map<InstrumentId, Rules>, capacity: nat, e: nat,
                                                 trace: seq<Server>, i: nat, k: nat) returns (epoch: nat)
    requires ConfigOk(instruments) && Life(instruments, capacity, e, trace) && i <= k < |trace|
    ensures Living(instruments, capacity, epoch, trace[k])
    ensures Journalled(trace[i].done) <= Journalled(trace[k].done)
    decreases k
  {
    hide ServerStep, Journalled, Living, Reborn, Fresh, Inv;
    if k == 0 {
      epoch := e;
      FirstLives(instruments, capacity, e);
    } else {
      var x, y := trace[k - 1], trace[k];
      assert LifeStep(instruments, capacity, trace[k - 1], trace[k - 1 + 1]);
      var before := EveryLifeKeepsItsPast(instruments, capacity, e, trace, if i < k then i else k - 1, k - 1);
      if ServerStep(x, y) {
        epoch := before;
        StepLives(instruments, capacity, before, x, y);
      } else {
        var f: nat :| Reborn(instruments, capacity, f, x, y);
        epoch := f;
        RebornLives(instruments, capacity, before, f, x, y);
      }
    }
  }

  /** Crash anywhere in any life, restart under any epoch: the exchange resumes where it was. */
  lemma EveryCrashRecovers(instruments: map<InstrumentId, Rules>, capacity: nat, e: nat, f: nat, trace: seq<Server>, k: nat)
    requires ConfigOk(instruments) && Life(instruments, capacity, e, trace) && k < |trace|
    ensures Inv(Fresh(instruments, capacity, f)) && Inv(trace[k].engine)
    ensures var recovered := After(Fresh(instruments, capacity, f), trace[k].journal);
            var last := trace[k].pending;
            Twin(if last.Some? then Process(trace[k].engine, last.value).engine else trace[k].engine, recovered)
  {
    hide Life;
    var now := EveryLifeKeepsItsPast(instruments, capacity, e, trace, k, k);
    FreshInv(instruments, capacity, now);
    FreshInv(instruments, capacity, f);
    FreshTwins(instruments, capacity, now, f);
    hide Core, Bounded, Process, Fresh, Twin, After;
    CrashRecovery(Fresh(instruments, capacity, now), Fresh(instruments, capacity, f), trace[k]);
  }
}
