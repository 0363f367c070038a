/** What a command can and cannot do: refusals are inert, and accepted orders trade exactly as planned. */
module Outcome {
  import opened Types
  import opened BookModel
  import opened Positions
  import opened EngineModel
  import opened Exchange
  import opened Refinement

  // ---- Refusals -----------------------------------------------------------

  predicate IsRefusal(m: Message) {
    m.report == Rejected
  }

  /** Reports of a command under way: none is terminal and none is a refusal. */
  ghost predicate Clean(b: Batch) {
    forall m | m in b.reports ::
      m.kind == Report && m.report != Complete && m.report != StatusReport && !IsRefusal(m) && m.reject == NoReject
  }

  lemma MatchOneClean(st: Step, c: Message, leaves: Quantity)
    requires Matchable(st.engine, c) && Clean(st.batch)
    ensures Clean(MatchOne(st, c, leaves).batch)
  {
    hide Traded, MakerAfter;
  }

  lemma {:induction false} MatchAllClean(st: Step, c: Message, leaves: Quantity)
    requires Ready(st.engine, c) && Clean(st.batch)
    ensures Clean(MatchAll(st, c, leaves).batch)
    decreases leaves
  {
    hide Core, MatchOne;
    if CanMatch(st.engine, c, leaves) {
      FrontKnown(st.engine, c);
      MatchOneCore(st, c, leaves);
      MatchOneClean(st, c, leaves);
      MatchAllClean(MatchOne(st, c, leaves), c, leaves - Min(leaves, Front(st.engine, c).quantity));
    }
  }

  lemma EnterClean(st: Step, c: Message, prior: OrderId)
    requires Admissible(st.engine, c, prior) && Clean(st.batch)
    ensures Clean(Enter(st, c, prior).batch)
  {
    hide Core, RiskRefusal, BookRefusal, MatchAll, Leaves, Add, CancelOrder;
    AdmissibleParts(st, c, prior);
    var m := Incoming(st.engine, c);
    MatchAllClean(Accept(st, c, prior), m, c.quantity);
  }

  lemma {:induction false} CancelAllClean(st: Step, ids: seq<OrderId>, request: nat)
    requires Clean(st.batch)
    ensures Clean(CancelAllOf(st, ids, request).batch)
    decreases |ids|
  {
    if ids != [] {
      CancelAllClean(if Live(st.engine, ids[0]) then CancelResting(st, ids[0], request) else st, ids[1..], request);
    }
  }

  /** Everything an outsider can see of the market and of every account. */
  ghost predicate Unchanged(s: Engine, s': Engine) {
    && s'.books == s.books && s'.resting == s.resting && s'.byClient == s.byClient
    && s'.sequence == s.sequence && s'.nextOrder == s.nextOrder && s'.nextTrade == s.nextTrade
    && (forall k, i :: PositionOf(s'.positions, k, i) == PositionOf(s.positions, k, i))
    && (forall k | k in s.clients :: k in s'.clients && s'.clients[k].maxOrderId == s.clients[k].maxOrderId)
  }

  /** Either nothing but a refusal happened, or no refusal was reported. */
  ghost predicate Refused(st: Step, r: Step) {
    Unchanged(st.engine, r.engine) && r.batch.updates == st.batch.updates
  }

  lemma SubmitRefused(st: Step, c: Message, prior: OrderId)
    requires Submittable(st.engine, c, prior) && Clean(st.batch)
    ensures var r := Submit(st, c, prior); Clean(r.batch) || Refused(st, r)
  {
    hide BooksOk, Agreement, Indexed, Issued, HasAccounts, Balanced, AllSound, RiskRefusal, BookRefusal, Enter, Amend, Submit, Refuse, Opened, Refused, Clean;
    SubmitCases(st, c, prior);
    if Admissible(st.engine, c, prior) {
      EnterClean(st, c, prior);
    }
    if KeepsPriority(st.engine, c, prior) && Live(st.engine, prior) {
      AmendClean(st, c, prior);
    }
    RefuseInert(st, c, RiskRefusal(st.engine, c, prior));
    RefuseInert(st, c, if c.instrumentId in st.engine.books then BookRefusal(st.engine, c) else NoReject);
    RefuseInert(st, c, Capacity);
  }

  lemma AmendClean(st: Step, c: Message, prior: OrderId)
    requires KeepsPriority(st.engine, c, prior) && Live(st.engine, prior) && Clean(st.batch)
    ensures Clean(Amend(st, c, prior).batch)
  {
    hide ExecuteOrder;
  }

  lemma RefuseInert(st: Step, c: Message, why: Reject)
    ensures Refused(st, Refuse(st, c, why))
    ensures Refused(st, Refuse(Opened(st, c), c, why))
  {
  }

  lemma BusinessRefused(st: Step, c: Message)
    requires Core(st.engine) && c.clientId != 0 && c.clientId in st.engine.clients && Clean(st.batch)
    ensures var r := Business(st, c); Clean(r.batch) || Refused(st, r)
    ensures forall m | m in Business(st, c).batch.reports ::
              m.report != Complete && m.report != StatusReport && m.kind == Report
  {
    hide BooksOk, Agreement, Issued, HasAccounts, Balanced, AllSound, Submit, CancelAllOf, OrdersOf;
    var s := st.engine;
    BookKeys(s);
    match c.action
    case New =>
      SubmitRefused(st, c, 0);
      SubmitKinds(st, c, 0);
    case CancelAll =>
      CancelAllClean(st, OrdersOf(s, c.clientId, c.instrumentId), c.requestId);
    case Cancel =>
      CancelRefused(st, c);
    case Replace =>
      if Addressed(s, c) {
        SubmitRefused(st, c, s.byClient[OwnerKey(c)]);
        SubmitKinds(st, c, s.byClient[OwnerKey(c)]);
      }
    case Snapshot =>
    case Status =>
  }

  lemma CancelRefused(st: Step, c: Message)
    requires Core(st.engine) && c.clientId != 0 && c.clientId in st.engine.clients && Clean(st.batch) && c.action == Cancel
    ensures var r := Business(st, c); Clean(r.batch) || Refused(st, r)
    ensures forall m | m in Business(st, c).batch.reports ::
              m.report != Complete && m.report != StatusReport && m.kind == Report
  {
    hide BooksOk, Agreement, Issued, HasAccounts, Balanced, AllSound, Submit, CancelAllOf, OrdersOf;
    BookKeys(st.engine);
  }

  lemma SubmitKinds(st: Step, c: Message, prior: OrderId)
    requires Submittable(st.engine, c, prior) && Clean(st.batch)
    ensures forall m | m in Submit(st, c, prior).batch.reports ::
              m.report != Complete && m.report != StatusReport && m.kind == Report
  {
    hide Core, RiskRefusal, BookRefusal, Enter, ExecuteOrder, Submit;
    SubmitCases(st, c, prior);
    if Admissible(st.engine, c, prior) {
      EnterClean(st, c, prior);
    }
  }

  lemma PerformRefused(s: Engine, c: Message)
    requires Core(s) && Effective(s, c)
    ensures var r := Perform(s, c);
            (exists m :: m in r.batch.reports && IsRefusal(m)) ==> Unchanged(s, r.engine) && r.batch.updates == []
  {
    assert Clean(NO_MESSAGES);
    BeginUnchanged(s, c);
    hide Core, Begin, Business, Completion, Private, PositionOf, Clean, Unchanged;
    BeginCore(s, c);
    BeginQuiet(s, c);
    BusinessCore(Begin(s, c), c);
    BusinessRefused(Begin(s, c), c);
    var done := Business(Begin(s, c), c);
    if Clean(done.batch) {
      CleanRefusals(done.batch);
    } else {
      RememberUnchanged(done, c);
      UnchangedChain(s, Begin(s, c).engine, done.engine, Perform(s, c).engine);
    }
  }

  lemma BeginUnchanged(s: Engine, c: Message)
    ensures Unchanged(s, Begin(s, c).engine)
  {
  }

  lemma BeginQuiet(s: Engine, c: Message)
    ensures Begin(s, c).batch == NO_MESSAGES
  {
  }

  lemma RememberUnchanged(done: Step, c: Message)
    requires c.clientId in done.engine.clients
    ensures Unchanged(done.engine, Remember(EmitReport(done, Completion(done.engine, c), Complete, NoReject), c).engine)
  {
    hide Private, Completion, StampReport;
  }

  lemma UnchangedChain(s0: Engine, s1: Engine, s2: Engine, s3: Engine)
    requires Unchanged(s0, s1) && Unchanged(s1, s2) && Unchanged(s2, s3)
    ensures Unchanged(s0, s3)
  {
    hide PositionOf;
  }

  lemma CleanRefusals(b: Batch)
    requires Clean(b)
    ensures forall m | m in b.reports :: !IsRefusal(m)
  {
  }

  /** A command that reports a refusal publishes nothing and changes nothing observable, whatever the reason. */
  lemma RejectionIsInert(s: Engine, c: Message)
    requires Inv(s)
    ensures var r := Process(s, c);
            (exists m :: m in r.batch.reports && IsRefusal(m)) ==> Unchanged(s, r.engine) && r.batch.updates == []
  {
    hide Core, Bounded, Perform, Answer;
    if Effective(s, c) {
      PerformRefused(s, c);
    } else {
      AnswerKeeps(s, c);
    }
  }

  // ---- Price-time priority ------------------------------------------------

  /** The plan takes the queue from the front, in order, each order in full except possibly the last. */
  lemma {:induction false} PlanFollowsPriority(c: Message, queue: seq<Entry>, quantity: Quantity)
    ensures var plan := Plan(c, queue, quantity);
            && |plan| <= |queue|
            && (forall k | 0 <= k < |plan| ::
                  && plan[k].id == queue[k].id && plan[k].price == queue[k].price
                  && plan[k].size <= queue[k].quantity && Crosses(c, queue[k].price))
            && (forall k | 0 <= k < |plan| - 1 :: plan[k].size == queue[k].quantity)
    decreases |queue|
  {
    if queue != [] && quantity != 0 && Crosses(c, queue[0].price) {
      var size := Min(quantity, queue[0].quantity);
      PlanFollowsPriority(c, queue[1..], quantity - size);
      var rest := Plan(c, queue[1..], quantity - size);
      var plan := Plan(c, queue, quantity);
      assert plan == [PlannedFill(queue[0].id, queue[0].price, size)] + rest;
      forall k | 0 <= k < |plan|
        ensures plan[k].id == queue[k].id && plan[k].price == queue[k].price
        ensures plan[k].size <= queue[k].quantity && Crosses(c, queue[k].price)
        ensures k < |plan| - 1 ==> plan[k].size == queue[k].quantity
      {
        if k > 0 {
          assert plan[k] == rest[k - 1] && queue[k] == queue[1..][k - 1];
        }
      }
    }
  }

  /** Quantity is neither lost nor invented: fills plus what is left is what was ordered. */
  lemma {:induction false} PlanConserves(c: Message, queue: seq<Entry>, quantity: Quantity)
    ensures PlannedQuantity(Plan(c, queue, quantity)) + Leaves(c, queue, quantity) == quantity
    decreases |queue|
  {
    if queue != [] && quantity != 0 && Crosses(c, queue[0].price) {
      var size := Min(quantity, queue[0].quantity);
      PlanConserves(c, queue[1..], quantity - size);
      assert Plan(c, queue, quantity)[1..] == Plan(c, queue[1..], quantity - size);
    }
  }

  /** Something is left only if everything that crosses has been used up. */
  lemma {:induction false} LeavesOnlyWhenExhausted(c: Message, queue: seq<Entry>, quantity: Quantity)
    requires Positive(queue)
    ensures var plan := Plan(c, queue, quantity);
            && |plan| <= |queue|
            && (Leaves(c, queue, quantity) > 0 ==> |plan| == |queue| || !Crosses(c, queue[|plan|].price))
    decreases |queue|
  {
    if queue != [] && quantity != 0 && Crosses(c, queue[0].price) {
      var size := Min(quantity, queue[0].quantity);
      LeavesOnlyWhenExhausted(c, queue[1..], quantity - size);
    }
  }

  // ---- The published executions -------------------------------------------

  /** The executions announced by a stream of deltas. */
  function Executions(updates: seq<Message>): seq<PlannedFill> {
    if updates == [] then [] else Execution(updates[0]) + Executions(updates[1..])
  }

  /** The fill that one delta publishes, if it publishes one. */
  function Execution(m: Message): seq<PlannedFill> {
    if m.update == ExecuteUpdate then [PlannedFill(m.exchangeId, m.price, m.quantity)] else []
  }

  lemma {:induction false} ExecutionsAppend(a: seq<Message>, b: seq<Message>)
    ensures Executions(a + b) == Executions(a) + Executions(b)
    decreases |a|
  {
    if a == [] {
      assert a + b == b;
    } else {
      hide Execution;
      assert (a + b)[0] == a[0] && (a + b)[1..] == a[1..] + b;
      ExecutionsAppend(a[1..], b);
    }
  }

  lemma MatchOneExecutes(st: Step, c: Message, leaves: Quantity)
    requires Ready(st.engine, c) && OppositeQueue(st.engine, c) != [] && leaves > 0
    ensures Matchable(st.engine, c)
    ensures var e := OppositeQueue(st.engine, c)[0];
            Executions(MatchOne(st, c, leaves).batch.updates)
              == Executions(st.batch.updates) + [PlannedFill(e.id, e.price, Min(leaves, e.quantity))]
  {
    hide BooksOk, Agreement, Indexed, HasAccounts, Balanced, AllSound, TradeWith, Traded;
    FrontKnown(st.engine, c);
    var s := st.engine;
    var e := OppositeQueue(s, c)[0];
    var size := Min(leaves, e.quantity);
    MatchOneTradable(s, c, leaves);
    TradeWithParts(st, c, e.id, e.price, size, leaves);
    var st' := MatchOne(st, c, leaves);
    var n := |st.batch.updates|;
    var x, t := st'.batch.updates[n], st'.batch.updates[n + 1];
    assert st'.batch.updates == st.batch.updates + [x, t];
    assert x.exchangeId == e.id && x.price == e.price && x.quantity == size && x.update == ExecuteUpdate;
    assert t.update == TradeUpdate;
    ExecutionsAppend(st.batch.updates, [x, t]);
    assert [x, t][1..] == [t] && [t][1..] == [];
    assert Executions([t]) == [];
    assert Executions([x, t]) == [PlannedFill(e.id, e.price, size)];
  }

  /** Repeatedly taking the best-priced, oldest crossing order makes exactly the planned fills. */
  lemma {:induction false} MatchAllExecutes(st: Step, c: Message, leaves: Quantity)
    requires Ready(st.engine, c)
    ensures Executions(MatchAll(st, c, leaves).batch.updates)
         == Executions(st.batch.updates) + Plan(c, OppositeQueue(st.engine, c), leaves)
    decreases leaves
  {
    hide Core, MatchOne, Executions;
    if CanMatch(st.engine, c, leaves) {
      FrontKnown(st.engine, c);
      MatchOneCore(st, c, leaves);
      MatchOneFrame(st, c, leaves);
      MatchOneExecutes(st, c, leaves);
      var q := OppositeQueue(st.engine, c);
      var st1 := MatchOne(st, c, leaves);
      var left := leaves - Min(leaves, q[0].quantity);
      PlanStep(c, q, OppositeQueue(st1.engine, c), leaves);
      MatchAllExecutes(st1, c, left);
    }
  }

  /** Announcing cancellations and additions executes nothing. */
  lemma EnterExecutes(st: Step, c: Message, prior: OrderId)
    requires Admissible(st.engine, c, prior)
    ensures Executions(Enter(st, c, prior).batch.updates)
         == Executions(st.batch.updates) + Plan(c, OppositeQueue(st.engine, c), c.quantity)
  {
    hide Core, RiskRefusal, BookRefusal, MatchAll, Leaves, Add, CancelOrder, Plan;
    AdmissibleParts(st, c, prior);
    SweepReady(st, c, prior);
    var m := Incoming(st.engine, c);
    var st1 := Accept(st, c, prior);
    MatchAllExecutes(st1, m, c.quantity);
    QuietAppend(st.batch.updates, st1.batch.updates);
    var st2 := MatchAll(st1, m, c.quantity);
    QuietAppend(st2.batch.updates, Enter(st, c, prior).batch.updates);
  }

  /** A stream that grew by at most one delta that is no execution announces no more executions. */
  lemma QuietAppend(a: seq<Message>, b: seq<Message>)
    ensures (b == a || (|b| == |a| + 1 && b[..|a|] == a && b[|a|].update != ExecuteUpdate)) ==>
            Executions(b) == Executions(a)
  {
    if b != a && |b| == |a| + 1 && b[..|a|] == a {
      assert b == a + [b[|a|]];
      ExecutionsAppend(a, [b[|a|]]);
      assert [b[|a|]][1..] == [];
    }
  }

  // ---- One order, start to end --------------------------------------------

  /** The number of an entered order is in use afterwards exactly if its residual rests. */
  lemma EnterRests(st: Step, c: Message, prior: OrderId)
    requires Admissible(st.engine, c, prior)
    ensures var s := st.engine;
            var s' := Enter(st, c, prior).engine;
            var left := Leaves(c, OppositeQueue(s, c), c.quantity);
            && (Rests(c, left) ==>
                  && s.nextOrder in s'.resting
                  && s'.resting[s.nextOrder] == Incoming(s, c).(quantity := left, remaining := left))
            && (!Rests(c, left) ==> s.nextOrder !in s'.resting)
  {
    hide BooksOk, Agreement, Indexed, HasAccounts, Balanced, AllSound, RiskRefusal, Accept, Add, MatchAll, Leaves, Crosses;
    AdmissibleParts(st, c, prior);
    AcceptParts(st, c, prior);
    MatchAllStops(Accept(st, c, prior), Incoming(st.engine, c), c.quantity);
  }

  /** The cancellations that a stream of reports tells of. */
  function Expiries(reports: seq<Message>): seq<Message> {
    if reports == [] then []
    else
      var before, m := Expiries(reports[..|reports| - 1]), reports[|reports| - 1];
      if m.report == Cancelled then before + [m] else before
  }

  lemma ExpiriesMore(reports: seq<Message>, m: Message)
    ensures Expiries(reports + [m]) == if m.report == Cancelled then Expiries(reports) + [m] else Expiries(reports)
  {
    assert (reports + [m])[..|reports|] == reports;
  }

  lemma EmitExpiries(st: Step, m: Message, kind: ReportType, reason: Reject)
    ensures var x := StampReport(m, kind, reason, st.engine.epoch, st.engine.responseSequence + 1);
      Expiries(EmitReport(st, m, kind, reason).batch.reports)
        == if kind == Cancelled then Expiries(st.batch.reports) + [x] else Expiries(st.batch.reports)
  {
    hide Expiries;
    ExpiriesMore(st.batch.reports, StampReport(m, kind, reason, st.engine.epoch, st.engine.responseSequence + 1));
  }

  /** Trading cancels nothing. */
  lemma MatchOneExpiries(st: Step, c: Message, leaves: Quantity)
    requires Matchable(st.engine, c)
    ensures Expiries(MatchOne(st, c, leaves).batch.reports) == Expiries(st.batch.reports)
  {
    hide Traded, MakerAfter, Expiries;
    var reports := MatchOne(st, c, leaves).batch.reports;
    var n := |st.batch.reports|;
    assert reports == st.batch.reports + [reports[n]] + [reports[n + 1]];
    ExpiriesMore(st.batch.reports, reports[n]);
    ExpiriesMore(st.batch.reports + [reports[n]], reports[n + 1]);
  }

  lemma {:induction false} MatchAllExpiries(st: Step, c: Message, leaves: Quantity)
    requires Ready(st.engine, c)
    ensures Expiries(MatchAll(st, c, leaves).batch.reports) == Expiries(st.batch.reports)
    decreases leaves
  {
    hide Core, MatchOne, Expiries;
    if CanMatch(st.engine, c, leaves) {
      FrontKnown(st.engine, c);
      MatchOneCore(st, c, leaves);
      MatchOneExpiries(st, c, leaves);
      MatchAllExpiries(MatchOne(st, c, leaves), c, leaves - Min(leaves, Front(st.engine, c).quantity));
    }
  }

  /** Acceptance reports no cancellation, not even of the order that is replaced. */
  lemma AcceptExpiries(st: Step, c: Message, prior: OrderId)
    requires c.clientId in st.engine.clients && (prior != 0 ==> Live(st.engine, prior))
    ensures Expiries(Accept(st, c, prior).batch.reports) == Expiries(st.batch.reports)
  {
    hide Expiries, CancelOrder;
    var reports := Accept(st, c, prior).batch.reports;
    ExpiriesMore(st.batch.reports, reports[|st.batch.reports|]);
    assert reports == st.batch.reports + [reports[|st.batch.reports|]];
  }

  /** What is left of an order and does not rest expires under one report that carries exactly that quantity. */
  ghost predicate Expires(s: Engine, c: Message, left: Quantity, cancelled: seq<Message>) {
    if left == 0 || Rests(c, left) then cancelled == []
    else
      && |cancelled| == 1 && cancelled[0].exchangeId == s.nextOrder
      && cancelled[0].clientId == c.clientId && cancelled[0].orderId == c.orderId
      && cancelled[0].quantity == left && cancelled[0].remaining == 0
  }

  lemma EnterExpires(st: Step, c: Message, prior: OrderId)
    requires Admissible(st.engine, c, prior) && st.batch == NO_MESSAGES
    ensures Expires(st.engine, c, Leaves(c, OppositeQueue(st.engine, c), c.quantity),
                    Expiries(Enter(st, c, prior).batch.reports))
  {
    hide Core, RiskRefusal, BookRefusal, MatchAll, Leaves, Add, CancelOrder, Accept, Expiries, OppositeQueue;
    AdmissibleParts(st, c, prior);
    AcceptExpiries(st, c, prior);
    var m, left := Incoming(st.engine, c), Leaves(c, OppositeQueue(st.engine, c), c.quantity);
    var swept := MatchAll(Accept(st, c, prior), m, c.quantity);
    MatchAllExpiries(Accept(st, c, prior), m, c.quantity);
    EmitExpiries(swept, m.(quantity := left, remaining := 0), Cancelled, NoReject);
    assert Expiries([]) == [] by { NothingCancelled(); }
  }

  lemma NothingCancelled()
    ensures Expiries([]) == []
  {
  }

  /**
   The life of an admitted new order: its executions are the plan, fills plus
   residual make up its quantity, the residual rests only for a limit order good
   till cancelled and otherwise expires under one report, and fill-or-kill leaves none.
   */
  lemma OrderOutcome(st: Step, c: Message, prior: OrderId)
    requires Admissible(st.engine, c, prior) && st.batch == NO_MESSAGES
    ensures var s := st.engine;
            var r := Enter(st, c, prior);
            var fills := Executions(r.batch.updates);
            var left := Leaves(c, OppositeQueue(s, c), c.quantity);
            && fills == Plan(c, OppositeQueue(s, c), c.quantity)
            && PlannedQuantity(fills) + left == c.quantity
            && (c.tif == FOK ==> PlannedQuantity(fills) == c.quantity)
            && (s.nextOrder in r.engine.resting <==> left > 0 && c.orderType == Limit && c.tif == GTC)
            && (s.nextOrder in r.engine.resting ==> r.engine.resting[s.nextOrder].quantity == left)
            && Expires(s, c, left, Expiries(r.batch.reports))
  {
    hide Core, RiskRefusal, Enter, Executions, Plan, Leaves, PlannedQuantity, BookRefusal, OppositeQueue, KeepsPriority;
    hide Expires, Expiries;
    NothingExecuted();
    EnterExpires(st, c, prior);
    FokFits(st.engine, c, prior);
    EnterExecutes(st, c, prior);
    PlanConserves(c, OppositeQueue(st.engine, c), c.quantity);
    EnterRests(st, c, prior);
  }

  /** An admitted fill-or-kill order finds everything it asks for. */
  lemma FokFits(s: Engine, c: Message, prior: OrderId)
    requires Admissible(s, c, prior)
    ensures c.tif == FOK ==> Leaves(c, OppositeQueue(s, c), c.quantity) == 0
  {
    hide Core, RiskRefusal, Leaves, SweepRefusal;
  }

  lemma NothingExecuted()
    ensures Executions([]) == []
  {
  }

  // ---- The same, of a whole command ---------------------------------------

  /** The open order that a command replaces, or none. */
  function ReplacedOrder(s: Engine, c: Message): OrderId {
    if c.action == Replace && OwnerKey(c) in s.byClient then s.byClient[OwnerKey(c)] else 0
  }

  /** The command enters an order: a new one, or a replacement that gives up its place in the queue. */
  predicate EntersOrder(s: Engine, c: Message) {
    || c.action == New
    || (c.action == Replace && Addressed(s, c) && !KeepsPriority(s, c, ReplacedOrder(s, c)))
  }

  /** What becomes of an order that has been entered and not refused. */
  ghost predicate TradedAsPlanned(s: Engine, c: Message, r: Step) {
    && c.instrumentId in s.books
    && var fills := Executions(r.batch.updates);
       var left := Leaves(c, OppositeQueue(s, c), c.quantity);
       && fills == Plan(c, OppositeQueue(s, c), c.quantity)
       && PlannedQuantity(fills) + left == c.quantity
       && (c.tif == FOK ==> PlannedQuantity(fills) == c.quantity)
       && (s.nextOrder in r.engine.resting <==> left > 0 && c.orderType == Limit && c.tif == GTC)
       && (s.nextOrder in r.engine.resting ==> r.engine.resting[s.nextOrder].quantity == left)
       && Expires(s, c, left, Expiries(r.batch.reports))
  }

  lemma RefuseReports(st: Step, c: Message, why: Reject)
    ensures exists m :: m in Refuse(st, c, why).batch.reports && IsRefusal(m)
  {
    var reports := Refuse(st, c, why).batch.reports;
    var m := reports[|reports| - 1];
    assert m in reports && IsRefusal(m);
  }

  lemma EnterTrades(st: Step, c: Message, prior: OrderId)
    requires Admissible(st.engine, c, prior) && st.batch == NO_MESSAGES
    ensures TradedAsPlanned(st.engine, c, Enter(st, c, prior))
  {
    hide Core, RiskRefusal, BookRefusal, Enter, Executions, Plan, Leaves, PlannedQuantity, OppositeQueue, KeepsPriority;
    hide Expires, Expiries;
    OrderOutcome(st, c, prior);
  }

  /** Order entry refuses, or trades as planned. */
  lemma SubmitOutcome(st: Step, c: Message, prior: OrderId)
    requires Submittable(st.engine, c, prior) && st.batch == NO_MESSAGES && !KeepsPriority(st.engine, c, prior)
    ensures var r := Submit(st, c, prior);
      (exists m :: m in r.batch.reports && IsRefusal(m)) || TradedAsPlanned(st.engine, c, r)
  {
    assert forall i | i in st.engine.instruments :: ValidRules(st.engine.instruments[i]);
    hide Core, RiskRefusal, BookRefusal, Submit, Enter, Amend, Refuse, Opened, IsRefusal, KeepsPriority, TradedAsPlanned;
    SubmitCases(st, c, prior);
    if Admissible(st.engine, c, prior) && Submit(st, c, prior) == Enter(st, c, prior) {
      EnterTrades(st, c, prior);
    } else {
      RefuseReports(st, c, RiskRefusal(st.engine, c, prior));
      RefuseReports(Opened(st, c), c, Capacity);
      if c.instrumentId in st.engine.books {
        RefuseReports(st, c, BookRefusal(st.engine, c));
      }
    }
  }

  lemma BeginSame(s: Engine, c: Message)
    ensures var b := Begin(s, c).engine;
      b.books == s.books && b.resting == s.resting && b.byClient == s.byClient && b.nextOrder == s.nextOrder
  {
  }

  lemma BusinessOutcome(st: Step, c: Message)
    requires Core(st.engine) && c.clientId != 0 && c.clientId in st.engine.clients && st.batch == NO_MESSAGES
    requires EntersOrder(st.engine, c)
    ensures var r := Business(st, c);
      (exists m :: m in r.batch.reports && IsRefusal(m)) || TradedAsPlanned(st.engine, c, r)
  {
    hide BooksOk, Agreement, Issued, HasAccounts, Balanced, AllSound, Submit, IsRefusal, TradedAsPlanned;
    BookKeys(st.engine);
    SubmitOutcome(st, c, ReplacedOrder(st.engine, c));
  }

  /** Completing and remembering a command moves neither its deltas nor the resting orders. */
  lemma PerformSpelled(s: Engine, c: Message)
    requires Core(s) && Effective(s, c)
    ensures Core(Begin(s, c).engine) && c.clientId in Begin(s, c).engine.clients
    ensures var done, r := Business(Begin(s, c), c), Perform(s, c);
      && r.batch.updates == done.batch.updates && r.engine.resting == done.engine.resting
      && (forall m | m in done.batch.reports :: m in r.batch.reports)
      && Expiries(r.batch.reports) == Expiries(done.batch.reports)
  {
    hide Core, Begin, Business, Completion, Private, StampReport, Expiries;
    BeginCore(s, c);
    BusinessCore(Begin(s, c), c);
    var done := Business(Begin(s, c), c);
    EmitExpiries(done, Completion(done.engine, c), Complete, NoReject);
  }

  /**
   Every effective command that enters an order either reports a refusal, and then by `RejectionIsInert` changes
   nothing, or trades exactly as planned: the published executions are the plan at maker prices, fills and
   residual make up the quantity, fill-or-kill leaves none, and only a good-till-cancelled limit residual rests.
   */
  lemma CommandOutcome(s: Engine, c: Message)
    requires Inv(s) && Effective(s, c) && EntersOrder(s, c)
    ensures var r := Process(s, c);
      (exists m :: m in r.batch.reports && IsRefusal(m)) || TradedAsPlanned(s, c, r)
  {
    hide Core, Bounded, Begin, Business, Perform, EntersOrder, IsRefusal, TradedAsPlanned;
    BeginSame(s, c);
    BeginQuiet(s, c);
    SameEntry(s, Begin(s, c).engine, c);
    PerformSpelled(s, c);
    BusinessOutcome(Begin(s, c), c);
    var done := Business(Begin(s, c), c);
    if exists m :: m in done.batch.reports && IsRefusal(m) {
      var m :| m in done.batch.reports && IsRefusal(m);
      assert m in Process(s, c).batch.reports;
    } else {
      SameTrade(s, Begin(s, c).engine, c, done, Process(s, c));
    }
  }

  lemma SameEntry(s: Engine, s': Engine, c: Message)
    requires s'.resting == s.resting && s'.byClient == s.byClient
    ensures EntersOrder(s', c) == EntersOrder(s, c)
  {
  }

  lemma SameTrade(s: Engine, s': Engine, c: Message, r: Step, r': Step)
    requires s'.books == s.books && s'.nextOrder == s.nextOrder
    requires r'.batch.updates == r.batch.updates && r'.engine.resting == r.engine.resting
    requires Expiries(r'.batch.reports) == Expiries(r.batch.reports)
    ensures TradedAsPlanned(s', c, r) == TradedAsPlanned(s, c, r')
  {
    hide Executions, Plan, Leaves, PlannedQuantity, Expiries;
  }
}
