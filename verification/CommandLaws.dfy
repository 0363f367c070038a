/**
 The rest of the command dispatch: how every effective command is completed, what a
 replacement in place does, and what is answered to queries and to commands without effect.
 */
module CommandLaws {
  import opened Types
  import opened BookModel
  import opened Positions
  import opened EngineModel
  import opened AgreementLemmas
  import opened Exchange
  import opened Exposure
  import opened Refinement
  import opened Outcome
  import opened Sequencing
  import opened Limits
  import opened OrderBooks
  import opened BookLaws
  import opened CancelLaws
  import opened SweepLaws
  import opened EntryLaws

  // ---- Who trades with whom -----------------------------------------------

  /** The fills of an order that may enter: none with the client itself, and none at all for post-only. */
  lemma FillsAllowed(s: Engine, c: Message)
    requires Inv(s) && c.instrumentId in s.books && c.quantity > 0 && BookAccepts(s, c)
    ensures var fills := Plan(c, Against(s, c), c.quantity);
      && (c.postOnly ==> fills == [])
      && forall k | 0 <= k < |fills| :: fills[k].id in s.resting && s.resting[fills[k].id].clientId != c.clientId
  {
    hide Core, Bounded, Plan, ReachesOwn, Ordered, Accepts, Offered, Against;
    var queue := Against(s, c);
    var fills := Plan(c, queue, c.quantity);
    PlanFollowsPriority(c, queue, c.quantity);
    AcceptsIsCrosses(c);
    StandingKnown(s, c);
    forall k | 0 <= k < |fills| ensures fills[k].id in s.resting && s.resting[fills[k].id].clientId != c.clientId {
      assert queue[k] in queue;
      PlanReaches(c, queue, c.quantity, k);
      NotReached(s, c, queue, c.quantity, k);
    }
  }

  lemma StandingKnown(s: Engine, c: Message)
    requires Core(s)
    ensures forall e | e in Against(s, c) :: e.id in s.resting
  {
    hide BooksOk, Indexed, Issued, HasAccounts, Balanced, AllSound;
    assert c.instrumentId in s.books ==> Against(s, c) == s.books[c.instrumentId].Queue(c.side.Opposite());
  }

  lemma AcceptsIsCrosses(c: Message)
    ensures forall p :: Accepts(c, p) <==> Crosses(c, p)
  {
  }

  ghost predicate ReachedOwn(s: Engine, c: Message, queue: seq<Entry>, quantity: nat, k: nat) {
    && k < |queue| && Accepts(c, queue[k].price) && Sum(queue[..k]) < quantity
    && queue[k].id in s.resting && s.resting[queue[k].id].clientId == c.clientId
  }

  lemma NotReached(s: Engine, c: Message, queue: seq<Entry>, quantity: nat, k: nat)
    requires !ReachesOwn(s, c, queue, quantity)
    ensures !ReachedOwn(s, c, queue, quantity, k)
  {
  }

  /** A planned fill is reached before the order is filled. */
  lemma {:induction false} PlanReaches(c: Message, queue: seq<Entry>, quantity: nat, k: nat)
    requires k < |Plan(c, queue, quantity)|
    ensures k < |queue| && Crosses(c, queue[k].price) && Sum(queue[..k]) < quantity
  {
    if k > 0 {
      PlanReaches(c, queue[1..], quantity - Min(quantity, queue[0].quantity), k - 1);
      assert queue[..k][1..] == queue[1..][..k - 1];
    }
  }

  // ---- Completion ---------------------------------------------------------

  /** The open order of the client under the number that the command names. */
  predicate IsNamed(m: Message, c: Message) {
    m.clientId == c.clientId && m.orderId == c.orderId
  }

  /**
   Every effective command ends with one report that echoes it, with the number and the open quantity of the client's
   order if it is open; it is counted, and remembered as the client's last.
   */
  lemma CompletionLaw(s: Engine, c: Message)
    requires Inv(s) && Effective(s, c)
    ensures var r := Process(s, c);
      && r.batch.reports != []
      && var last := r.batch.reports[|r.batch.reports| - 1];
      && (forall id | id in r.engine.resting && IsNamed(r.engine.resting[id], c) ::
            last == AsReport(c.(exchangeId := id, remaining := r.engine.resting[id].quantity), Complete, s.epoch, r.engine.responseSequence))
      && ((forall id | id in r.engine.resting :: !IsNamed(r.engine.resting[id], c)) ==>
            last == AsReport(c, Complete, s.epoch, r.engine.responseSequence))
      && c.clientId in r.engine.clients && r.engine.stats.commands == s.stats.commands + 1
      && r.engine.clients[c.clientId].lastRequest == c.requestId && r.engine.clients[c.clientId].lastCommand == c
  {
    hide Core, Bounded, Begin, Business, Private, Completion, IsNamed;
    BeginCore(s, c);
    BusinessCore(Begin(s, c), c);
    BeginSpelled(s, c);
    BusinessCommands(Begin(s, c), c);
    var done := Business(Begin(s, c), c);
    CompletionNames(done.engine, c);
  }

  lemma CompletionNames(s: Engine, c: Message)
    requires Core(s)
    ensures forall id | id in s.resting && IsNamed(s.resting[id], c) ::
      Completion(s, c) == c.(exchangeId := id, remaining := s.resting[id].quantity)
    ensures (forall id | id in s.resting :: !IsNamed(s.resting[id], c)) ==> Completion(s, c) == c
  {
    hide BooksOk, Agreement, Issued, HasAccounts, Balanced, AllSound;
    assert forall id | id in s.resting && IsNamed(s.resting[id], c) :: OwnerKey(s.resting[id]) == OwnerKey(c);
  }

  /** Only the dispatch counts commands. */
  lemma BusinessCommands(st: Step, c: Message)
    requires Core(st.engine) && c.clientId != 0 && c.clientId in st.engine.clients
    ensures Business(st, c).engine.stats.commands == st.engine.stats.commands
  {
    hide BooksOk, Agreement, Issued, HasAccounts, Balanced, AllSound, Submit, CancelAllOf, OrdersOf;
    BookKeys(st.engine);
    if c.action == New {
      SubmitCommands(st, c, 0);
    } else if c.action == Replace && Addressed(st.engine, c) {
      SubmitCommands(st, c, st.engine.byClient[OwnerKey(c)]);
    } else if c.action == CancelAll {
      CancelAllCommands(st, OrdersOf(st.engine, c.clientId, c.instrumentId), c.requestId);
    }
  }

  lemma {:induction false} CancelAllCommands(st: Step, ids: seq<OrderId>, request: nat)
    ensures CancelAllOf(st, ids, request).engine.stats == st.engine.stats
    decreases |ids|
  {
    if ids != [] {
      CancelAllCommands(if Live(st.engine, ids[0]) then CancelResting(st, ids[0], request) else st, ids[1..], request);
    }
  }

  lemma SubmitCommands(st: Step, c: Message, prior: OrderId)
    requires Submittable(st.engine, c, prior)
    ensures Submit(st, c, prior).engine.stats.commands == st.engine.stats.commands
  {
    hide Core, RiskRefusal, BookRefusal, ExecuteOrder, Enter, Submit;
    SubmitCases(st, c, prior);
    if Admissible(st.engine, c, prior) {
      EnterCommands(st, c, prior);
    }
  }

  lemma EnterCommands(st: Step, c: Message, prior: OrderId)
    requires Admissible(st.engine, c, prior)
    ensures Enter(st, c, prior).engine.stats.commands == st.engine.stats.commands
  {
    hide Core, RiskRefusal, BookRefusal, Enter, MatchAll, Leaves, Accept, Plan, PlannedQuantity, Finish;
    hide Exchange.Ready, OppositeQueue, Crosses;
    EnterSweep(st, c, prior);
    var m, st1 := Numbered(st.engine, c), Accept(st, c, prior);
    AcceptCommands(st, c, prior);
    SweepReduces(st1, m, c.quantity);
    MatchAllStops(st1, m, c.quantity);
    FinishTold(MatchAll(st1, m, c.quantity), m, Unfilled(c, Plan(c, OppositeQueue(st.engine, c), c.quantity)));
  }

  lemma AcceptCommands(st: Step, c: Message, prior: OrderId)
    requires c.clientId in st.engine.clients && (prior != 0 ==> Live(st.engine, prior))
    ensures Accept(st, c, prior).engine.stats == st.engine.stats
  {
    hide OpenAccount, CancelOrder;
  }

  // ---- A replacement in place ---------------------------------------------

  ghost predicate AllSetInPlace(books: map<InstrumentId, Book>, books': map<InstrumentId, Book>, id: OrderId,
                                quantity: Quantity) {
    && books'.Keys == books.Keys
    && forall i, side | i in books :: SetInPlace(books[i].Queue(side), books'[i].Queue(side), id, quantity)
  }

  /** The order has the new quantity and keeps its place; it is acknowledged, and published if it shrank. */
  ghost predicate Amended(s: Engine, c: Message, id: OrderId, s': Engine, reports: seq<Message>, updates: seq<Message>)
    requires id in s.resting
  {
    var m := c.(exchangeId := id, remaining := c.quantity);
    && s'.resting == s.resting[id := s.resting[id].(quantity := c.quantity)]
    && AllSetInPlace(s.books, s'.books, id, c.quantity)
    && reports == [AsReport(m, ReportType.Replaced, s.epoch, s.responseSequence + 1)]
    && updates == (if c.quantity == s.resting[id].quantity then [] else [AsDelta(m, ReduceUpdate, s.epoch, s.sequence + 1)])
    && s'.positions == s.positions && s'.byClient == s.byClient && s'.nextOrder == s.nextOrder && s'.nextTrade == s.nextTrade
    && s'.sequence == s.sequence + |updates|
    && s'.stats.trades == s.stats.trades && s'.stats.volume == s.stats.volume && s'.stats.rejected == s.stats.rejected
  }

  lemma NothingSet(books: map<InstrumentId, Book>, resting: map<OrderId, Message>, id: OrderId)
    requires Agreement(books, resting) && id in resting
    ensures AllSetInPlace(books, books, id, resting[id].quantity)
  {
    forall i, side, k | i in books && 0 <= k < |books[i].Queue(side)| && books[i].Queue(side)[k].id == id
      ensures books[i].Queue(side)[k].quantity == resting[id].quantity
    {
      var e := books[i].Queue(side)[k];
      assert Describes(resting[e.id], i, side, e);
    }
  }

  lemma NotStanding(books: map<InstrumentId, Book>, resting: map<OrderId, Message>, id: OrderId, j: InstrumentId,
                    side: Side,
                    quantity: Quantity)
    requires Agreement(books, resting) && id in resting && j in books
    requires j != resting[id].instrumentId || side != resting[id].side
    ensures SetInPlace(books[j].Queue(side), books[j].Queue(side), id, quantity)
  {
    assert forall e | e in books[j].Queue(side) :: Describes(resting[e.id], j, side, e);
  }

  lemma ReducedInPlace(b: Book, side: Side, e: Entry, quantity: Quantity)
    requires b.Has(e.id) && SideOf(b, e.id) == side && Get(b.Queue(side), e.id) == e && 0 < quantity < e.quantity
    ensures var b' := ExecuteOrder(b, e.id, e.quantity - quantity).0;
      SetInPlace(b.Queue(side), b'.Queue(side), e.id, quantity) && b'.Queue(side.Opposite()) == b.Queue(side.Opposite())
  {
    hide ExecuteOrder, HasId, Get;
    ExecuteByQuantity(b, e.id, e.quantity - quantity);
  }

  lemma AmendBooks(s: Engine, id: OrderId, quantity: Quantity)
    requires Core(s) && id in s.resting && 0 < quantity < s.resting[id].quantity
    ensures Live(s, id)
    ensures var m := s.resting[id];
      AllSetInPlace(s.books, s.books[m.instrumentId := ExecuteOrder(s.books[m.instrumentId], id, m.quantity - quantity).0], id, quantity)
  {
    hide BooksOk, Agreement, Indexed, Issued, HasAccounts, Balanced, AllSound, Consistent, Uncrossed, ExecuteOrder;
    hide HasId, Get, SetInPlace;
    AllConsistent(s.instruments, s.capacity, s.books);
    LocateResting(s.books, s.resting, id);
    var m := s.resting[id];
    ReducedInPlace(s.books[m.instrumentId], m.side, Entry(id, m.price, m.quantity), quantity);
    forall j, side | j in s.books && (j != m.instrumentId || side != m.side)
      ensures SetInPlace(s.books[j].Queue(side), s.books[j].Queue(side), id, quantity)
    {
      NotStanding(s.books, s.resting, id, j, side, quantity);
    }
  }

  lemma AmendDoes(st: Step, c: Message, id: OrderId)
    requires Core(st.engine) && KeepsPriority(st.engine, c, id) && Live(st.engine, id) && c.quantity > 0
    requires st.batch == NO_MESSAGES
    ensures var r := Amend(st, c, id);
      Amended(st.engine, c, id, r.engine, r.batch.reports, r.batch.updates) && r.engine.clients == st.engine.clients
  {
    hide BooksOk, Agreement, Indexed, Issued, HasAccounts, Balanced, AllSound, ExecuteOrder, AllSetInPlace;
    var s := st.engine;
    NothingSet(s.books, s.resting, id);
    if c.quantity < s.resting[id].quantity {
      AmendBooks(s, id, c.quantity);
    }
  }

  lemma BusinessAmends(st: Step, c: Message)
    requires Core(st.engine) && c.clientId != 0 && c.clientId in st.engine.clients && st.batch == NO_MESSAGES
    requires c.action == Replace && MayEnter(st.engine, c) && InPlace(st.engine, c)
    ensures var id := Prior(st.engine, c);
      && KeepsPriority(st.engine, c, id) && Live(st.engine, id) && c.quantity > 0
      && Business(st, c) == Amend(st, c, id)
  {
    hide BooksOk, Agreement, HasAccounts, Balanced, AllSound, BookAccepts, RiskRefusal, BookRefusal, Enter, Amend;
    hide Refuse, Opened;
    BookKeys(st.engine);
    RiskLaw(st.engine, c, Prior(st.engine, c));
    PositiveQuantity(st.engine, c);
    hide WithinLimits;
  }

  lemma PositiveQuantity(s: Engine, c: Message)
    requires WithinLimits(s, c)
    ensures c.quantity > 0
  {
  }

  lemma AmendFramed(s: Engine, b: Engine, e: Engine, e': Engine, c: Message, id: OrderId, reports: seq<Message>,
                    updates: seq<Message>)
    requires b == WithClient(s, c.clientId).(stats := s.stats.(commands := s.stats.commands + 1))
    requires id in s.resting && Amended(b, c, id, e, reports, updates)
    requires e' == e.(clients := e'.clients, responseSequence := e'.responseSequence)
    ensures Amended(s, c, id, e', reports, updates)
  {
    hide AllSetInPlace, AsReport, AsDelta;
  }

  /** An effective replacement that only shrinks the order at its price changes that order in place and nothing else. */
  lemma AmendedLaw(s: Engine, c: Message)
    requires Inv(s) && Effective(s, c) && c.action == Replace && MayEnter(s, c) && InPlace(s, c)
    ensures var r := Process(s, c);
      && r.batch.reports != [] && r.batch.reports[|r.batch.reports| - 1].report == Complete
      && Prior(s, c) in s.resting
      && Amended(s, c, Prior(s, c), r.engine, r.batch.reports[..|r.batch.reports| - 1], r.batch.updates)
      && c.clientId in r.engine.clients
      && (c.clientId in s.clients ==> r.engine.clients[c.clientId].maxOrderId == s.clients[c.clientId].maxOrderId)
  {
    hide Core, Bounded, Begin, Business, Perform, MayEnter, Amended, Amend;
    BeginQuiet(s, c);
    SameDemands(s, c);
    AlikeAmends(s, c);
    PerformFramed(s, c);
    Completed(s, c);
    var b := Begin(s, c);
    var id := Prior(b.engine, c);
    BusinessAmends(b, c);
    BeginSpelled(s, c);
    AmendDoes(b, c, id);
    var done, r := Business(b, c), Perform(s, c);
    assert r.batch.reports[..|r.batch.reports| - 1] == done.batch.reports;
    AmendFramed(s, b.engine, done.engine, r.engine, c, id, done.batch.reports, done.batch.updates);
  }

  lemma AlikeAmends(s: Engine, c: Message)
    requires Alike(Begin(s, c).engine, s, c) && MayEnter(s, c)
    ensures MayEnter(Begin(s, c).engine, c) && (InPlace(s, c) ==> InPlace(Begin(s, c).engine, c))
  {
    hide WithinLimits, BookAccepts, InPlace, NamesOwn, Broken, BrokenByBook, Begin;
  }

  // ---- Commands without effect --------------------------------------------

  function RefusalReport(s: Engine, c: Message, why: Reject, n: nat): Message {
    c.(kind := Report, report := Rejected, reject := why, epoch := s.epoch, sequence := s.responseSequence + n)
  }

  /** What is answered to a command that has no effect. */
  ghost predicate AnsweredWithout(s: Engine, c: Message, reports: seq<Message>) {
    if c.kind != Command || c.action == Action.Snapshot then reports == [RefusalReport(s, c, InvalidCommand, 1)]
    else if c.action == Status then
      reports == [AsReport(c.(requestId := if c.clientId in s.clients then s.clients[c.clientId].lastRequest else 0),
                           StatusReport, s.epoch, s.responseSequence + 1)]
    else if c.clientId == 0 || c.requestId == 0 then
      reports == [RefusalReport(s, c, InvalidCommand, 1), AsReport(c, Complete, s.epoch, s.responseSequence + 2)]
    else if c.clientId in s.clients && c.requestId == s.clients[c.clientId].lastRequest && c == s.clients[c.clientId].lastCommand
    then reports == s.clients[c.clientId].cached
    else reports == [RefusalReport(s, c, SequenceReject, 1), AsReport(c, Complete, s.epoch, s.responseSequence + 2)]
  }

  /** The command repeats the last one of its client and is answered from memory. */
  predicate FromMemory(s: Engine, c: Message) {
    && c.kind == Command && c.action != Action.Snapshot && c.action != Status && c.clientId != 0 && c.requestId != 0
    && c.clientId in s.clients && c.requestId == s.clients[c.clientId].lastRequest && c == s.clients[c.clientId].lastCommand
  }

  /** The counters of such a command: its refusals and reports, unless it is answered from memory. */
  predicate CountedWithout(s: Engine, s': Engine, reports: seq<Message>, fromMemory: bool) {
    && s'.stats.commands == s.stats.commands && s'.stats.trades == s.stats.trades && s'.stats.volume == s.stats.volume
   
    && s'.stats.rejected == s.stats.rejected + (if !fromMemory && reports != [] && reports[0].report == Rejected then 1 else 0)
    && s'.responseSequence == s.responseSequence + (if fromMemory then 0 else |reports|)
  }

  /** A command that is no next request of its client is a query, a retry or refused, and is answered as such. */
  lemma QueryLaw(s: Engine, c: Message)
    requires Inv(s) && !Effective(s, c)
    ensures var r := Process(s, c);
      && AnsweredWithout(s, c, r.batch.reports) && r.batch.updates == [] && SameMarket(s, r.engine)
      && CountedWithout(s, r.engine, r.batch.reports, FromMemory(s, c))
  {
    hide Core, Bounded, Answer, AnsweredWithout, CountedWithout, SameMarket;
    AnswerKeeps(s, c);
    AnswerSays(s, c);
  }

  /** One refusal of a command on its own. */
  lemma RefusedOnce(s: Engine, t: Engine, c: Message, why: Reject)
    requires t == s.(clients := t.clients)
    ensures var r := Refuse(Step(t, NO_MESSAGES), c, why);
      && r.batch.reports == [RefusalReport(s, c, why, 1)]
      && r.engine == t.(responseSequence := s.responseSequence + 1, stats := s.stats.(rejected := s.stats.rejected + 1))
  {
  }

  lemma RefusedAndCompleted(s: Engine, t: Engine, c: Message, why: Reject)
    requires t == s.(clients := t.clients)
    ensures var r := EmitReport(Refuse(Step(t, NO_MESSAGES), c, why), c, Complete, NoReject);
      && r.batch.reports == [RefusalReport(s, c, why, 1), AsReport(c, Complete, s.epoch, s.responseSequence + 2)]
      && r.engine == t.(responseSequence := s.responseSequence + 2, stats := s.stats.(rejected := s.stats.rejected + 1))
  {
  }

  lemma Queried(s: Engine, m: Message)
    ensures var r := EmitReport(Step(s, NO_MESSAGES), m, StatusReport, NoReject);
      && r.batch.reports == [AsReport(m, StatusReport, s.epoch, s.responseSequence + 1)]
      && r.engine == s.(responseSequence := s.responseSequence + 1)
  {
  }

  lemma AnswerSays(s: Engine, c: Message)
    requires !Effective(s, c)
    ensures AnsweredWithout(s, c, Answer(s, c).batch.reports)
    ensures CountedWithout(s, Answer(s, c).engine, Answer(s, c).batch.reports, FromMemory(s, c))
  {
    hide EmitReport, Refuse, AsReport;
    RefusedOnce(s, s, c, InvalidCommand);
    RefusedAndCompleted(s, s, c, InvalidCommand);
    RefusedAndCompleted(s, WithClient(s, c.clientId), c, SequenceReject);
    Queried(s, c.(requestId := LastRequest(s, c.clientId)));
    assert AsReport(c.(requestId := LastRequest(s, c.clientId)), StatusReport, s.epoch, s.responseSequence + 1).report
        == StatusReport by { Stamped(c.(requestId := LastRequest(s, c.clientId)), s.epoch, s.responseSequence + 1); }
  }

  lemma Stamped(m: Message, epoch: nat, n: nat)
    ensures AsReport(m, StatusReport, epoch, n).report == StatusReport
  {
  }

  /** After any run, a status query reports the client's last request that took effect, or zero before the first. */
  lemma StatusLaw(instruments: map<InstrumentId, Rules>, capacity: nat, epoch: nat, commands: seq<Message>, c: Message)
    requires ConfigOk(instruments) && c.kind == Command && c.action == Status
    ensures Inv(Fresh(instruments, capacity, epoch))
    ensures var s := Fresh(instruments, capacity, epoch);
      var done, r := Effects(s, commands, c.clientId), Process(After(s, commands), c);
      && |r.batch.reports| == 1 && r.batch.reports[0].report == StatusReport && r.batch.reports[0].clientId == c.clientId
      && r.batch.reports[0].requestId == if done == [] then 0 else done[|done| - 1]
  {
    FreshInv(instruments, capacity, epoch);
    var s := Fresh(instruments, capacity, epoch);
    hide Inv, Fresh, After;
    ExactlyOnceFromStart(instruments, capacity, epoch, commands, c.clientId);
    StatusNow(After(s, commands), c);
  }

  lemma StatusNow(s: Engine, c: Message)
    requires Inv(s) && c.kind == Command && c.action == Status
    ensures var r := Process(s, c);
      && |r.batch.reports| == 1 && r.batch.reports[0].report == StatusReport && r.batch.reports[0].clientId == c.clientId
      && r.batch.reports[0].requestId == LastRequest(s, c.clientId)
  {
    hide Core, Bounded;
    QueryLaw(s, c);
  }
}
