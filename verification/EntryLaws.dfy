/**
 The whole effect of an order that enters the market: every report and delta it causes,
 in order and field by field, and the state it leaves of orders, books, accounts and counters.
 */
module EntryLaws {
  import opened Types
  import opened BookModel
  import opened Positions
  import opened EngineModel
  import opened AgreementLemmas
  import opened Exchange
  import opened Refinement
  import opened Outcome
  import opened Limits
  import opened BookLaws
  import opened CancelLaws
  import opened SweepLaws

  // ---- The tape of an order -----------------------------------------------

  /** The order under its exchange number. */
  function Numbered(s: Engine, c: Message): Message {
    c.(exchangeId := s.nextOrder, remaining := c.quantity)
  }

  function Unfilled(c: Message, fills: seq<PlannedFill>): nat {
    if PlannedQuantity(fills) <= c.quantity then c.quantity - PlannedQuantity(fills) else 0
  }

  /** What is not filled stays in the book. */
  predicate Stays(c: Message, fills: seq<PlannedFill>) {
    Unfilled(c, fills) > 0 && c.orderType == Limit && c.tif == GTC
  }

  predicate Expired(c: Message, fills: seq<PlannedFill>) {
    Unfilled(c, fills) > 0 && !(c.orderType == Limit && c.tif == GTC)
  }

  function One(b: bool): nat {
    if b then 1 else 0
  }

  /** The acknowledgement, the fills, and the expiry of a rest that may not stay. */
  predicate ReportsTold(s: Engine, c: Message, prior: OrderId, fills: seq<PlannedFill>, reports: seq<Message>) {
    var m, n, at := Numbered(s, c), |fills|, s.responseSequence;
    && |reports| == 1 + 2 * n + One(Expired(c, fills))
    && reports[0] == AsReport(m, if prior == 0 then Accepted else ReportType.Replaced, s.epoch, at + 1)
    && (Expired(c, fills) ==>
          reports[1 + 2 * n]
            == AsReport(m.(quantity := Unfilled(c, fills), remaining := 0), ReportType.Cancelled, s.epoch, at + 2 * n + 2))
  }

  /** The removal of a replaced order, the fills, and the addition of a rest that stays. */
  predicate DeltasTold(s: Engine, c: Message, prior: OrderId, fills: seq<PlannedFill>, updates: seq<Message>) {
    var m, n, at := Numbered(s, c), |fills|, s.sequence;
    var u, left := One(prior != 0), Unfilled(c, fills);
    && |updates| == u + 2 * n + One(Stays(c, fills))
    && (prior != 0 ==> prior in s.resting && updates[0] == AsDelta(s.resting[prior], CancelUpdate, s.epoch, at + 1))
    && (Stays(c, fills) ==>
          updates[u + 2 * n] == AsDelta(m.(quantity := left, remaining := left), AddUpdate, s.epoch, at + u + 2 * n + 1))
  }

  predicate Tape(s: Engine, c: Message, prior: OrderId, fills: seq<PlannedFill>, reports: seq<Message>,
                 updates: seq<Message>) {
    var n, u := |fills|, One(prior != 0);
    && ReportsTold(s, c, prior, fills, reports) && DeltasTold(s, c, prior, fills, updates)
    && SweepTold(s.resting - {prior}, Numbers(s.epoch, s.responseSequence + 1, s.sequence + u, s.nextTrade),
                 Numbered(s, c), fills, c.quantity, reports[1..1 + 2 * n], updates[u..u + 2 * n])
  }

  // ---- The state after it -------------------------------------------------

  /** The other orders have lost what was filled; the order itself rests with what was not. */
  ghost predicate RestingAfter(s: Engine, s': Engine, c: Message, prior: OrderId, fills: seq<PlannedFill>) {
    && Reduced(s.resting - {prior}, s'.resting - {s.nextOrder}, fills)
    && (s.nextOrder in s'.resting <==> Stays(c, fills))
    && (Stays(c, fills) ==>
          s'.resting[s.nextOrder]
            == Numbered(s, c).(quantity := Unfilled(c, fills), remaining := Unfilled(c, fills)))
  }

  /** The opposite queue is swept from the front; the order stands last at its price on its own side. */
  ghost predicate BooksAfter(s: Engine, s': Engine, c: Message, prior: OrderId, fills: seq<PlannedFill>) {
    && s'.books.Keys == s.books.Keys && c.instrumentId in s.books
    && (forall i | i in s.books && i != c.instrumentId :: s'.books[i] == s.books[i])
    && var b, b' := s.books[c.instrumentId], s'.books[c.instrumentId];
       && b'.Queue(c.side.Opposite()) == Swept(b.Queue(c.side.Opposite()), fills)
       && forall p: Price ::
            AtPrice(b'.Queue(c.side), p)
              == AtPrice(Without(b.Queue(c.side), {prior}), p)
                 + if p == c.price && Stays(c, fills) then [Entry(s.nextOrder, p, Unfilled(c, fills))] else []
  }

  predicate CountersAfter(s: Engine, s': Engine, c: Message, prior: OrderId, fills: seq<PlannedFill>) {
    && s'.nextOrder == s.nextOrder + 1 && s'.nextTrade == s.nextTrade + |fills|
    && s'.stats.trades == s.stats.trades + |fills| && s'.stats.volume == s.stats.volume + PlannedQuantity(fills)
    && s'.stats.rejected == s.stats.rejected
    && s'.sequence == s.sequence + One(prior != 0) + 2 * |fills| + One(Stays(c, fills))
  }

  /** A client's highest order number never falls. */
  predicate HighestAfter(s: Engine, s': Engine, c: Message) {
    && c.clientId in s'.clients
    && var was := if c.clientId in s.clients then s.clients[c.clientId].maxOrderId else 0;
       s'.clients[c.clientId].maxOrderId == if c.orderId > was then c.orderId else was
  }

  // ---- Acceptance ---------------------------------------------------------

  lemma AcceptTold(st: Step, c: Message, prior: OrderId)
    requires c.clientId in st.engine.clients && (prior != 0 ==> Live(st.engine, prior)) && st.batch == NO_MESSAGES
    ensures var s, r := st.engine, Accept(st, c, prior);
      && r.batch.reports
           == [AsReport(Numbered(s, c), if prior == 0 then Accepted else ReportType.Replaced, s.epoch, s.responseSequence + 1)]
      && r.batch.updates == (if prior == 0 then [] else [AsDelta(s.resting[prior], CancelUpdate, s.epoch, s.sequence + 1)])
      && NumbersOf(r.engine) == Numbers(s.epoch, s.responseSequence + 1, s.sequence + One(prior != 0), s.nextTrade)
      && r.engine.stats == s.stats && r.engine.nextOrder == s.nextOrder + 1
      && HighestAfter(s, r.engine, c)
  {
    hide OpenAccount, CancelOrder;
  }

  lemma NumberedFromOne(s: Engine, i: InstrumentId, side: Side)
    requires Core(s) && i in s.books
    ensures forall e | e in s.books[i].Queue(side) :: e.id != 0
  {
    hide BooksOk, Indexed, HasAccounts, Balanced, AllSound;
    forall e | e in s.books[i].Queue(side) ensures e.id != 0 {
      assert Describes(s.resting[e.id], i, side, e);
    }
  }

  /** The replaced order leaves its queue; a new one replaces nothing. */
  lemma AcceptBooks(st: Step, c: Message, prior: OrderId)
    requires Submittable(st.engine, c, prior) && c.instrumentId in st.engine.books
    requires prior != 0 ==> st.engine.resting[prior].instrumentId == c.instrumentId
    ensures prior != 0 ==> Live(st.engine, prior)
    ensures var s, r := st.engine, Accept(st, c, prior);
      && r.engine.books.Keys == s.books.Keys
      && r.engine.books[c.instrumentId].Queue(c.side) == Without(s.books[c.instrumentId].Queue(c.side), {prior})
      && forall i | i in s.books && i != c.instrumentId :: r.engine.books[i] == s.books[i]
  {
    hide Core, CancelOrder, OpenAccount, Remove, Without;
    var s := st.engine;
    var queue := s.books[c.instrumentId].Queue(c.side);
    if prior == 0 {
      NumberedFromOne(s, c.instrumentId, c.side);
      WithoutAbsent(queue, 0);
    } else {
      CancelQueues(s, prior);
      WithoutMore(queue, prior, {});
      WithoutNone(Remove(queue, prior));
      assert {prior} + {} == {prior};
    }
  }

  // ---- What becomes of the rest -------------------------------------------

  lemma FinishTold(st: Step, m: Message, left: Quantity)
    requires m.instrumentId in st.engine.books
    ensures var s, r := st.engine, Finish(st, m, left);
      var stays, expires := left > 0 && m.orderType == Limit && m.tif == GTC, left > 0 && !(m.orderType == Limit && m.tif == GTC);
      && r.batch.reports == st.batch.reports
           + (if expires then [AsReport(m.(quantity := left, remaining := 0), ReportType.Cancelled, s.epoch, s.responseSequence + 1)]
              else [])
      && r.batch.updates == st.batch.updates
           + (if stays then [AsDelta(m.(quantity := left, remaining := left), AddUpdate, s.epoch, s.sequence + 1)] else [])
      && r.engine.sequence == s.sequence + One(stays)
      && r.engine.responseSequence == s.responseSequence + One(expires)
      && r.engine.positions == s.positions && r.engine.clients == s.clients && r.engine.stats == s.stats
      && r.engine.nextOrder == s.nextOrder && r.engine.nextTrade == s.nextTrade
     
      && r.engine.resting == (if stays then s.resting[m.exchangeId := m.(quantity := left, remaining := left)] else s.resting)
  {
    hide Add;
  }

  lemma FinishBooks(st: Step, m: Message, left: Quantity)
    requires Ready(st.engine, m)
    requires (Rests(m, left) ==> m.price > 0 && st.engine.books[m.instrumentId].Count() < st.engine.capacity)
    requires m.exchangeId !in st.engine.resting
    ensures var s, s' := st.engine, Finish(st, m, left).engine;
      && s'.books.Keys == s.books.Keys
      && (forall i | i in s.books && i != m.instrumentId :: s'.books[i] == s.books[i])
      && s'.books[m.instrumentId].Queue(m.side.Opposite()) == s.books[m.instrumentId].Queue(m.side.Opposite())
      && forall p: Price ::
           AtPrice(s'.books[m.instrumentId].Queue(m.side), p)
             == AtPrice(s.books[m.instrumentId].Queue(m.side), p)
                + if p == m.price && left > 0 && m.orderType == Limit && m.tif == GTC then [Entry(m.exchangeId, p, left)] else []
  {
    hide BooksOk, Agreement, Indexed, Issued, HasAccounts, Balanced, AllSound, AtPrice, Insert, HasId;
    var s := st.engine;
    if Rests(m, left) {
      AllConsistent(s.instruments, s.capacity, s.books);
      UnknownToBooks(s.books, s.resting, m.instrumentId, m.exchangeId);
      RestInserts(s.books[m.instrumentId], s.capacity, m, left);
    }
  }

  lemma RestInserts(b: Book, capacity: nat, m: Message, left: Quantity)
    requires Consistent(b) && !b.Has(m.exchangeId) && left > 0 && m.price > 0 && b.Count() < capacity
    ensures var b' := Add(b, capacity, m.exchangeId, m.side, m.price, left).0;
      && b'.Queue(m.side.Opposite()) == b.Queue(m.side.Opposite())
      && forall p: Price ::
           AtPrice(b'.Queue(m.side), p) == AtPrice(b.Queue(m.side), p) + if p == m.price then [Entry(m.exchangeId, p, left)] else []
  {
    hide AtPrice, Insert, HasId, Ordered, Distinct, Positive;
    forall p: Price {
      InsertAtPrice(m.side, b.Queue(m.side), Entry(m.exchangeId, m.price, left), p);
    }
  }

  // ---- From acceptance to the end -----------------------------------------

  /** The sweep of an entered order: where it starts, what it plans, what is left. */
  lemma EnterSweep(st: Step, c: Message, prior: OrderId)
    requires Admissible(st.engine, c, prior)
    ensures c.clientId in st.engine.clients && (prior != 0 ==> Live(st.engine, prior))
    ensures var s, m, st1 := st.engine, Numbered(st.engine, c), Accept(st, c, prior);
      var fills := Plan(c, OppositeQueue(s, c), c.quantity);
      && Ready(st1.engine, m)
      && st1.engine.resting == s.resting - {prior}
      && OppositeQueue(st1.engine, m) == OppositeQueue(s, c)
      && fills == Plan(m, OppositeQueue(st1.engine, m), c.quantity)
      && PlannedQuantity(fills) <= c.quantity && Leaves(c, OppositeQueue(s, c), c.quantity) == Unfilled(c, fills)
      && Enter(st, c, prior) == Finish(MatchAll(st1, m, c.quantity), m, Unfilled(c, fills))
  {
    hide Core, RiskRefusal, BookRefusal, MatchAll, Leaves, Accept, Plan, PlannedQuantity, Finish;
    AdmissibleParts(st, c, prior);
    AcceptParts(st, c, prior);
    PlanSame(c, Numbered(st.engine, c), OppositeQueue(st.engine, c), c.quantity);
    PlanConserves(c, OppositeQueue(st.engine, c), c.quantity);
  }

  lemma TapeJoins(s: Engine, c: Message, prior: OrderId, fills: seq<PlannedFill>, st1: Step, st2: Step, r: Step)
    requires PlannedQuantity(fills) <= c.quantity && (prior != 0 ==> prior in s.resting)
    requires var at := st1.engine;
      && st1.batch.reports
           == [AsReport(Numbered(s, c), if prior == 0 then Accepted else ReportType.Replaced, s.epoch, s.responseSequence + 1)]
      && st1.batch.updates == (if prior == 0 then [] else [AsDelta(s.resting[prior], CancelUpdate, s.epoch, s.sequence + 1)])
      && NumbersOf(at) == Numbers(s.epoch, s.responseSequence + 1, s.sequence + One(prior != 0), s.nextTrade)
      && at.resting == s.resting - {prior}
    requires ToldSince(st1, st2, Numbered(s, c), fills, c.quantity)
    requires st2.engine.epoch == s.epoch && Counted(st1.engine, st2.engine, fills)
    requires var m, left := Numbered(s, c), Unfilled(c, fills);
      && r.batch.reports == st2.batch.reports
           + (if Expired(c, fills) then [AsReport(m.(quantity := left, remaining := 0), ReportType.Cancelled, s.epoch, st2.engine.responseSequence + 1)]
              else [])
      && r.batch.updates == st2.batch.updates
           + (if Stays(c, fills) then [AsDelta(m.(quantity := left, remaining := left), AddUpdate, s.epoch, st2.engine.sequence + 1)] else [])
    ensures Tape(s, c, prior, fills, r.batch.reports, r.batch.updates)
  {
    hide SweepTold, AsReport, AsDelta, Numbered, PlannedQuantity;
    var n, u := |fills|, One(prior != 0);
    assert r.batch.reports[1..1 + 2 * n] == st2.batch.reports[1..];
    assert r.batch.updates[u..u + 2 * n] == st2.batch.updates[u..];
    assert r.batch.reports[0] == st2.batch.reports[..1][0];
    if prior != 0 {
      assert r.batch.updates[0] == st2.batch.updates[..1][0];
    }
  }

  lemma EnterTold(st: Step, c: Message, prior: OrderId)
    requires Admissible(st.engine, c, prior) && st.batch == NO_MESSAGES
    ensures var r := Enter(st, c, prior);
      Tape(st.engine, c, prior, Plan(c, OppositeQueue(st.engine, c), c.quantity), r.batch.reports, r.batch.updates)
  {
    hide RiskRefusal, BookRefusal, Core, Enter, MatchAll, Leaves, Accept, Plan, PlannedQuantity, Finish;
    hide Exchange.Ready, SweepTold, AsReport, AsDelta, OppositeQueue, Crosses;
    EnterSweep(st, c, prior);
    AcceptTold(st, c, prior);
    var m, st1 := Numbered(st.engine, c), Accept(st, c, prior);
    var fills := Plan(c, OppositeQueue(st.engine, c), c.quantity);
    SweepTells(st1, m, c.quantity);
    SweepReduces(st1, m, c.quantity);
    MatchAllStops(st1, m, c.quantity);
    var st2 := MatchAll(st1, m, c.quantity);
    FinishTold(st2, m, Unfilled(c, fills));
    TapeJoins(st.engine, c, prior, fills, st1, st2, Enter(st, c, prior));
  }

  /** Everything an entered order leaves behind. */
  ghost predicate StateAfter(s: Engine, s': Engine, c: Message, prior: OrderId, fills: seq<PlannedFill>) {
    && RestingAfter(s, s', c, prior, fills) && BooksAfter(s, s', c, prior, fills)
    && Accounted(s.positions, s'.positions, s.resting - {prior}, c, fills)
    && CountersAfter(s, s', c, prior, fills) && HighestAfter(s, s', c)
    && s'.instruments == s.instruments && s'.capacity == s.capacity && s'.epoch == s.epoch
  }

  lemma RestingJoins(s: Engine, c: Message, prior: OrderId, fills: seq<PlannedFill>, swept: map<OrderId, Message>,
                     s': Engine)
    requires s.nextOrder !in swept && Reduced(s.resting - {prior}, swept, fills)
    requires var m, left := Numbered(s, c), Unfilled(c, fills);
      s'.resting == if Stays(c, fills) then swept[s.nextOrder := m.(quantity := left, remaining := left)] else swept
    ensures RestingAfter(s, s', c, prior, fills)
  {
    hide Reduced;
    assert s'.resting - {s.nextOrder} == swept;
  }

  lemma BookedSame(h: Holdings, h1: Holdings, h': Holdings, resting: map<OrderId, Message>, c: Message, m: Message,
                   fills: seq<PlannedFill>)
    requires forall k, i :: PositionOf(h1, k, i) == PositionOf(h, k, i)
    requires m.clientId == c.clientId && m.side == c.side && m.instrumentId == c.instrumentId
    requires Accounted(h1, h', resting, m, fills)
    ensures Accounted(h, h', resting, c, fills)
  {
    hide PositionOf, FillAll, Legs;
    forall client ensures Legs(resting, m, fills, client) == Legs(resting, c, fills, client) {
      LegsAlike(resting, m, c, fills, client);
    }
  }

  lemma {:induction false} LegsAlike(resting: map<OrderId, Message>, m: Message, c: Message, fills: seq<PlannedFill>,
                                     client: ClientId)
    requires m.clientId == c.clientId && m.side == c.side
    ensures Legs(resting, m, fills, client) == Legs(resting, c, fills, client)
  {
    if fills != [] {
      LegsAlike(resting, m, c, fills[1..], client);
    }
  }

  lemma EnterRestingAfter(st: Step, c: Message, prior: OrderId)
    requires Admissible(st.engine, c, prior) && st.batch == NO_MESSAGES
    ensures var s, s' := st.engine, Enter(st, c, prior).engine;
      var fills := Plan(c, OppositeQueue(s, c), c.quantity);
      && RestingAfter(s, s', c, prior, fills) && CountersAfter(s, s', c, prior, fills) && HighestAfter(s, s', c)
  {
    hide RiskRefusal, BookRefusal, Core, Enter, MatchAll, Leaves, Accept, Plan, PlannedQuantity, Finish;
    hide Exchange.Ready, Reduced, OppositeQueue, Crosses;
    EnterSweep(st, c, prior);
    AcceptTold(st, c, prior);
    NextFresh(st.engine, c, prior);
    var m, st1 := Numbered(st.engine, c), Accept(st, c, prior);
    var fills := Plan(c, OppositeQueue(st.engine, c), c.quantity);
    SweepReduces(st1, m, c.quantity);
    MatchAllStops(st1, m, c.quantity);
    var st2 := MatchAll(st1, m, c.quantity);
    FinishTold(st2, m, Unfilled(c, fills));
    RestingJoins(st.engine, c, prior, fills, st2.engine.resting, Enter(st, c, prior).engine);
  }

  /** The next number is not in use. */
  lemma NextFresh(s: Engine, c: Message, prior: OrderId)
    requires Admissible(s, c, prior)
    ensures s.nextOrder !in s.resting && Core(s)
  {
    hide BooksOk, Agreement, Indexed, HasAccounts, Balanced, AllSound, RiskRefusal, BookRefusal;
  }

  lemma AcceptAccounts(st: Step, c: Message, prior: OrderId)
    requires Submittable(st.engine, c, prior) && (prior != 0 ==> Live(st.engine, prior))
    ensures forall k, i :: PositionOf(Accept(st, c, prior).engine.positions, k, i) == PositionOf(st.engine.positions, k, i)
  {
    hide BooksOk, Agreement, Indexed, HasAccounts, Balanced, AllSound, CancelOrder, OpenAccount, PositionOf;
    OpenAccountBalances(st.engine.positions, (c.clientId, c.instrumentId));
  }

  lemma EnterAccountsAfter(st: Step, c: Message, prior: OrderId)
    requires Admissible(st.engine, c, prior)
    ensures var s, s' := st.engine, Enter(st, c, prior).engine;
      Accounted(s.positions, s'.positions, s.resting - {prior}, c, Plan(c, OppositeQueue(s, c), c.quantity))
  {
    hide Core, RiskRefusal, BookRefusal, Enter, MatchAll, Leaves, Accept, Plan, PlannedQuantity, Finish;
    hide Exchange.Ready, Accounted, OppositeQueue, Crosses, Rest;
    EnterSweep(st, c, prior);
    AcceptAccounts(st, c, prior);
    var m, st1 := Numbered(st.engine, c), Accept(st, c, prior);
    var fills := Plan(c, OppositeQueue(st.engine, c), c.quantity);
    SweepBooks(st1, m, c.quantity);
    MatchAllStops(st1, m, c.quantity);
    var st2 := MatchAll(st1, m, c.quantity);
    FinishTold(st2, m, Unfilled(c, fills));
    BookedSame(st.engine.positions, st1.engine.positions, st2.engine.positions, st1.engine.resting, c, m, fills);
  }

  /** The residual finds room, at a price, under a number of its own. */
  lemma RoomForRest(st: Step, c: Message, prior: OrderId)
    requires Admissible(st.engine, c, prior)
    ensures c.clientId in st.engine.clients && (prior != 0 ==> Live(st.engine, prior))
    ensures var m, st1 := Numbered(st.engine, c), Accept(st, c, prior);
      && Ready(st1.engine, m)
      && var st2 := MatchAll(st1, m, c.quantity);
      && Ready(st2.engine, m) && st.engine.nextOrder !in st2.engine.resting
      && (Rests(m, Unfilled(c, Plan(c, OppositeQueue(st.engine, c), c.quantity))) ==>
            m.price > 0 && st2.engine.books[m.instrumentId].Count() < st2.engine.capacity)
  {
    hide BooksOk, Agreement, Indexed, Issued, HasAccounts, Balanced, AllSound, RiskRefusal, MatchAll, Leaves;
    hide Accept, Plan, Finish, Crosses, SweepRefusal, Enter;
    EnterSweep(st, c, prior);
    NextFresh(st.engine, c, prior);
    AdmissibleParts(st, c, prior);
    AcceptParts(st, c, prior);
    MatchAllStops(Accept(st, c, prior), Numbered(st.engine, c), c.quantity);
  }

  lemma EnterBooksAfter(st: Step, c: Message, prior: OrderId)
    requires Admissible(st.engine, c, prior)
    ensures var s, s' := st.engine, Enter(st, c, prior).engine;
      BooksAfter(s, s', c, prior, Plan(c, OppositeQueue(s, c), c.quantity))
  {
    hide RiskRefusal, BookRefusal, Core, Enter, MatchAll, Leaves, Accept, Plan, PlannedQuantity, Finish;
    hide Exchange.Ready, Crosses, Swept, Without, AtPrice;
    EnterSweep(st, c, prior);
    AdmissibleParts(st, c, prior);
    AcceptBooks(st, c, prior);
    RoomForRest(st, c, prior);
    var m, st1 := Numbered(st.engine, c), Accept(st, c, prior);
    var fills := Plan(c, OppositeQueue(st.engine, c), c.quantity);
    MatchAllStops(st1, m, c.quantity);
    SweepShortens(st1, m, c.quantity);
    FinishBooks(MatchAll(st1, m, c.quantity), m, Unfilled(c, fills));
  }

  // ---- The whole command --------------------------------------------------

  /** The command does what entering an order does, tells of it and is completed. */
  ghost predicate Entered(s: Engine, c: Message, fills: seq<PlannedFill>, r: Step) {
    && r.batch.reports != []
    && Tape(s, c, Prior(s, c), fills, r.batch.reports[..|r.batch.reports| - 1], r.batch.updates)
    && StateAfter(s, r.engine, c, Prior(s, c), fills)
  }

  /** An order that may enter is entered. */
  lemma SubmitEnters(st: Step, c: Message, prior: OrderId)
    requires Submittable(st.engine, c, prior) && st.batch == NO_MESSAGES
    requires c.action in {New, Replace} && prior == Prior(st.engine, c) && (c.action == Replace ==> prior != 0)
    requires MayEnter(st.engine, c) && !InPlace(st.engine, c)
    ensures Admissible(st.engine, c, prior) && Submit(st, c, prior) == Enter(st, c, prior)
  {
    hide BooksOk, Agreement, Indexed, Issued, HasAccounts, Balanced, AllSound, RiskRefusal, BookRefusal;
    hide WithinLimits, BookAccepts, Enter, Amend, Refuse, Opened;
    VerdictLaw(st.engine, c, prior);
    BookKeys(st.engine);
    assert KeepsPriority(st.engine, c, prior) <==> InPlace(st.engine, c);
    KnownInstrument(st.engine, c);
  }

  lemma KnownInstrument(s: Engine, c: Message)
    requires WithinLimits(s, c)
    ensures c.instrumentId in s.instruments
  {
  }

  lemma BusinessEnters(st: Step, c: Message)
    requires Core(st.engine) && c.clientId != 0 && c.clientId in st.engine.clients && st.batch == NO_MESSAGES
    requires c.action in {New, Replace} && MayEnter(st.engine, c) && !InPlace(st.engine, c)
    ensures Admissible(st.engine, c, Prior(st.engine, c))
    ensures Business(st, c) == Enter(st, c, Prior(st.engine, c))
  {
    hide BooksOk, Agreement, HasAccounts, Balanced, AllSound, Submit, Enter, WithinLimits, BookAccepts, Admissible;
    BookKeys(st.engine);
    SubmitEnters(st, c, Prior(st.engine, c));
  }

  lemma EnterStateAfter(st: Step, c: Message, prior: OrderId)
    requires Admissible(st.engine, c, prior) && st.batch == NO_MESSAGES
    ensures StateAfter(st.engine, Enter(st, c, prior).engine, c, prior, Plan(c, OppositeQueue(st.engine, c), c.quantity))
  {
    hide Core, RiskRefusal, BookRefusal, Enter, RestingAfter, BooksAfter, Accounted, CountersAfter, HighestAfter, Plan;
    EnterRestingAfter(st, c, prior);
    EnterBooksAfter(st, c, prior);
    EnterAccountsAfter(st, c, prior);
    EnterSessions(st, c, prior);
  }

  /** Completing and remembering the command changes none of it. */
  lemma EnteredFramed(s: Engine, b: Engine, e: Engine, e': Engine, c: Message, prior: OrderId, fills: seq<PlannedFill>)
    requires b == WithClient(s, c.clientId).(stats := s.stats.(commands := s.stats.commands + 1))
    requires StateAfter(b, e, c, prior, fills)
    requires c.clientId in e.clients && c.clientId in e'.clients
    requires e'.clients[c.clientId].maxOrderId == e.clients[c.clientId].maxOrderId
    requires e' == e.(clients := e'.clients, responseSequence := e'.responseSequence)
    ensures StateAfter(s, e', c, prior, fills)
  {
    hide Reduced, BooksAfter, Accounted, Unfilled;
    BooksFramed(s, b, e, e', c, prior, fills);
  }

  lemma BooksFramed(s: Engine, b: Engine, e: Engine, e': Engine, c: Message, prior: OrderId, fills: seq<PlannedFill>)
    requires b.books == s.books && b.nextOrder == s.nextOrder && e'.books == e.books
    ensures BooksAfter(b, e, c, prior, fills) ==> BooksAfter(s, e', c, prior, fills)
  {
    hide Swept, AtPrice, Without, Stays, Unfilled;
  }

  lemma TapeFramed(s: Engine, b: Engine, c: Message, prior: OrderId, fills: seq<PlannedFill>, reports: seq<Message>,
                   updates: seq<Message>)
    requires b == WithClient(s, c.clientId).(stats := b.stats)
    ensures Tape(b, c, prior, fills, reports, updates) == Tape(s, c, prior, fills, reports, updates)
  {
    hide SweepTold, AsReport, AsDelta, Unfilled, Stays, Expired;
    assert Numbered(b, c) == Numbered(s, c);
  }

  /** Completing a command: one report more, the market as it was, the client's highest number kept. */
  lemma PerformFramed(s: Engine, c: Message)
    requires Core(s) && Effective(s, c)
    ensures Core(Begin(s, c).engine) && c.clientId in Begin(s, c).engine.clients
    ensures var e, e' := Business(Begin(s, c), c).engine, Perform(s, c).engine;
      && c.clientId in e.clients && c.clientId in e'.clients
      && e'.clients[c.clientId].maxOrderId == e.clients[c.clientId].maxOrderId
      && e' == e.(clients := e'.clients, responseSequence := e'.responseSequence)
  {
    hide Core, Begin, Business, Private, Completion, StampReport;
    BeginCore(s, c);
    BusinessCore(Begin(s, c), c);
  }

  /**
   An effective order that may enter the market trades against the front of the opposite queue and leaves exactly
   the messages and the state described above; everything not mentioned there is as it was.
   */
  lemma EnteredLaw(s: Engine, c: Message)
    requires Inv(s) && Effective(s, c) && c.action in {New, Replace} && MayEnter(s, c) && !InPlace(s, c)
    ensures Entered(s, c, Plan(c, Against(s, c), c.quantity), Process(s, c))
  {
    hide Core, Bounded, Begin, Business, Perform, MayEnter, InPlace, Admissible, Enter, StateAfter, Tape, Plan;
    BeginQuiet(s, c);
    SameDemands(s, c);
    AlikeEnters(s, c);
    PerformFramed(s, c);
    Completed(s, c);
    var b := Begin(s, c);
    var prior := Prior(b.engine, c);
    BusinessEnters(b, c);
    BeginSpelled(s, c);
    AdmissibleQueue(b.engine, c, prior);
    var fills := Plan(c, Against(s, c), c.quantity);
    EnterTold(b, c, prior);
    EnterStateAfter(b, c, prior);
    EnteredFramed(s, b.engine, Business(b, c).engine, Perform(s, c).engine, c, prior, fills);
    var done, r := Business(b, c), Perform(s, c);
    assert r.batch.reports[..|r.batch.reports| - 1] == done.batch.reports;
    TapeFramed(s, b.engine, c, prior, fills, done.batch.reports, done.batch.updates);
  }

  lemma AlikeEnters(s: Engine, c: Message)
    requires Alike(Begin(s, c).engine, s, c) && MayEnter(s, c) && !InPlace(s, c)
    ensures MayEnter(Begin(s, c).engine, c) && !InPlace(Begin(s, c).engine, c)
  {
    hide WithinLimits, BookAccepts, InPlace, NamesOwn, Broken, BrokenByBook, Begin;
  }

  lemma BeginSpelled(s: Engine, c: Message)
    ensures var b := Begin(s, c).engine;
      && b == WithClient(s, c.clientId).(stats := s.stats.(commands := s.stats.commands + 1))
      && Prior(b, c) == Prior(s, c) && Against(b, c) == Against(s, c)
  {
  }

  lemma AdmissibleQueue(s: Engine, c: Message, prior: OrderId)
    requires Admissible(s, c, prior)
    ensures c.instrumentId in s.books && OppositeQueue(s, c) == Against(s, c)
  {
    hide Core, RiskRefusal, BookRefusal;
  }
}
