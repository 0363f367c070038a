/**
 Which orders a cancellation takes out, told of the resting orders: exactly the named
 one, or exactly those of the client on the named instrument, one report and one delta each.
 */
module CancelLaws {
  import opened Types
  import opened Sums
  import opened BookModel
  import opened Positions
  import opened EngineModel
  import opened AgreementLemmas
  import opened Exchange
  import opened Outcome
  import opened Limits
  import opened BookLaws

  // ---- What is told and what is left --------------------------------------

  /** The private report of a cancelled order. */
  function GoneReport(m: Message, request: nat, epoch: nat, n: nat): Message {
    m.(kind := Report, report := ReportType.Cancelled, reject := NoReject, epoch := epoch, sequence := n,
       requestId := request, remaining := 0)
  }

  /** The public delta, which names nobody. */
  function GoneDelta(m: Message, epoch: nat, n: nat): Message {
    m.(kind := Delta, update := CancelUpdate, epoch := epoch, sequence := n,
       clientId := 0, requestId := 0, orderId := 0, remaining := 0)
  }

  predicate AllResting(s: Engine, ids: seq<OrderId>) {
    forall k | 0 <= k < |ids| :: ids[k] in s.resting
  }

  /** One report and one delta for each order, in that order. */
  predicate ToldOf(s: Engine, ids: seq<OrderId>, request: nat, reports: seq<Message>, updates: seq<Message>)
    requires AllResting(s, ids)
  {
    && |reports| == |ids| && |updates| == |ids|
   
    && (forall k | 0 <= k < |ids| :: reports[k] == GoneReport(s.resting[ids[k]], request, s.epoch, s.responseSequence + 1 + k))
    && (forall k | 0 <= k < |ids| :: updates[k] == GoneDelta(s.resting[ids[k]], s.epoch, s.sequence + 1 + k))
  }

  ghost predicate QueuesWithout(books: map<InstrumentId, Book>, books': map<InstrumentId, Book>, gone: set<OrderId>) {
    && books'.Keys == books.Keys
    && forall i, side | i in books :: books'[i].Queue(side) == Without(books[i].Queue(side), gone)
  }

  /** The market without those orders and with everything else as it was. */
  ghost predicate TakenOut(s: Engine, s': Engine, gone: set<OrderId>) {
    && s'.resting == s.resting - gone
    && QueuesWithout(s.books, s'.books, gone)
    && s'.positions == s.positions && s'.nextOrder == s.nextOrder && s'.nextTrade == s.nextTrade
    && s'.instruments == s.instruments && s'.capacity == s.capacity && s'.epoch == s.epoch
    && s'.stats.trades == s.stats.trades && s'.stats.volume == s.stats.volume && s'.stats.rejected == s.stats.rejected
  }

  function Members(ids: seq<OrderId>): set<OrderId> {
    set id | id in ids
  }

  // ---- One order ----------------------------------------------------------

  /** An order stands on its own side of its own book only. */
  lemma NotElsewhere(books: map<InstrumentId, Book>, resting: map<OrderId, Message>, id: OrderId, j: InstrumentId,
                     side: Side)
    requires Agreement(books, resting) && id in resting && j in books
    requires j != resting[id].instrumentId || side != resting[id].side
    ensures Remove(books[j].Queue(side), id) == books[j].Queue(side)
  {
    assert forall e | e in books[j].Queue(side) :: Describes(resting[e.id], j, side, e);
  }

  /** Cancelling in a book removes from the side of the order. */
  lemma CancelSides(b: Book, id: OrderId, side: Side)
    requires b.Has(id) && SideOf(b, id) == side
    ensures var b' := CancelOrder(b, id).0;
      b'.Queue(side) == Remove(b.Queue(side), id) && b'.Queue(side.Opposite()) == b.Queue(side.Opposite())
  {
  }

  lemma CancelQueues(s: Engine, id: OrderId)
    requires Core(s) && id in s.resting
    ensures Live(s, id)
    ensures var i := s.resting[id].instrumentId;
      var books' := s.books[i := CancelOrder(s.books[i], id).0];
      books'.Keys == s.books.Keys && forall j, side | j in s.books :: books'[j].Queue(side) == Remove(s.books[j].Queue(side), id)
  {
    hide BooksOk, Agreement, Indexed, Issued, HasAccounts, Balanced, AllSound, Consistent, Uncrossed, CancelOrder;
    hide Remove;
    hide HasId, Get;
    AllConsistent(s.instruments, s.capacity, s.books);
    LocateResting(s.books, s.resting, id);
    var m := s.resting[id];
    CancelSides(s.books[m.instrumentId], id, m.side);
    forall j, side | j in s.books && (j != m.instrumentId || side != m.side)
      ensures Remove(s.books[j].Queue(side), id) == s.books[j].Queue(side)
    {
      NotElsewhere(s.books, s.resting, id, j, side);
    }
  }

  lemma CancelStep(st: Step, id: OrderId, request: nat)
    requires Core(st.engine) && id in st.engine.resting
    ensures Live(st.engine, id)
    ensures var s, r := st.engine, CancelResting(st, id, request);
      && s.sequence + 1 == r.engine.sequence && s.responseSequence + 1 == r.engine.responseSequence
      && r.engine.clients == s.clients
      && r.batch.reports == st.batch.reports + [GoneReport(s.resting[id], request, s.epoch, s.responseSequence + 1)]
      && r.batch.updates == st.batch.updates + [GoneDelta(s.resting[id], s.epoch, s.sequence + 1)]
      && r.engine.stats == s.stats
      && r.engine.resting == s.resting - {id}
      && r.engine.positions == s.positions && r.engine.nextOrder == s.nextOrder && r.engine.nextTrade == s.nextTrade
      && r.engine.instruments == s.instruments && r.engine.capacity == s.capacity && r.engine.epoch == s.epoch
      && r.engine.books.Keys == s.books.Keys
      && forall j, side | j in s.books :: r.engine.books[j].Queue(side) == Remove(s.books[j].Queue(side), id)
  {
    hide Core, CancelOrder;
    CancelQueues(st.engine, id);
  }

  // ---- One after the other ------------------------------------------------

  lemma QueuesStep(books: map<InstrumentId, Book>, mid: map<InstrumentId, Book>, books': map<InstrumentId, Book>,
                   id: OrderId, gone: set<OrderId>)
    requires mid.Keys == books.Keys && QueuesWithout(mid, books', gone)
    requires forall j, side | j in books :: mid[j].Queue(side) == Remove(books[j].Queue(side), id)
    ensures QueuesWithout(books, books', {id} + gone)
  {
    forall j, side | j in books ensures books'[j].Queue(side) == Without(books[j].Queue(side), {id} + gone) {
      WithoutMore(books[j].Queue(side), id, gone);
    }
  }

  lemma ToldStep(s: Engine, s1: Engine, ids: seq<OrderId>, request: nat, reports: seq<Message>, updates: seq<Message>)
    requires AllResting(s, ids) && ids != [] && (forall k | 0 < k < |ids| :: ids[k] != ids[0])
    requires s1.resting == s.resting - {ids[0]} && s1.epoch == s.epoch
    requires s1.sequence == s.sequence + 1 && s1.responseSequence == s.responseSequence + 1
    requires AllResting(s1, ids[1..]) && ToldOf(s1, ids[1..], request, reports, updates)
    ensures ToldOf(s, ids, request, [GoneReport(s.resting[ids[0]], request, s.epoch, s.responseSequence + 1)] + reports,
                   [GoneDelta(s.resting[ids[0]], s.epoch, s.sequence + 1)] + updates)
  {
    hide GoneReport, GoneDelta;
    forall k | 0 < k < |ids|
      ensures s.resting[ids[k]] == s1.resting[ids[1..][k - 1]]
    {
    }
  }

  /** What cancelling some orders one after the other has done since. */
  ghost predicate Since(st: Step, r: Step, ids: seq<OrderId>, request: nat)
    requires AllResting(st.engine, ids)
  {
    && TakenOut(st.engine, r.engine, Members(ids)) && r.engine.clients == st.engine.clients
    && r.engine.stats == st.engine.stats
    && |r.batch.reports| == |st.batch.reports| + |ids| && |r.batch.updates| == |st.batch.updates| + |ids|
    && r.batch.reports[..|st.batch.reports|] == st.batch.reports
    && r.batch.updates[..|st.batch.updates|] == st.batch.updates
    && ToldOf(st.engine, ids, request, r.batch.reports[|st.batch.reports|..], r.batch.updates[|st.batch.updates|..])
  }

  lemma SinceStart(st: Step, request: nat)
    ensures Since(st, st, [], request)
  {
    hide QueuesWithout;
    NothingGone(st.engine);
    assert Members([]) == {};
    assert st.engine.resting - {} == st.engine.resting;
  }

  lemma SinceStep(st: Step, st1: Step, r: Step, ids: seq<OrderId>, request: nat)
    requires Core(st.engine) && AllResting(st.engine, ids) && ids != [] && (forall k | 0 < k < |ids| :: ids[k] != ids[0])
    requires Live(st.engine, ids[0]) && st1 == CancelResting(st, ids[0], request)
    requires AllResting(st1.engine, ids[1..]) && Since(st1, r, ids[1..], request)
    ensures Since(st, r, ids, request)
  {
    hide Core, CancelResting, QueuesWithout, ToldOf, GoneReport, GoneDelta;
    var s := st.engine;
    CancelStep(st, ids[0], request);
    QueuesStep(s.books, st1.engine.books, r.engine.books, ids[0], Members(ids[1..]));
    assert Members(ids) == {ids[0]} + Members(ids[1..]);
    assert s.resting - Members(ids) == st1.engine.resting - Members(ids[1..]);
    var a, b := |st.batch.reports|, |st.batch.updates|;
    ToldStep(s, st1.engine, ids, request, r.batch.reports[a + 1..], r.batch.updates[b + 1..]);
    Tail(st.batch.reports, st1.batch.reports, r.batch.reports);
    Tail(st.batch.updates, st1.batch.updates, r.batch.updates);
  }

  lemma {:induction false} CancelEach(st: Step, ids: seq<OrderId>, request: nat)
    requires Core(st.engine) && AllResting(st.engine, ids) && Increasing(ids)
    ensures Since(st, CancelAllOf(st, ids, request), ids, request)
    decreases |ids|
  {
    hide Core, CancelResting, Since;
    if ids == [] {
      SinceStart(st, request);
    } else {
      CancelStep(st, ids[0], request);
      CancelCore(st, ids[0], request);
      var st1 := CancelResting(st, ids[0], request);
      CancelEach(st1, ids[1..], request);
      SinceStep(st, st1, CancelAllOf(st1, ids[1..], request), ids, request);
    }
  }

  lemma Tail(a: seq<Message>, b: seq<Message>, t: seq<Message>)
    requires |b| == |a| + 1 && b[..|a|] == a && |t| >= |b| && t[..|b|] == b
    ensures t[|a|..] == [b[|a|]] + t[|a| + 1..] && t[..|a|] == a
  {
    assert t[..|a|] == t[..|b|][..|a|];
    assert t[|a|] == t[..|b|][|a|];
  }

  lemma NothingGone(s: Engine)
    ensures QueuesWithout(s.books, s.books, {})
  {
    forall i, side | i in s.books ensures s.books[i].Queue(side) == Without(s.books[i].Queue(side), {}) {
      WithoutNone(s.books[i].Queue(side));
    }
  }

  // ---- The commands -------------------------------------------------------

  /** Exactly these orders go, each told of once, and the command is completed. */
  ghost predicate Cancels(s: Engine, c: Message, ids: seq<OrderId>, r: Step) {
    && AllResting(s, ids) && Increasing(ids) && TakenOut(s, r.engine, Members(ids))
    && |r.batch.reports| == |ids| + 1 && r.batch.reports[|ids|].report == Complete
    && ToldOf(s, ids, c.requestId, r.batch.reports[..|ids|], r.batch.updates)
  }

  lemma CancelBusiness(st: Step, ids: seq<OrderId>, c: Message)
    requires Core(st.engine) && st.batch == NO_MESSAGES && AllResting(st.engine, ids) && Increasing(ids)
    ensures var s, r := st.engine, CancelAllOf(st, ids, c.requestId);
      && TakenOut(s, r.engine, Members(ids)) && |r.batch.reports| == |ids|
      && ToldOf(s, ids, c.requestId, r.batch.reports, r.batch.updates)
  {
    hide Core, CancelAllOf, TakenOut, ToldOf, CancelResting;
    CancelEach(st, ids, c.requestId);
    var r := CancelAllOf(st, ids, c.requestId);
    assert r.batch.reports[0..] == r.batch.reports && r.batch.updates[0..] == r.batch.updates;
  }

  /** Opening and closing the command changes none of that. */
  lemma CancelFramed(s: Engine, c: Message, ids: seq<OrderId>)
    requires Core(s) && Effective(s, c) && AllResting(s, ids) && Increasing(ids)
    requires Core(Begin(s, c).engine) && c.clientId in Begin(s, c).engine.clients
    requires Business(Begin(s, c), c) == CancelAllOf(Begin(s, c), ids, c.requestId)
    ensures Cancels(s, c, ids, Perform(s, c))
  {
    hide Core, Business, CancelAllOf, Private, QueuesWithout, GoneReport, GoneDelta, Completion, StampReport;
    CancelBusiness(Begin(s, c), ids, c);
    Completed(s, c);
    var done := Business(Begin(s, c), c);
    assert done.batch.reports == Perform(s, c).batch.reports[..|ids|];
  }

  /**
   An effective cancel-all takes out every order of the client on the named instrument, or on all for instrument zero,
   and no other, in the order of their numbers.
   */
  lemma CancelAllLaw(s: Engine, c: Message) returns (ids: seq<OrderId>)
    requires Inv(s) && Effective(s, c) && c.action == CancelAll
    ensures forall id :: id in ids <==>
              id in s.resting && s.resting[id].clientId == c.clientId
              && (c.instrumentId == 0 || s.resting[id].instrumentId == c.instrumentId)
    ensures Cancels(s, c, ids, Process(s, c))
  {
    hide Core, Bounded, CancelAllOf, Cancels, Perform, SortedKeys;
    BeginCore(s, c);
    ids := OrdersOf(s, c.clientId, c.instrumentId);
    BeginSame(s, c);
    assert forall k | 0 <= k < |ids| :: ids[k] in ids;
    CancelFramed(s, c, ids);
  }

  /** An effective cancel takes out the order it names and no other. */
  lemma CancelOneLaw(s: Engine, c: Message, id: OrderId)
    requires Inv(s) && Effective(s, c) && c.action == Action.Cancel
    requires id in s.resting && s.resting[id].clientId == c.clientId && s.resting[id].orderId == c.orderId
             && s.resting[id].instrumentId == c.instrumentId
    ensures Cancels(s, c, [id], Process(s, c))
  {
    hide BooksOk, Agreement, Issued, HasAccounts, Balanced, AllSound, Bounded, CancelResting, Cancels;
    BeginCore(s, c);
    BeginSame(s, c);
    BookKeys(s);
    var b := Begin(s, c);
    assert OwnerKey(s.resting[id]) == OwnerKey(c);
    assert CancelAllOf(CancelResting(b, id, c.requestId), [], c.requestId) == CancelResting(b, id, c.requestId);
    assert [id][1..] == [];
    CancelFramed(s, c, [id]);
  }

  /** If it names none, it is refused for that and changes nothing. */
  lemma CancelNoneLaw(s: Engine, c: Message)
    requires Inv(s) && Effective(s, c) && c.action == Action.Cancel
    requires forall id | id in s.resting :: !(s.resting[id].clientId == c.clientId && s.resting[id].orderId == c.orderId
                                              && s.resting[id].instrumentId == c.instrumentId)
    ensures Answered(Process(s, c), c, UnknownOrder) && Unchanged(s, Process(s, c).engine)
  {
    hide BooksOk, Agreement, Issued, HasAccounts, Balanced, AllSound, Bounded, Unchanged;
    BeginCore(s, c);
    BeginSame(s, c);
    BeginQuiet(s, c);
    var b := Begin(s, c);
    assert !Addressed(b.engine, c);
    RefuseIsOne(b, c, UnknownOrder);
    Completed(s, c);
    CompletedRefusal(Refuse(b, c, UnknownOrder), Perform(s, c), c, UnknownOrder);
    RejectionIsInert(s, c);
  }
}
