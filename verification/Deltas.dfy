/** The public delta stream: what it means, and that it carries every change of every book. */
module DeltaStream {
  import opened Types
  import opened BookModel
  import opened Positions
  import opened EngineModel
  import opened AgreementLemmas
  import opened Exchange
  import opened Exposure

  type Shelf = map<InstrumentId, Book>

  /** The book of an instrument; one never heard of is empty. */
  function BookAt(books: Shelf, i: InstrumentId): Book {
    if i in books then books[i] else EMPTY
  }

  /** The same orders in the same queues; empty books do not matter. */
  ghost predicate Alike(a: Shelf, b: Shelf) {
    forall i: InstrumentId :: BookAt(a, i) == BookAt(b, i)
  }

  /** The effect of one delta on one book. */
  function ApplyToBook(b: Book, capacity: nat, m: Message): (Book, ApplyResult) {
    match m.update
    case TradeUpdate => (b, Ok)
    case AddUpdate => Add(b, capacity, m.exchangeId, m.side, m.price, m.quantity)
    case CancelUpdate => CancelOrder(b, m.exchangeId)
    case ExecuteUpdate => ExecuteOrder(b, m.exchangeId, m.quantity)
    case ReduceUpdate =>
      var left := RemainingQuantity(b, m.exchangeId);
      if left.None? || m.quantity == 0 || m.quantity >= left.value then (b, BadQuantity)
      else ExecuteOrder(b, m.exchangeId, left.value - m.quantity)
  }

  /** The effect of one delta on all books; only an addition may name a new instrument. */
  function ApplyDelta(books: Shelf, capacity: nat, m: Message): (Shelf, ApplyResult) {
    if m.update == TradeUpdate then (books, Ok)
    else if m.update != AddUpdate && m.instrumentId !in books then (books, NoInstrument)
    else
      var (b, result) := ApplyToBook(BookAt(books, m.instrumentId), capacity, m);
      (books[m.instrumentId := b], result)
  }

  /** Applies deltas in order, stopping at the first that fails. */
  function Replay(books: Shelf, capacity: nat, deltas: seq<Message>): Option<Shelf>
    decreases |deltas|
  {
    if deltas == [] then Some(books) else
    var (next, result) := ApplyDelta(books, capacity, deltas[0]);
    if result == Ok then Replay(next, capacity, deltas[1..]) else None
  }

  lemma {:induction false} ReplayAppend(books: Shelf, capacity: nat, a: seq<Message>, b: seq<Message>)
    ensures Replay(books, capacity, a + b) ==
            match Replay(books, capacity, a) case None => None case Some(mid) => Replay(mid, capacity, b)
    decreases |a|
  {
    if a == [] {
      assert a + b == b;
    } else {
      assert (a + b)[1..] == a[1..] + b;
      ReplayAppend(ApplyDelta(books, capacity, a[0]).0, capacity, a[1..], b);
    }
  }

  /** A delta applies, and to the same effect, whichever empty books are listed. */
  lemma ApplyAlike(a: Shelf, b: Shelf, capacity: nat, m: Message)
    requires Alike(a, b)
    ensures var x, y := ApplyDelta(a, capacity, m), ApplyDelta(b, capacity, m);
            && (x.1 == Ok <==> y.1 == Ok)
            && (x.1 == Ok ==> Alike(x.0, y.0))
  {
    hide Add, CancelOrder, ExecuteOrder;
    var i := m.instrumentId;
    assert BookAt(a, i) == BookAt(b, i);
    NothingThere(capacity, m);
    var x, y := ApplyDelta(a, capacity, m), ApplyDelta(b, capacity, m);
    if x.1 == Ok {
      forall j: InstrumentId ensures BookAt(x.0, j) == BookAt(y.0, j) {
        assert BookAt(a, j) == BookAt(b, j);
      }
    }
  }

  lemma NothingThere(capacity: nat, m: Message)
    ensures m.update != AddUpdate && m.update != TradeUpdate ==> ApplyToBook(EMPTY, capacity, m).1 != Ok
  {
  }

  // ---- The engine's stream follows its books ------------------------------

  /** Replaying what a command has published so far takes `from` to the engine's books. */
  ghost predicate Tracks(from: Shelf, st: Step) {
    var r := Replay(from, st.engine.capacity, st.batch.updates);
    r.Some? && Alike(r.value, st.engine.books)
  }

  /** One more delta that does to the books what the engine did keeps the stream on track. */
  lemma TrackUpdate(from: Shelf, st: Step, s: Engine, m: Message, kind: UpdateType)
    requires Tracks(from, st) && m.instrumentId in st.engine.books
    requires s.capacity == st.engine.capacity
    requires var u := StampUpdate(m, kind, s.epoch, s.sequence + 1);
             var x := ApplyToBook(st.engine.books[m.instrumentId], s.capacity, u);
             x.1 == Ok && s.books == st.engine.books[m.instrumentId := x.0]
    ensures Tracks(from, EmitUpdate(Step(s, st.batch), m, kind))
  {
    hide ApplyToBook, StampUpdate;
    var cap := s.capacity;
    var u := StampUpdate(m, kind, s.epoch, s.sequence + 1);
    StampFields(m, kind, s.epoch, s.sequence + 1);
    var mid := Replay(from, cap, st.batch.updates).value;
    ApplyAlike(mid, st.engine.books, cap, u);
    ReplayAppend(from, cap, st.batch.updates, [u]);
    ReplayOne(mid, cap, u);
    TradeNothing(st.engine.books[m.instrumentId], cap, u);
    assert st.engine.books[m.instrumentId := st.engine.books[m.instrumentId]] == st.engine.books;
    assert ApplyDelta(st.engine.books, cap, u) == (s.books, Ok);
  }

  lemma StampFields(m: Message, kind: UpdateType, epoch: nat, n: nat)
    ensures var u := StampUpdate(m, kind, epoch, n);
            && u.instrumentId == m.instrumentId && u.update == kind && u.exchangeId == m.exchangeId
            && u.side == m.side && u.price == m.price && u.quantity == m.quantity
  {
  }

  lemma TradeNothing(b: Book, capacity: nat, m: Message)
    ensures m.update == TradeUpdate ==> ApplyToBook(b, capacity, m) == (b, Ok)
  {
  }

  lemma ReplayOne(books: Shelf, capacity: nat, m: Message)
    ensures Replay(books, capacity, [m]) ==
            if ApplyDelta(books, capacity, m).1 == Ok then Some(ApplyDelta(books, capacity, m).0) else None
  {
    assert [m][1..] == [];
  }

  /** Changes outside the books and the stream do not matter. */
  lemma TrackSame(from: Shelf, st: Step, st': Step)
    requires Tracks(from, st)
    requires st'.engine.capacity == st.engine.capacity && st'.engine.books == st.engine.books
    requires st'.batch.updates == st.batch.updates
    ensures Tracks(from, st')
  {
  }

  lemma CancelTracks(from: Shelf, st: Step, id: OrderId, request: nat)
    requires Core(st.engine) && id in st.engine.resting && Tracks(from, st)
    ensures Live(st.engine, id)
    ensures Tracks(from, CancelResting(st, id, request))
  {
    hide BooksOk, Agreement, Indexed, HasAccounts, Balanced, AllSound, Tracks, CancelOrder;
    var s := st.engine;
    CancelSucceeds(s, id);
    var m := s.resting[id].(requestId := request, remaining := 0);
    var b := CancelOrder(s.books[m.instrumentId], id).0;
    var s1 := s.(books := s.books[m.instrumentId := b]);
    TrackUpdate(from, st, s1, m, CancelUpdate);
    TrackSame(from, EmitUpdate(Step(s1, st.batch), m, CancelUpdate), CancelResting(st, id, request));
  }

  lemma MatchOneTracks(from: Shelf, st: Step, c: Message, leaves: Quantity)
    requires Ready(st.engine, c) && OppositeQueue(st.engine, c) != [] && leaves > 0 && Tracks(from, st)
    ensures Matchable(st.engine, c)
    ensures Tracks(from, MatchOne(st, c, leaves))
  {
    hide BooksOk, Agreement, Indexed, HasAccounts, Balanced, AllSound, Tracks, ExecuteOrder, Settle, StampUpdate, StampReport;
    FrontKnown(st.engine, c);
    var s := st.engine;
    var e := Front(s, c);
    var size := Min(leaves, e.quantity);
    var i := c.instrumentId;
    AllConsistent(s.instruments, s.capacity, s.books);
    ExecuteAgreement(s.books, s.resting, e.id, size);
    var maker := MakerAfter(s, e.id, size);
    var execution := maker.(quantity := size, remaining := maker.quantity, tradeId := s.nextTrade);
    var taker := c.(price := e.price, quantity := size, remaining := leaves - size, tradeId := s.nextTrade);
    var s1 := Traded(s, c, e.id, e.price, size);
    var st1 := EmitReport(st.(engine := s1), execution, ReportType.Fill, NoReject);
    StampFields(execution, ExecuteUpdate, s1.epoch, s1.sequence + 1);
    TrackUpdate(from, st, st1.engine, execution, ExecuteUpdate);
    var st2 := EmitUpdate(Step(st1.engine, st.batch), execution, ExecuteUpdate);
    var st2' := EmitUpdate(st1, execution, ExecuteUpdate);
    TrackSame(from, st2, st2');
    var st3 := EmitReport(st2', taker, ReportType.Fill, NoReject);
    TrackSame(from, st2', st3);
    StampFields(taker, TradeUpdate, st3.engine.epoch, st3.engine.sequence + 1);
    assert st3.engine.books[i := st3.engine.books[i]] == st3.engine.books;
    TrackUpdate(from, st3, st3.engine, taker, TradeUpdate);
  }

  lemma {:induction false} MatchAllTracks(from: Shelf, st: Step, c: Message, leaves: Quantity)
    requires Ready(st.engine, c) && Tracks(from, st)
    ensures Tracks(from, MatchAll(st, c, leaves))
    decreases leaves
  {
    hide Core, MatchOne, Tracks;
    if CanMatch(st.engine, c, leaves) {
      FrontKnown(st.engine, c);
      MatchOneCore(st, c, leaves);
      MatchOneTracks(from, st, c, leaves);
      MatchAllTracks(from, MatchOne(st, c, leaves), c, leaves - Min(leaves, Front(st.engine, c).quantity));
    }
  }

  lemma AcceptTracks(from: Shelf, st: Step, c: Message, prior: OrderId)
    requires Submittable(st.engine, c, prior) && Tracks(from, st)
    ensures prior != 0 ==> Live(st.engine, prior)
    ensures Tracks(from, Accept(st, c, prior))
  {
    hide BooksOk, Agreement, Indexed, HasAccounts, Balanced, AllSound, Tracks, CancelOrder, StampUpdate, StampReport;
    var s := st.engine;
    if prior == 0 {
      TrackSame(from, st, Accept(st, c, prior));
    } else {
      CancelSucceeds(s, prior);
      var m := s.resting[prior];
      StampFields(m, CancelUpdate, s.epoch, s.sequence + 1);
      var s1 := s.(books := s.books[m.instrumentId := CancelOrder(s.books[m.instrumentId], prior).0]);
      TrackUpdate(from, st, s1, m, CancelUpdate);
      TrackSame(from, EmitUpdate(Step(s1, st.batch), m, CancelUpdate), Accept(st, c, prior));
    }
  }

  lemma RestTracks(from: Shelf, st: Step, m: Message)
    requires m.instrumentId in st.engine.books && Tracks(from, st)
    requires Add(st.engine.books[m.instrumentId], st.engine.capacity, m.exchangeId, m.side, m.price, m.quantity).1 == Ok
    ensures Tracks(from, Rest(st, m))
  {
    hide Tracks, Add;
    StampFields(m, AddUpdate, st.engine.epoch, st.engine.sequence + 1);
    var s := st.engine;
    var b := Add(s.books[m.instrumentId], s.capacity, m.exchangeId, m.side, m.price, m.quantity).0;
    var s1 := s.(
      books := s.books[m.instrumentId := b],
      resting := s.resting[m.exchangeId := m],
      byClient := s.byClient[OwnerKey(m) := m.exchangeId]);
    TrackUpdate(from, st, s1, m, AddUpdate);
  }

  lemma AmendTracks(from: Shelf, st: Step, c: Message, prior: OrderId)
    requires Submittable(st.engine, c, prior) && KeepsPriority(st.engine, c, prior) && c.quantity > 0
    requires st.engine.resting[prior].instrumentId == c.instrumentId
    requires Tracks(from, st)
    ensures Live(st.engine, prior)
    ensures Tracks(from, Amend(st, c, prior))
  {
    hide Core, Tracks, ExecuteOrder, ApplyToBook, StampUpdate, StampReport;
    var s := st.engine;
    BookKeys(s);
    var owned := s.resting[prior];
    if c.quantity == owned.quantity {
      TrackSame(from, st, Amend(st, c, prior));
    } else {
      var m := c.(exchangeId := prior, remaining := c.quantity);
      StampFields(m, ReduceUpdate, s.epoch, s.sequence + 1);
      ReduceDelta(s, prior, StampUpdate(m, ReduceUpdate, s.epoch, s.sequence + 1));
      var b := ExecuteOrder(s.books[owned.instrumentId], prior, owned.quantity - c.quantity).0;
      var s1 := s.(books := s.books[owned.instrumentId := b],
                   resting := s.resting[prior := owned.(quantity := c.quantity)]);
      TrackUpdate(from, st, s1, m, ReduceUpdate);
      TrackSame(from, EmitUpdate(Step(s1, st.batch), m, ReduceUpdate), Amend(st, c, prior));
    }
  }

  /** A reduction names the new quantity; the receiver works out the difference. */
  lemma ReduceDelta(s: Engine, id: OrderId, u: Message)
    requires Core(s) && id in s.resting && u.update == ReduceUpdate && u.exchangeId == id
    requires 0 < u.quantity < s.resting[id].quantity
    ensures Live(s, id)
    ensures var b := s.books[s.resting[id].instrumentId];
            ApplyToBook(b, s.capacity, u) == (ExecuteOrder(b, id, s.resting[id].quantity - u.quantity).0, Ok)
  {
    hide BooksOk, Agreement, Indexed, Issued, HasAccounts, Balanced, AllSound, Consistent, ExecuteOrder, Get, SideOf;
    AllConsistent(s.instruments, s.capacity, s.books);
    LocateResting(s.books, s.resting, id);
    ExecuteSucceeds(s, id, s.resting[id].quantity - u.quantity);
  }

  lemma EnterTracks(from: Shelf, st: Step, c: Message, prior: OrderId)
    requires Admissible(st.engine, c, prior) && Tracks(from, st)
    ensures Tracks(from, Enter(st, c, prior))
  {
    hide BooksOk, Agreement, Indexed, HasAccounts, Balanced, AllSound, RiskRefusal, Accept, Rest, MatchAll, Tracks, Leaves, Crosses;
    AdmissibleParts(st, c, prior);
    AcceptParts(st, c, prior);
    AcceptTracks(from, st, c, prior);
    var s := st.engine;
    var m := Incoming(s, c);
    var st1 := Accept(st, c, prior);
    MatchAllTracks(from, st1, m, c.quantity);
    MatchAllStops(st1, m, c.quantity);
    var st2 := MatchAll(st1, m, c.quantity);
    var left := Leaves(c, OppositeQueue(s, c), c.quantity);
    if Rests(m, left) {
      var rest := m.(quantity := left, remaining := left);
      UnknownToBooks(st2.engine.books, st2.engine.resting, c.instrumentId, rest.exchangeId);
      RestTracks(from, st2, rest);
    } else {
      TrackSame(from, st2, Enter(st, c, prior));
    }
  }

  lemma SubmitTracks(from: Shelf, st: Step, c: Message, prior: OrderId)
    requires Submittable(st.engine, c, prior) && Tracks(from, st)
    ensures Tracks(from, Submit(st, c, prior))
  {
    hide Core, RiskRefusal, BookRefusal, Enter, Amend, Submit, Tracks;
    SubmitCases(st, c, prior);
    var r := Submit(st, c, prior);
    if Admissible(st.engine, c, prior) && r == Enter(st, c, prior) {
      EnterTracks(from, st, c, prior);
    } else if KeepsPriority(st.engine, c, prior) && Live(st.engine, prior) && r == Amend(st, c, prior)
              && c.quantity > 0 && st.engine.resting[prior].instrumentId == c.instrumentId {
      AmendTracks(from, st, c, prior);
    } else {
      TrackSame(from, st, r);
    }
  }

  lemma {:induction false} CancelAllTracks(from: Shelf, st: Step, ids: seq<OrderId>, request: nat)
    requires Core(st.engine) && Tracks(from, st)
    ensures Tracks(from, CancelAllOf(st, ids, request))
    decreases |ids|
  {
    hide Core, CancelResting, Tracks;
    if ids != [] {
      if Live(st.engine, ids[0]) {
        CancelCore(st, ids[0], request);
        CancelTracks(from, st, ids[0], request);
        CancelAllTracks(from, CancelResting(st, ids[0], request), ids[1..], request);
      } else {
        CancelAllTracks(from, st, ids[1..], request);
      }
    }
  }

  lemma BusinessTracks(from: Shelf, st: Step, c: Message)
    requires Core(st.engine) && c.clientId != 0 && c.clientId in st.engine.clients && Tracks(from, st)
    ensures Tracks(from, Business(st, c))
  {
    hide BooksOk, Agreement, Issued, HasAccounts, Balanced, AllSound, Submit, CancelResting, CancelAllOf, OrdersOf, Tracks;
    var s := st.engine;
    BookKeys(s);
    match c.action
    case New => SubmitTracks(from, st, c, 0);
    case CancelAll => CancelAllTracks(from, st, OrdersOf(s, c.clientId, c.instrumentId), c.requestId);
    case Cancel =>
      if Addressed(s, c) {
        CancelTracks(from, st, s.byClient[OwnerKey(c)], c.requestId);
      } else {
        TrackSame(from, st, Business(st, c));
      }
    case Replace =>
      if Addressed(s, c) {
        SubmitTracks(from, st, c, s.byClient[OwnerKey(c)]);
      } else {
        TrackSame(from, st, Business(st, c));
      }
    case Snapshot => TrackSame(from, st, Business(st, c));
    case Status => TrackSame(from, st, Business(st, c));
  }

  /** The deltas of one command take any like copy of the books to the engine's new books. */
  lemma ProcessTracks(from: Shelf, s: Engine, c: Message)
    requires Core(s) && Alike(from, s.books)
    ensures Tracks(from, Process(s, c))
  {
    hide Core, Perform, Answer;
    if Effective(s, c) {
      PerformTracks(from, s, c);
    } else {
      AnswerKeeps(s, c);
    }
  }

  lemma PerformTracks(from: Shelf, s: Engine, c: Message)
    requires Core(s) && Alike(from, s.books) && Effective(s, c)
    ensures Tracks(from, Perform(s, c))
  {
    assert Tracks(from, Begin(s, c));
    hide Core, Business, Completion, Tracks;
    BeginCore(s, c);
    BusinessCore(Begin(s, c), c);
    BusinessTracks(from, Begin(s, c), c);
    TrackSame(from, Business(Begin(s, c), c), Perform(s, c));
  }

  // ---- Numbering ----------------------------------------------------------

  /** Deltas are numbered consecutively from `n` and stamped with one epoch. */
  ghost predicate Numbered(updates: seq<Message>, n: nat, epoch: nat) {
    forall k | 0 <= k < |updates| ::
      updates[k].kind == Delta && updates[k].epoch == epoch && updates[k].sequence == n + 1 + k
  }

  /** The stream of a command so far continues the engine's numbering. */
  ghost predicate Continues(n: nat, epoch: nat, st: Step) {
    st.engine.epoch == epoch && st.engine.sequence == n + |st.batch.updates| && Numbered(st.batch.updates, n, epoch)
  }

  lemma MatchOneContinues(n: nat, epoch: nat, st: Step, c: Message, leaves: Quantity)
    requires Matchable(st.engine, c) && Continues(n, epoch, st)
    ensures Continues(n, epoch, MatchOne(st, c, leaves))
  {
    hide Settle, ExecuteOrder;
  }

  lemma {:induction false} MatchAllContinues(n: nat, epoch: nat, st: Step, c: Message, leaves: Quantity)
    requires Ready(st.engine, c) && Continues(n, epoch, st)
    ensures Continues(n, epoch, MatchAll(st, c, leaves))
    decreases leaves
  {
    hide Core, MatchOne, Continues;
    if CanMatch(st.engine, c, leaves) {
      FrontKnown(st.engine, c);
      MatchOneCore(st, c, leaves);
      MatchOneContinues(n, epoch, st, c, leaves);
      MatchAllContinues(n, epoch, MatchOne(st, c, leaves), c, leaves - Min(leaves, Front(st.engine, c).quantity));
    }
  }

  lemma AcceptContinues(n: nat, epoch: nat, st: Step, c: Message, prior: OrderId)
    requires c.clientId in st.engine.clients && (prior != 0 ==> Live(st.engine, prior)) && Continues(n, epoch, st)
    ensures Continues(n, epoch, Accept(st, c, prior))
  {
    hide CancelOrder, OpenAccount, StampReport;
  }

  lemma FinishContinues(n: nat, epoch: nat, st: Step, m: Message, left: Quantity)
    requires m.instrumentId in st.engine.books && Continues(n, epoch, st)
    ensures Continues(n, epoch, Finish(st, m, left))
  {
    hide Add, StampReport;
  }

  lemma SubmitContinues(n: nat, epoch: nat, st: Step, c: Message, prior: OrderId)
    requires Submittable(st.engine, c, prior) && Continues(n, epoch, st)
    ensures Continues(n, epoch, Submit(st, c, prior))
  {
    hide Core, RiskRefusal, BookRefusal, Submit, Accept, MatchAll, Finish, Leaves, StampReport, ExecuteOrder;
    SubmitCases(st, c, prior);
    if Admissible(st.engine, c, prior) {
      AdmissibleParts(st, c, prior);
      AcceptContinues(n, epoch, st, c, prior);
      var m := Incoming(st.engine, c);
      var st1 := Accept(st, c, prior);
      MatchAllContinues(n, epoch, st1, m, c.quantity);
      FinishContinues(n, epoch, MatchAll(st1, m, c.quantity), m, Leaves(c, OppositeQueue(st.engine, c), c.quantity));
    }
  }

  lemma CancelContinues(n: nat, epoch: nat, st: Step, id: OrderId, request: nat)
    requires Live(st.engine, id) && Continues(n, epoch, st)
    ensures Continues(n, epoch, CancelResting(st, id, request))
  {
    hide CancelOrder, StampReport;
  }

  lemma {:induction false} CancelAllContinues(n: nat, epoch: nat, st: Step, ids: seq<OrderId>, request: nat)
    requires Continues(n, epoch, st)
    ensures Continues(n, epoch, CancelAllOf(st, ids, request))
    decreases |ids|
  {
    hide CancelResting, Continues;
    if ids != [] {
      if Live(st.engine, ids[0]) {
        CancelContinues(n, epoch, st, ids[0], request);
        CancelAllContinues(n, epoch, CancelResting(st, ids[0], request), ids[1..], request);
      } else {
        CancelAllContinues(n, epoch, st, ids[1..], request);
      }
    }
  }

  lemma BusinessContinues(n: nat, epoch: nat, st: Step, c: Message)
    requires Core(st.engine) && c.clientId != 0 && c.clientId in st.engine.clients && Continues(n, epoch, st)
    ensures Continues(n, epoch, Business(st, c))
  {
    hide BooksOk, Agreement, Issued, HasAccounts, Balanced, AllSound, Submit, CancelResting, CancelAllOf, OrdersOf, StampReport;
    var s := st.engine;
    BookKeys(s);
    match c.action
    case New => SubmitContinues(n, epoch, st, c, 0);
    case CancelAll => CancelAllContinues(n, epoch, st, OrdersOf(s, c.clientId, c.instrumentId), c.requestId);
    case Cancel =>
      if Addressed(s, c) {
        CancelContinues(n, epoch, st, s.byClient[OwnerKey(c)], c.requestId);
      }
    case Replace =>
      if Addressed(s, c) {
        SubmitContinues(n, epoch, st, c, s.byClient[OwnerKey(c)]);
      }
    case Snapshot =>
    case Status =>
  }

  lemma ProcessContinues(s: Engine, c: Message)
    requires Core(s)
    ensures Continues(s.sequence, s.epoch, Process(s, c))
  {
    hide Core, Perform, Answer;
    if Effective(s, c) {
      PerformContinues(s, c);
    } else {
      AnswerKeeps(s, c);
    }
  }

  lemma PerformContinues(s: Engine, c: Message)
    requires Core(s) && Effective(s, c)
    ensures Continues(s.sequence, s.epoch, Perform(s, c))
  {
    hide Core, Business, Completion;
    BeginCore(s, c);
    BusinessCore(Begin(s, c), c);
    BusinessContinues(s.sequence, s.epoch, Begin(s, c), c);
  }

  // ---- Whole runs ---------------------------------------------------------

  /** Everything an engine publishes in a run. */
  ghost function Log(s: Engine, commands: seq<Message>): seq<Message>
    requires Inv(s)
    decreases |commands|
  {
    if commands == [] then [] else
    ProcessKeepsInv(s, commands[0]);
    Process(s, commands[0]).batch.updates + Log(Process(s, commands[0]).engine, commands[1..])
  }

  /** The published log is consecutive, and replaying it onto a like copy of the books gives the books. */
  lemma {:induction false} LogIsFaithful(from: Shelf, s: Engine, commands: seq<Message>)
    requires Inv(s) && Alike(from, s.books)
    ensures var log := Log(s, commands);
            var s' := After(s, commands);
            && Numbered(log, s.sequence, s.epoch)
            && s'.sequence == s.sequence + |log|
            && Replay(from, s.capacity, log).Some?
            && Alike(Replay(from, s.capacity, log).value, s'.books)
    decreases |commands|
  {
    hide Core, Bounded, Process, Alike;
    if commands != [] {
      var r := Process(s, commands[0]);
      ProcessKeepsInv(s, commands[0]);
      ProcessConfig(s, commands[0]);
      ProcessTracks(from, s, commands[0]);
      ProcessContinues(s, commands[0]);
      var mid := Replay(from, s.capacity, r.batch.updates).value;
      LogIsFaithful(mid, r.engine, commands[1..]);
      ReplayAppend(from, s.capacity, r.batch.updates, Log(r.engine, commands[1..]));
    }
  }

  /** The log of a longer run continues the log of its beginning. */
  lemma {:induction false} LogSplit(s: Engine, a: seq<Message>, b: seq<Message>)
    requires Inv(s)
    ensures Log(s, a + b) == Log(s, a) + Log(After(s, a), b)
    decreases |a|
  {
    hide Core, Bounded, Process;
    if a == [] {
      assert a + b == b;
    } else {
      ProcessKeepsInv(s, a[0]);
      assert (a + b)[1..] == a[1..] + b;
      LogSplit(Process(s, a[0]).engine, a[1..], b);
    }
  }
}
