/**
 Why planning first, resting the residual before any fill, and committing the
 planned fills afterwards is the same as matching in the simple order: the steps on
 the incoming order's own side commute with the trades on the opposite side.
 */
module Refinement {
  import opened Types
  import opened BookModel
  import opened Positions
  import opened EngineModel
  import opened AgreementLemmas
  import opened Exchange

  // ---- The plan -----------------------------------------------------------

  datatype PlannedFill = PlannedFill(id: OrderId, price: Price, size: Quantity)

  /** The fills a sweep of the opposite queue will make. */
  function Plan(c: Message, queue: seq<Entry>, quantity: Quantity): seq<PlannedFill> {
    if quantity == 0 || queue == [] || !Crosses(c, queue[0].price) then [] else
    var size := Min(quantity, queue[0].quantity);
    [PlannedFill(queue[0].id, queue[0].price, size)] + Plan(c, queue[1..], quantity - size)
  }

  lemma {:induction false} PlanSame(c: Message, m: Message, queue: seq<Entry>, quantity: Quantity)
    requires m.orderType == c.orderType && m.side == c.side && m.price == c.price
    ensures Plan(m, queue, quantity) == Plan(c, queue, quantity)
    decreases |queue|
  {
    if queue != [] {
      PlanSame(c, m, queue[1..], quantity - Min(quantity, queue[0].quantity));
    }
  }

  function PlannedQuantity(fills: seq<PlannedFill>): nat {
    if fills == [] then 0 else fills[0].size + PlannedQuantity(fills[1..])
  }

  // ---- The own side commutes with everything the fills do ----------------

  /** The book with the residual already in it. */
  function BookWithRest(b: Book, m: Message): Book {
    b.With(m.side, Insert(m.side, b.Queue(m.side), Entry(m.exchangeId, m.price, m.quantity)))
  }

  /** The engine with the residual already resting. */
  function WithRest(s: Engine, m: Message): Engine
    requires m.instrumentId in s.books
  {
    s.(books := s.books[m.instrumentId := BookWithRest(s.books[m.instrumentId], m)],
       resting := s.resting[m.exchangeId := m],
       byClient := s.byClient[OwnerKey(m) := m.exchangeId])
  }

  lemma {:induction false} RemoveInsert(side: Side, s: seq<Entry>, e: Entry, id: OrderId)
    requires Ordered(side, s) && id != e.id
    ensures Remove(Insert(side, s, e), id) == Insert(side, Remove(s, id), e)
  {
    if s == [] {
      assert [e][1..] == [];
    } else if NoWorse(side, s[0].price, e.price) {
      RemoveInsert(side, s[1..], e, id);
      var t := Insert(side, s[1..], e);
      assert ([s[0]] + t)[1..] == t;
      if s[0].id != id {
        assert Remove(s, id)[1..] == Remove(s[1..], id);
      }
    } else {
      assert ([e] + s)[1..] == s;
      assert Remove([e] + s, id) == [e] + Remove(s, id);
      var r := Remove(s, id);
      if r != [] {
        assert r[0] in s;
        FrontIsBest(side, s, r[0]);
      }
    }
  }

  /** Executing on the far side and adding on the near side may be done in either order. */
  lemma ExecuteCommutes(b: Book, m: Message, e: Entry, size: Quantity)
    requires Consistent(b) && !b.Has(m.exchangeId)
    requires e in b.Queue(m.side.Opposite()) && 0 < size <= e.quantity
    ensures ExecuteOrder(BookWithRest(b, m), e.id, size) == (BookWithRest(ExecuteOrder(b, e.id, size).0, m), Ok)
  {
    var far := m.side.Opposite();
    Locate(b, far, e);
    var near := Entry(m.exchangeId, m.price, m.quantity);
    var b' := BookWithRest(b, m);
    assert e.id != m.exchangeId;
    forall x | x in b'.Queue(m.side) ensures x.id != e.id {
      if x in b.Queue(m.side) {
        assert HasId(b.Queue(m.side), x.id);
      }
    }
    assert !HasId(b'.Queue(m.side), e.id);
    assert SideOf(b', e.id) == far;
  }

  lemma CancelCommutes(b: Book, m: Message, id: OrderId)
    requires Consistent(b) && id != m.exchangeId && HasId(b.Queue(m.side), id)
    ensures CancelOrder(BookWithRest(b, m), id) == (BookWithRest(CancelOrder(b, id).0, m), Ok)
  {
    var b' := BookWithRest(b, m);
    var e := Get(b.Queue(m.side), id);
    assert e in b'.Queue(m.side);
    assert HasId(b'.Queue(m.side), id);
    assert !HasId(b.Queue(m.side.Opposite()), id);
    assert SideOf(b, id) == m.side && SideOf(b', id) == m.side;
    RemoveInsert(m.side, b.Queue(m.side), Entry(m.exchangeId, m.price, m.quantity), id);
  }

  lemma EmitTradeCommutes(st: Step, execution: Message, taker: Message, rest: Message)
    requires rest.instrumentId in st.engine.books
    ensures var st' := st.(engine := WithRest(st.engine, rest));
            var r := EmitTrade(st, execution, taker);
            EmitTrade(st', execution, taker) == r.(engine := WithRest(r.engine, rest))
  {
    hide BookWithRest;
  }

  lemma TradedCommutes(s: Engine, m: Message, rest: Message, id: OrderId, price: Price, size: Quantity)
    requires Tradable(s, m, id, size)
    requires rest.instrumentId == m.instrumentId
    requires id != rest.exchangeId && OwnerKey(s.resting[id]) != OwnerKey(rest)
    requires ExecuteOrder(BookWithRest(s.books[m.instrumentId], rest), id, size).0
             == BookWithRest(ExecuteOrder(s.books[m.instrumentId], id, size).0, rest)
    ensures Tradable(WithRest(s, rest), m, id, size)
    ensures MakerAfter(WithRest(s, rest), id, size) == MakerAfter(s, id, size)
    ensures Traded(WithRest(s, rest), m, id, price, size) == WithRest(Traded(s, m, id, price, size), rest)
  {
    hide ExecuteOrder, BookWithRest, Settle;
    var s' := WithRest(s, rest);
    var maker := MakerAfter(s, id, size);
    assert s'.resting - {id} == (s.resting - {id})[rest.exchangeId := rest];
    assert s'.resting[id := maker] == s.resting[id := maker][rest.exchangeId := rest];
    assert s'.byClient - {OwnerKey(maker)} == (s.byClient - {OwnerKey(maker)})[OwnerKey(rest) := rest.exchangeId];
    var i := m.instrumentId;
    var x := ExecuteOrder(s.books[i], id, size).0;
    assert s'.books[i := BookWithRest(x, rest)] == s.books[i := x][i := BookWithRest(x, rest)];
  }

  /** A trade against a far-side order does not notice the residual already resting. */
  lemma TradeCommutes(st: Step, m: Message, rest: Message, id: OrderId, price: Price, size: Quantity, leaves: Quantity)
    requires Tradable(st.engine, m, id, size) && size <= leaves
    requires rest.instrumentId == m.instrumentId
    requires id != rest.exchangeId && OwnerKey(st.engine.resting[id]) != OwnerKey(rest)
    requires ExecuteOrder(BookWithRest(st.engine.books[m.instrumentId], rest), id, size).0
             == BookWithRest(ExecuteOrder(st.engine.books[m.instrumentId], id, size).0, rest)
    ensures var st' := st.(engine := WithRest(st.engine, rest));
            var r := TradeWith(st, m, id, price, size, leaves);
            && Tradable(st'.engine, m, id, size)
            && rest.instrumentId in r.engine.books
            && TradeWith(st', m, id, price, size, leaves) == r.(engine := WithRest(r.engine, rest))
  {
    hide Traded, EmitTrade, WithRest;
    TradedCommutes(st.engine, m, rest, id, price, size);
    var s := st.engine;
    var next := Traded(s, m, id, price, size);
    var maker := MakerAfter(s, id, size);
    TradedBooks(s, m, id, price, size);
    WithRestCounters(s, rest);
    EmitTradeCommutes(st.(engine := next),
              maker.(quantity := size, remaining := maker.quantity, tradeId := s.nextTrade),
              m.(price := price, quantity := size, remaining := leaves - size, tradeId := s.nextTrade), rest);
    EmitTradeBooks(st.(engine := next),
              maker.(quantity := size, remaining := maker.quantity, tradeId := s.nextTrade),
              m.(price := price, quantity := size, remaining := leaves - size, tradeId := s.nextTrade));
  }

  lemma TradedBooks(s: Engine, c: Message, id: OrderId, price: Price, size: Quantity)
    requires Tradable(s, c, id, size)
    ensures Traded(s, c, id, price, size).books.Keys == s.books.Keys
  {
  }

  lemma WithRestCounters(s: Engine, rest: Message)
    requires rest.instrumentId in s.books
    ensures WithRest(s, rest).nextTrade == s.nextTrade
  {
  }

  lemma EmitTradeBooks(st: Step, execution: Message, taker: Message)
    ensures EmitTrade(st, execution, taker).engine ==
            st.engine.(sequence := st.engine.sequence + 2, responseSequence := st.engine.responseSequence + 2)
    ensures var s := st.engine;
            EmitTrade(st, execution, taker).batch == Batch(
              st.batch.reports + [StampReport(execution, ReportType.Fill, NoReject, s.epoch, s.responseSequence + 1)]
                + [StampReport(taker, ReportType.Fill, NoReject, s.epoch, s.responseSequence + 2)],
              st.batch.updates + [StampUpdate(execution, ExecuteUpdate, s.epoch, s.sequence + 1)]
                + [StampUpdate(taker, TradeUpdate, s.epoch, s.sequence + 2)])
  {
    hide StampReport, StampUpdate;
  }

  /** Resting at the end is having rested all along, plus the announcement. */
  lemma RestIsWithRest(st: Step, m: Message)
    requires m.instrumentId in st.engine.books
    requires !st.engine.books[m.instrumentId].Has(m.exchangeId) && m.quantity > 0 && m.price > 0
    requires st.engine.books[m.instrumentId].Count() < st.engine.capacity
    ensures Rest(st, m) == EmitUpdate(st.(engine := WithRest(st.engine, m)), m, AddUpdate)
  {
  }

  /** What one trade does, spelled out. */
  lemma TradeWithParts(st: Step, c: Message, id: OrderId, price: Price, size: Quantity, leaves: Quantity)
    requires Tradable(st.engine, c, id, size) && size <= leaves
    ensures var s := st.engine;
            var maker := MakerAfter(s, id, size);
            var execution := maker.(quantity := size, remaining := maker.quantity, tradeId := s.nextTrade);
            var taker := c.(price := price, quantity := size, remaining := leaves - size, tradeId := s.nextTrade);
            TradeWith(st, c, id, price, size, leaves) == Step(
              Traded(s, c, id, price, size).(sequence := s.sequence + 2, responseSequence := s.responseSequence + 2),
              Batch(
                st.batch.reports + [StampReport(execution, ReportType.Fill, NoReject, s.epoch, s.responseSequence + 1)]
                  + [StampReport(taker, ReportType.Fill, NoReject, s.epoch, s.responseSequence + 2)],
                st.batch.updates + [StampUpdate(execution, ExecuteUpdate, s.epoch, s.sequence + 1)]
                  + [StampUpdate(taker, TradeUpdate, s.epoch, s.sequence + 2)]))
  {
    hide StampReport, StampUpdate, EmitTrade, Settle, ExecuteOrder;
    var s := st.engine;
    var maker := MakerAfter(s, id, size);
    EmitTradeBooks(st.(engine := Traded(s, c, id, price, size)),
      maker.(quantity := size, remaining := maker.quantity, tradeId := s.nextTrade),
      c.(price := price, quantity := size, remaining := leaves - size, tradeId := s.nextTrade));
  }

  // ---- Committing the plan ------------------------------------------------

  /** The engine ahead of the simple order by the residual, if there is one. */
  function Ahead(st: Step, rest: Option<Message>): Step
    requires rest.Some? ==> rest.value.instrumentId in st.engine.books
  {
    if rest.Some? then st.(engine := WithRest(st.engine, rest.value)) else st
  }

  /** The residual has a number and a client key of its own. */
  ghost predicate Apart(s: Engine, m: Message, rest: Option<Message>) {
    rest.Some? ==>
      && rest.value.instrumentId == m.instrumentId && rest.value.side == m.side
      && rest.value.exchangeId !in s.resting
      && OwnerKey(rest.value) !in s.byClient
  }

  /** One planned fill, committed with the residual already resting, is one simple trade. */
  lemma CommitStep(t: Step, m: Message, rest: Option<Message>, leaves: Quantity)
    requires Ready(t.engine, m) && CanMatch(t.engine, m, leaves) && Apart(t.engine, m, rest)
    ensures Matchable(t.engine, m)
    ensures var e := OppositeQueue(t.engine, m)[0];
            var size := Min(leaves, e.quantity);
            && 0 < size
            && Tradable(Ahead(t, rest).engine, m, e.id, size)
            && ExecuteOrder(Ahead(t, rest).engine.books[m.instrumentId], e.id, size).1 == Ok
            && var t' := MatchOne(t, m, leaves);
            && Ready(t'.engine, m) && Apart(t'.engine, m, rest)
            && TradeWith(Ahead(t, rest), m, e.id, e.price, size, leaves) == Ahead(t', rest)
            && OppositeQueue(t'.engine, m) ==
               (if size == e.quantity then OppositeQueue(t.engine, m)[1..]
                else [e.(quantity := e.quantity - size)] + OppositeQueue(t.engine, m)[1..])
  {
    hide BooksOk, Issued, HasAccounts, Balanced, AllSound, TradeWith, ExecuteOrder, WithRest, BookWithRest;
    FrontKnown(t.engine, m);
    MatchOneCore(t, m, leaves);
    MatchOneFrame(t, m, leaves);
    MatchOneTradable(t.engine, m, leaves);
    var s := t.engine;
    var e := OppositeQueue(s, m)[0];
    var size := Min(leaves, e.quantity);
    AllConsistent(s.instruments, s.capacity, s.books);
    assert e in s.books[m.instrumentId].Queue(m.side.Opposite());
    ExecuteFront(s.books[m.instrumentId], m.side.Opposite(), size);
    if rest.Some? {
      UnknownToBooks(s.books, s.resting, m.instrumentId, rest.value.exchangeId);
      ExecuteCommutes(s.books[m.instrumentId], rest.value, e, size);
      assert s.byClient[OwnerKey(s.resting[e.id])] == e.id;
      TradeCommutes(t, m, rest.value, e.id, e.price, size, leaves);
      WithRestBook(s, rest.value);
    }
  }

  lemma WithRestBook(s: Engine, rest: Message)
    requires rest.instrumentId in s.books
    ensures WithRest(s, rest).books[rest.instrumentId] == BookWithRest(s.books[rest.instrumentId], rest)
  {
  }

  lemma MatchOneTradable(s: Engine, m: Message, leaves: Quantity)
    requires Matchable(s, m)
    ensures Tradable(s, m, Front(s, m).id, Min(leaves, Front(s, m).quantity))
  {
  }

  /** The plan read off the queue is consumed one simple trade at a time. */
  lemma PlanStep(m: Message, q: seq<Entry>, q': seq<Entry>, leaves: Quantity)
    requires q != [] && leaves > 0 && Crosses(m, q[0].price) && q[0].quantity > 0
    requires var size := Min(leaves, q[0].quantity);
             q' == if size == q[0].quantity then q[1..] else [q[0].(quantity := q[0].quantity - size)] + q[1..]
    ensures Plan(m, q, leaves)[0] == PlannedFill(q[0].id, q[0].price, Min(leaves, q[0].quantity))
    ensures Plan(m, q, leaves)[1..] == Plan(m, q', leaves - Min(leaves, q[0].quantity))
  {
  }

  // ---- Reserving before accepting -----------------------------------------

  /** The engine once the account is open and the residual reserved, before anything is announced. */
  function Reserve(s: Engine, c: Message, prior: OrderId, rest: Option<Message>): Engine
    requires c.instrumentId in s.books
  {
    var s1 := s.(positions := OpenAccount(s.positions, (c.clientId, c.instrumentId)));
    if rest.None? then s1 else
    var m := rest.value;
    s1.(books := s.books[c.instrumentId := BookWithRest(s.books[c.instrumentId], m)],
        resting := s.resting[m.exchangeId := m],
        byClient := if prior == 0 then s.byClient[OwnerKey(c) := m.exchangeId] else s.byClient)
  }

  /** The residual of an order that sweeps and has `left` over. */
  function Residual(s: Engine, c: Message, left: Quantity): Option<Message> {
    if Rests(c, left) then Some(Incoming(s, c).(quantity := left, remaining := left)) else None
  }

  /** The order's instrument book without the replaced order and with the residual. */
  function ReplacedBook(s: Engine, c: Message, prior: OrderId, rest: Option<Message>): Book
    requires c.instrumentId in s.books
  {
    var b := if prior == 0 then s.books[c.instrumentId]
             else BookModel.CancelOrder(s.books[c.instrumentId], prior).0;
    if rest.Some? then BookWithRest(b, rest.value) else b
  }

  function ReplacedResting(s: Engine, prior: OrderId, rest: Option<Message>): map<OrderId, Message> {
    var o := if prior == 0 then s.resting else s.resting - {prior};
    if rest.Some? then o[rest.value.exchangeId := rest.value] else o
  }

  function ReplacedIndex(s: Engine, c: Message, prior: OrderId, rest: Option<Message>): map<Key, OrderId> {
    if rest.Some? then s.byClient[OwnerKey(c) := rest.value.exchangeId]
    else if prior == 0 then s.byClient
    else s.byClient - {OwnerKey(c)}
  }

  /** Cancelling the replaced order in a book that already holds the residual. */
  lemma CancelReserved(s: Engine, c: Message, prior: OrderId, rest: Option<Message>)
    requires Core(s) && prior in s.resting && c.instrumentId in s.books
    requires s.resting[prior].instrumentId == c.instrumentId && s.resting[prior].side == c.side && prior != 0
    requires rest.Some? ==> rest.value.side == c.side && rest.value.exchangeId !in s.resting
    ensures var b := s.books[c.instrumentId];
            CancelOrder(if rest.Some? then BookWithRest(b, rest.value) else b, prior)
              == (ReplacedBook(s, c, prior, rest), Ok)
  {
    hide CancelOrder, BookWithRest, Consistent, BooksOk, Indexed, Issued, HasAccounts, Balanced, AllSound;
    AllConsistent(s.instruments, s.capacity, s.books);
    LocateResting(s.books, s.resting, prior);
    CancelAgreement(s.books, s.resting, prior);
    var e := Entry(prior, s.resting[prior].price, s.resting[prior].quantity);
    assert Booked(s.books, prior, s.resting[prior]);
    assert e in s.books[c.instrumentId].Queue(c.side);
    if rest.Some? {
      CancelCommutes(s.books[c.instrumentId], rest.value, prior);
    }
  }

  /** Accepting and then resting, spelled out field by field. */
  lemma AcceptSpelled(s: Engine, b: Batch, c: Message, prior: OrderId, rest: Option<Message>)
    requires c.clientId in s.clients && c.instrumentId in s.books
    requires prior != 0 ==> Live(s, prior) && s.resting[prior].instrumentId == c.instrumentId
    requires rest.Some? ==> rest.value.instrumentId == c.instrumentId && OwnerKey(rest.value) == OwnerKey(c)
                            && rest.value.exchangeId != prior
    ensures var client := s.clients[c.clientId];
            var n := if prior == 0 then s.sequence else s.sequence + 1;
            Ahead(Accept(Step(s, b), c, prior), rest) == Step(
              s.(books := s.books[c.instrumentId := ReplacedBook(s, c, prior, rest)],
                 resting := ReplacedResting(s, prior, rest),
                 byClient := ReplacedIndex(s, c, prior, rest),
                 clients := s.clients[c.clientId := client.(maxOrderId := Max(client.maxOrderId, c.orderId))],
                 positions := OpenAccount(s.positions, (c.clientId, c.instrumentId)),
                 nextOrder := s.nextOrder + 1,
                 sequence := n,
                 responseSequence := s.responseSequence + 1),
              Batch(b.reports + [StampReport(Incoming(s, c), if prior == 0 then Accepted else Replaced, NoReject,
                                             s.epoch, s.responseSequence + 1)],
                    if prior == 0 then b.updates
                    else b.updates + [StampUpdate(s.resting[prior], CancelUpdate, s.epoch, n)]))
  {
    hide CancelOrder, BookWithRest, OpenAccount, StampReport, StampUpdate, Incoming;
    if prior == 0 {
      assert s.books[c.instrumentId := s.books[c.instrumentId]] == s.books;
    } else {
      assert rest.Some? ==>
          s.byClient[OwnerKey(c) := rest.value.exchangeId]
          == (s.byClient - {OwnerKey(c)})[OwnerKey(c) := rest.value.exchangeId];
    }
  }

  /** A number and, for a new order, a client key that nothing resting uses. */
  lemma FreshNumbers(s: Engine, c: Message, prior: OrderId)
    requires Submittable(s, c, prior) && RiskRefusal(s, c, prior) == NoReject
    ensures c.instrumentId in s.books
    ensures s.nextOrder !in s.resting && !s.books[c.instrumentId].Has(s.nextOrder)
    ensures prior == 0 ==> OwnerKey(c) !in s.byClient
    ensures c.orderType == Limit ==> c.price > 0
  {
    hide BooksOk, Agreement, HasAccounts, Balanced, AllSound, WorstPosition;
    BookKeys(s);
    UnknownToBooks(s.books, s.resting, c.instrumentId, s.nextOrder);
    assert ValidRules(s.instruments[c.instrumentId]);
    assert OwnerKey(c) in s.byClient ==> OwnerKey(s.resting[s.byClient[OwnerKey(c)]]) == OwnerKey(c);
  }

  /** Adding the residual to a book with room for it. */
  lemma AddResidual(b: Book, capacity: nat, m: Message)
    requires !b.Has(m.exchangeId) && m.quantity > 0 && m.price > 0
    ensures Add(b, capacity, m.exchangeId, m.side, m.price, m.quantity) ==
            if b.Count() >= capacity then (b, AllocationFailed) else (BookWithRest(b, m), Ok)
  {
  }

  /** The sweep finds the engine ready and the residual apart from everything it touches. */
  lemma SweepReady(st: Step, c: Message, prior: OrderId)
    requires Admissible(st.engine, c, prior)
    ensures prior != 0 ==> Live(st.engine, prior) && st.engine.resting[prior].instrumentId == c.instrumentId
                           && st.engine.resting[prior].side == c.side
    ensures var m := Incoming(st.engine, c);
            var st1 := Accept(st, c, prior);
            var rest := Residual(st.engine, c, Leaves(c, OppositeQueue(st.engine, c), c.quantity));
            && Ready(st1.engine, m) && Apart(st1.engine, m, rest)
            && Plan(c, OppositeQueue(st.engine, c), c.quantity) == Plan(m, OppositeQueue(st1.engine, m), m.quantity)
  {
    hide BooksOk, Agreement, Indexed, HasAccounts, Balanced, AllSound, RiskRefusal, Accept, Plan, Leaves;
    AdmissibleParts(st, c, prior);
    AcceptParts(st, c, prior);
    PlanSame(c, Incoming(st.engine, c), OppositeQueue(st.engine, c), c.quantity);
  }

  /** Order entry ends where the ahead-of-time engine ends once the residual is announced. */
  lemma EnterAhead(st: Step, c: Message, prior: OrderId)
    requires Admissible(st.engine, c, prior)
    ensures prior != 0 ==> Live(st.engine, prior)
    ensures var m := Incoming(st.engine, c);
            Ready(Accept(st, c, prior).engine, m)
    ensures var m := Incoming(st.engine, c);
            var left := Leaves(c, OppositeQueue(st.engine, c), c.quantity);
            var rest := Residual(st.engine, c, left);
            var st2 := MatchAll(Accept(st, c, prior), m, m.quantity);
            && (rest.Some? ==> rest.value.instrumentId in st2.engine.books)
            && Enter(st, c, prior) ==
               if rest.Some? then EmitUpdate(Ahead(st2, rest), rest.value, AddUpdate)
               else if left != 0 then EmitReport(st2, m.(quantity := left, remaining := 0), Cancelled, NoReject)
               else st2
  {
    hide BooksOk, Indexed, HasAccounts, Balanced, AllSound, RiskRefusal, Accept, Plan, Leaves, WithRest, Rest, EmitReport, EmitUpdate;
    AdmissibleParts(st, c, prior);
    AcceptParts(st, c, prior);
    var s := st.engine;
    var m := Incoming(s, c);
    var st1 := Accept(st, c, prior);
    var st2 := MatchAll(st1, m, c.quantity);
    var left := Leaves(c, OppositeQueue(s, c), c.quantity);
    MatchAllStops(st1, m, c.quantity);
    if Rests(c, left) {
      var rest := m.(quantity := left, remaining := left);
      UnknownToBooks(st2.engine.books, st2.engine.resting, c.instrumentId, rest.exchangeId);
      RestIsWithRest(st2, rest);
    }
  }
}
