/**
 Matching, order entry and the command processor, built from the steps of
 `EngineModel`, together with what each of them keeps.
 */
module Exchange {
  import opened Types
  import opened BookModel
  import opened Positions
  import opened EngineModel
  import opened AgreementLemmas

  // ---- One trade ----------------------------------------------------------

  ghost predicate Ready(s: Engine, c: Message) {
    Core(s) && c.instrumentId in s.books && (c.clientId, c.instrumentId) in s.positions
  }

  function OppositeQueue(s: Engine, c: Message): seq<Entry>
    requires c.instrumentId in s.books
  {
    s.books[c.instrumentId].Queue(c.side.Opposite())
  }

  predicate CanMatch(s: Engine, c: Message, leaves: Quantity)
    requires c.instrumentId in s.books
  {
    leaves != 0 && OppositeQueue(s, c) != [] && Crosses(c, OppositeQueue(s, c)[0].price)
  }

  lemma FrontKnown(s: Engine, c: Message)
    requires Ready(s, c) && OppositeQueue(s, c) != []
    ensures Matchable(s, c)
    ensures var m := s.resting[Front(s, c).id];
            m.instrumentId == c.instrumentId && m.side == c.side.Opposite()
            && m.price == Front(s, c).price && m.quantity == Front(s, c).quantity && m.quantity > 0
  {
    var e := OppositeQueue(s, c)[0];
    assert e in s.books[c.instrumentId].Queue(c.side.Opposite());
    assert Consistent(s.books[c.instrumentId]);
  }

  lemma MatchOneBooks(s: Engine, c: Message, size: Quantity)
    requires BooksOk(s.instruments, s.capacity, s.books) && c.instrumentId in s.books
    requires OppositeQueue(s, c) != [] && 0 < size <= OppositeQueue(s, c)[0].quantity
    ensures var q := OppositeQueue(s, c);
            var b := ExecuteOrder(s.books[c.instrumentId], q[0].id, size).0;
            && BooksOk(s.instruments, s.capacity, s.books[c.instrumentId := b])
            && b.Queue(c.side) == s.books[c.instrumentId].Queue(c.side)
            && b.Queue(c.side.Opposite()) ==
               (if size == q[0].quantity then q[1..] else [q[0].(quantity := q[0].quantity - size)] + q[1..])
            && b.Count() <= s.books[c.instrumentId].Count()
  {
    hide ExecuteOrder, Consistent, Uncrossed, BooksOk;
    AllConsistent(s.instruments, s.capacity, s.books);
    var b := s.books[c.instrumentId];
    var q := OppositeQueue(s, c);
    ExecuteFront(b, c.side.Opposite(), size);
    ExecuteBookOk(b, s.capacity, q[0].id, size);
    BooksOkUpdate(s.instruments, s.capacity, s.books, c.instrumentId, ExecuteOrder(b, q[0].id, size).0);
  }

  lemma SettleBalances(h: Holdings, maker: Message, c: Message, price: Price, size: Quantity)
    requires (maker.clientId, c.instrumentId) in h && (c.clientId, c.instrumentId) in h
    requires Balanced(h) && AllSound(h) && size > 0 && c.side == maker.side.Opposite()
    ensures Balanced(Settle(h, maker, c, price, size)) && AllSound(Settle(h, maker, c, price, size))
    ensures Settle(h, maker, c, price, size).Keys == h.Keys
  {
    hide Positions.Fill, Sound, Balanced;
    TradeBalances(h, maker.clientId, c.clientId, c.instrumentId, maker.side, price, size);
    TradeSound(h, maker.clientId, c.clientId, c.instrumentId, maker.side, price, size);
    assert Settle(h, maker, c, price, size)
        == TradeLegs(h, maker.clientId, c.clientId, c.instrumentId, maker.side, price, size);
  }

  /** The parts of the engine that one trade changes. */
  lemma MatchOneParts(st: Step, c: Message, leaves: Quantity)
    requires Ready(st.engine, c) && OppositeQueue(st.engine, c) != [] && leaves > 0
    ensures Matchable(st.engine, c)
    ensures var s := st.engine;
            var s' := MatchOne(st, c, leaves).engine;
            var front := Front(s, c);
            var size := Min(leaves, front.quantity);
            && 0 < size <= front.quantity
            && s'.instruments == s.instruments && s'.capacity == s.capacity && s'.clients == s.clients
            && s'.nextOrder == s.nextOrder && s'.epoch == s.epoch
            && s'.books == s.books[c.instrumentId := ExecuteOrder(s.books[c.instrumentId], front.id, size).0]
            && s'.resting == AfterExecute(s.resting, front.id, size)
            && s'.byClient == (if size == front.quantity then s.byClient - {OwnerKey(s.resting[front.id])} else s.byClient)
            && s'.positions == Settle(s.positions, s.resting[front.id], c, front.price, size)
  {
    hide Core, Positions.Fill, ExecuteOrder, Crosses;
    FrontKnown(st.engine, c);
  }

  lemma MatchOneCore(st: Step, c: Message, leaves: Quantity)
    requires Ready(st.engine, c) && OppositeQueue(st.engine, c) != [] && leaves > 0
    ensures Matchable(st.engine, c)
    ensures Ready(MatchOne(st, c, leaves).engine, c)
  {
    hide MatchOne, Settle, BooksOk, Agreement, Indexed, Issued, HasAccounts, Balanced, AllSound, Consistent, ExecuteOrder;
    MatchOneParts(st, c, leaves);
    FrontKnown(st.engine, c);
    var s := st.engine;
    var front := Front(s, c);
    var size := Min(leaves, front.quantity);
    MatchOneBooks(s, c, size);
    AllConsistent(s.instruments, s.capacity, s.books);
    ExecuteAgreement(s.books, s.resting, front.id, size);
    SettleBalances(s.positions, s.resting[front.id], c, front.price, size);
    IndexedExecute(s.resting, s.byClient, front.id, size);
    var resting' := AfterExecute(s.resting, front.id, size);
    ThinnedKeeps(s.resting, resting', s.clients, s.nextOrder, s.positions);
    MoreAccounts(resting', s.positions, Settle(s.positions, s.resting[front.id], c, front.price, size));
  }

  lemma MoreAccounts(resting: map<OrderId, Message>, h: Holdings, h': Holdings)
    requires HasAccounts(resting, h) && h.Keys <= h'.Keys
    ensures HasAccounts(resting, h')
  {
  }

  // ---- The whole sweep ----------------------------------------------------

  /** Trade with the best-priced, oldest crossing order until none crosses or nothing is left. */
  ghost function MatchAll(st: Step, c: Message, leaves: Quantity): (r: Step)
    requires Ready(st.engine, c)
    ensures Ready(r.engine, c)
    decreases leaves
  {
    if !CanMatch(st.engine, c, leaves) then st else
    FrontKnown(st.engine, c);
    MatchOneCore(st, c, leaves);
    MatchAll(MatchOne(st, c, leaves), c, leaves - Min(leaves, Front(st.engine, c).quantity))
  }

  /** What a sweep cannot touch. */
  ghost predicate SweepFrame(s: Engine, s': Engine, c: Message) {
    && s'.instruments == s.instruments && s'.capacity == s.capacity && s'.clients == s.clients
    && s'.nextOrder == s.nextOrder && s'.epoch == s.epoch
    && s'.resting.Keys <= s.resting.Keys
    && s'.byClient.Keys <= s.byClient.Keys
    && s'.books.Keys == s.books.Keys
    && c.instrumentId in s.books
    && s'.books[c.instrumentId].Queue(c.side) == s.books[c.instrumentId].Queue(c.side)
    && s'.books[c.instrumentId].Count() <= s.books[c.instrumentId].Count()
  }

  /** One trade keeps that frame and shortens or removes the front of the opposite queue. */
  lemma MatchOneFrame(st: Step, c: Message, leaves: Quantity)
    requires Ready(st.engine, c) && OppositeQueue(st.engine, c) != [] && leaves > 0
    ensures Matchable(st.engine, c)
    ensures var s' := MatchOne(st, c, leaves).engine;
            var q := OppositeQueue(st.engine, c);
            var size := Min(leaves, q[0].quantity);
            && SweepFrame(st.engine, s', c)
            && 0 < size
            && OppositeQueue(s', c) ==
               (if size == q[0].quantity then q[1..] else [q[0].(quantity := q[0].quantity - size)] + q[1..])
  {
    hide BooksOk, Agreement, Indexed, Issued, HasAccounts, Balanced, AllSound, MatchOne, Settle, ExecuteOrder;
    MatchOneParts(st, c, leaves);
    MatchOneBooks(st.engine, c, Min(leaves, OppositeQueue(st.engine, c)[0].quantity));
  }

  /** The sweep leaves exactly what `Leaves` says, and stops only at a price that does not cross. */
  lemma {:induction false} MatchAllStops(st: Step, c: Message, leaves: Quantity)
    requires Ready(st.engine, c)
    ensures var s' := MatchAll(st, c, leaves).engine;
            var left := Leaves(c, OppositeQueue(st.engine, c), leaves);
            && SweepFrame(st.engine, s', c)
            && (left != 0 ==> OppositeQueue(s', c) == [] || !Crosses(c, OppositeQueue(s', c)[0].price))
    decreases leaves
  {
    hide MatchOne, Core;
    if CanMatch(st.engine, c, leaves) {
      FrontKnown(st.engine, c);
      MatchOneCore(st, c, leaves);
      MatchOneFrame(st, c, leaves);
      var q := OppositeQueue(st.engine, c);
      var size := Min(leaves, q[0].quantity);
      MatchAllStops(MatchOne(st, c, leaves), c, leaves - size);
    }
  }

  // ---- Internal requirements hold -----------------------------------------

  lemma CancelSucceeds(s: Engine, id: OrderId)
    requires Core(s) && id in s.resting
    ensures Live(s, id) && CancelOrder(s.books[s.resting[id].instrumentId], id).1 == Ok
  {
    AllConsistent(s.instruments, s.capacity, s.books);
    CancelAgreement(s.books, s.resting, id);
  }

  lemma ExecuteSucceeds(s: Engine, id: OrderId, size: Quantity)
    requires Core(s) && id in s.resting && 0 < size <= s.resting[id].quantity
    ensures Live(s, id) && ExecuteOrder(s.books[s.resting[id].instrumentId], id, size).1 == Ok
  {
    AllConsistent(s.instruments, s.capacity, s.books);
    ExecuteAgreement(s.books, s.resting, id, size);
  }

  // ---- Order entry --------------------------------------------------------

  /** What the command processor establishes before an order is entered. */
  ghost predicate Submittable(s: Engine, c: Message, prior: OrderId) {
    && Core(s)
    && c.clientId != 0 && c.clientId in s.clients
    && (prior != 0 ==> prior in s.resting && OwnerKey(s.resting[prior]) == OwnerKey(c))
  }

  /** The order as it enters the market, under its new exchange ID. */
  function Incoming(s: Engine, c: Message): Message {
    c.(exchangeId := s.nextOrder, remaining := c.quantity)
  }

  /** Accepts the order: opens the account, takes the replaced order out, acknowledges. */
  function Accept(st: Step, c: Message, prior: OrderId): Step
    requires c.clientId in st.engine.clients
    requires prior != 0 ==> Live(st.engine, prior)
  {
    var s := st.engine;
    var client := s.clients[c.clientId];
    var s1 := s.(
      positions := OpenAccount(s.positions, (c.clientId, c.instrumentId)),
      nextOrder := s.nextOrder + 1,
      clients := s.clients[c.clientId := client.(maxOrderId := Max(client.maxOrderId, c.orderId))]);
    if prior == 0 then EmitReport(st.(engine := s1), Incoming(s, c), Accepted, NoReject) else
    var m := s.resting[prior];
    var s2 := s1.(
      books := s.books[m.instrumentId := BookModel.CancelOrder(s.books[m.instrumentId], prior).0],
      resting := s.resting - {prior},
      byClient := s.byClient - {OwnerKey(c)});
    EmitReport(EmitUpdate(st.(engine := s2), m, CancelUpdate), Incoming(s, c), Replaced, NoReject)
  }

  /** Puts what is left of the order into the book and announces it. */
  function Rest(st: Step, m: Message): Step
    requires m.instrumentId in st.engine.books
  {
    var s := st.engine;
    var b := BookModel.Add(s.books[m.instrumentId], s.capacity, m.exchangeId, m.side, m.price, m.quantity).0;
    EmitUpdate(st.(engine := s.(
      books := s.books[m.instrumentId := b],
      resting := s.resting[m.exchangeId := m],
      byClient := s.byClient[OwnerKey(m) := m.exchangeId])), m, AddUpdate)
  }

  /** The residual after the sweep: it rests, expires, or there is none. */
  function Finish(st: Step, incoming: Message, left: Quantity): Step
    requires incoming.instrumentId in st.engine.books
  {
    if Rests(incoming, left) then Rest(st, incoming.(quantity := left, remaining := left))
    else if left != 0 then EmitReport(st, incoming.(quantity := left, remaining := 0), Cancelled, NoReject)
    else st
  }

  /** A replacement in place: the order shrinks and keeps its priority. */
  function Amend(st: Step, c: Message, prior: OrderId): Step
    requires KeepsPriority(st.engine, c, prior) && Live(st.engine, prior)
  {
    var s := st.engine;
    var m := c.(exchangeId := prior, remaining := c.quantity);
    var owned := s.resting[prior];
    var s1 := s.(resting := s.resting[prior := owned.(quantity := c.quantity)]);
    if c.quantity == owned.quantity then EmitReport(st.(engine := s1), m, Replaced, NoReject) else
    var b := BookModel.ExecuteOrder(s.books[owned.instrumentId], prior, owned.quantity - c.quantity).0;
    EmitReport(EmitUpdate(st.(engine := s1.(books := s.books[owned.instrumentId := b])), m, ReduceUpdate), m, Replaced, NoReject)
  }

  lemma AcceptParts(st: Step, c: Message, prior: OrderId)
    requires Submittable(st.engine, c, prior) && c.instrumentId in st.engine.instruments
    requires prior != 0 ==> st.engine.resting[prior].instrumentId == c.instrumentId && st.engine.resting[prior].side == c.side
    ensures prior != 0 ==> Live(st.engine, prior)
    ensures var s := st.engine;
            var s' := Accept(st, c, prior).engine;
            && Ready(s', c)
            && s'.instruments == s.instruments && s'.capacity == s.capacity
            && s'.nextOrder == s.nextOrder + 1
            && c.clientId in s'.clients && c.orderId <= s'.clients[c.clientId].maxOrderId
            && OppositeQueue(s', c) == OppositeQueue(s, c)
            && s'.books[c.instrumentId].Count() <= s.books[c.instrumentId].Count()
            && s'.resting == s.resting - {prior}
            && (forall k, i :: PositionOf(s'.positions, k, i) == PositionOf(s.positions, k, i))
            && (prior != 0 ==> OwnerKey(c) !in s'.byClient)
            && (prior == 0 ==> s'.byClient == s.byClient)
  {
    hide BooksOk, Agreement, Indexed, Balanced, AllSound, Consistent, Uncrossed, CancelOrder;
    var s := st.engine;
    OpenAccountBalances(s.positions, (c.clientId, c.instrumentId));
    AllConsistent(s.instruments, s.capacity, s.books);
    BookKeys(s);
    if prior == 0 {
      assert s.resting - {prior} == s.resting;
    } else {
      var b := s.books[c.instrumentId];
      CancelSide(s.books, s.resting, prior);
      CancelAgreement(s.books, s.resting, prior);
      CancelBookOk(b, s.capacity, prior);
      BooksOkUpdate(s.instruments, s.capacity, s.books, c.instrumentId, CancelOrder(b, prior).0);
      IndexedRemove(s.resting, s.byClient, prior);
    }
  }

  lemma BookKeys(s: Engine)
    requires Core(s)
    ensures s.books.Keys == s.instruments.Keys
    ensures forall id | id in s.resting :: Live(s, id)
  {
    forall id | id in s.resting ensures Live(s, id) {
      assert Booked(s.books, id, s.resting[id]);
    }
  }

  /** Cancelling touches only the order's own side. */
  lemma CancelSide(books: map<InstrumentId, Book>, resting: map<OrderId, Message>, id: OrderId)
    requires Agreement(books, resting) && id in resting
    requires forall i | i in books :: Consistent(books[i])
    ensures var m := resting[id];
            && m.instrumentId in books
            && CancelOrder(books[m.instrumentId], id).0.Queue(m.side.Opposite())
               == books[m.instrumentId].Queue(m.side.Opposite())
  {
    LocateResting(books, resting, id);
  }

  lemma RestCore(st: Step, m: Message)
    requires Ready(st.engine, m) && m.quantity > 0 && m.price > 0 && m.orderType == Limit
    requires st.engine.books[m.instrumentId].Count() < st.engine.capacity
    requires OppositeQueue(st.engine, m) == [] || !Crosses(m, OppositeQueue(st.engine, m)[0].price)
    requires OwnerKey(m) !in st.engine.byClient
    requires m.exchangeId !in st.engine.resting && 0 < m.exchangeId < st.engine.nextOrder
    requires m.clientId != 0 && m.clientId in st.engine.clients
    requires 0 < m.orderId <= st.engine.clients[m.clientId].maxOrderId
    ensures Core(Rest(st, m).engine)
  {
    hide BooksOk, Agreement, Indexed, Balanced, AllSound, Consistent, Uncrossed, Add;
    var s := st.engine;
    var b := s.books[m.instrumentId];
    AllConsistent(s.instruments, s.capacity, s.books);
    AddAgreement(s.books, s.resting, s.capacity, m.exchangeId, m);
    AddBookOk(b, s.capacity, m.exchangeId, m.side, m.price, m.quantity);
    BooksOkUpdate(s.instruments, s.capacity, s.books, m.instrumentId,
                  Add(b, s.capacity, m.exchangeId, m.side, m.price, m.quantity).0);
    IndexedInsert(s.resting, s.byClient, m.exchangeId, m);
  }

  lemma AmendCore(st: Step, c: Message, prior: OrderId)
    requires Submittable(st.engine, c, prior) && KeepsPriority(st.engine, c, prior) && c.quantity > 0
    ensures Live(st.engine, prior)
    ensures Core(Amend(st, c, prior).engine)
  {
    hide BooksOk, Agreement, Indexed, Issued, HasAccounts, Balanced, AllSound, Consistent, Uncrossed, ExecuteOrder;
    BookKeys(st.engine);
    var s := st.engine;
    var owned := s.resting[prior];
    if c.quantity == owned.quantity {
      assert owned.(quantity := c.quantity) == owned;
      assert s.resting[prior := owned] == s.resting;
    } else {
      var b := s.books[owned.instrumentId];
      var cut := owned.quantity - c.quantity;
      AllConsistent(s.instruments, s.capacity, s.books);
      ExecuteAgreement(s.books, s.resting, prior, cut);
      ExecuteBookOk(b, s.capacity, prior, cut);
      BooksOkUpdate(s.instruments, s.capacity, s.books, owned.instrumentId, ExecuteOrder(b, prior, cut).0);
      IndexedExecute(s.resting, s.byClient, prior, cut);
      ThinnedKeeps(s.resting, AfterExecute(s.resting, prior, cut), s.clients, s.nextOrder, s.positions);
    }
  }

  /** The same order under another number sweeps the same way. */
  lemma {:induction false} LeavesSame(c: Message, m: Message, queue: seq<Entry>, quantity: Quantity)
    requires m.orderType == c.orderType && m.side == c.side && m.price == c.price
    ensures Leaves(m, queue, quantity) == Leaves(c, queue, quantity)
    decreases |queue|
  {
    if queue != [] {
      LeavesSame(c, m, queue[1..], quantity - Min(quantity, queue[0].quantity));
    }
  }

  /** The order passes every check and will change the market. */
  ghost predicate Admissible(s: Engine, c: Message, prior: OrderId) {
    && Submittable(s, c, prior)
    && RiskRefusal(s, c, prior) == NoReject
    && !KeepsPriority(s, c, prior)
    && c.instrumentId in s.books
    && BookRefusal(s, c) == NoReject
  }

  lemma AdmissibleParts(st: Step, c: Message, prior: OrderId)
    requires Admissible(st.engine, c, prior)
    ensures c.instrumentId in st.engine.instruments
    ensures prior != 0 ==> Live(st.engine, prior) && st.engine.resting[prior].instrumentId == c.instrumentId
                           && st.engine.resting[prior].side == c.side
    ensures Ready(Accept(st, c, prior).engine, Incoming(st.engine, c))
    ensures c.quantity > 0 && c.orderId > 0
    ensures c.orderType == Limit ==> c.price > 0
    ensures OwnerKey(c) !in Accept(st, c, prior).engine.byClient
  {
    hide BooksOk, Agreement, HasAccounts, Balanced, AllSound, Accept, WorstPosition;
    AcceptParts(st, c, prior);
    var s := st.engine;
    assert ValidRules(s.instruments[c.instrumentId]);
    assert OwnerKey(c) in s.byClient ==> OwnerKey(s.resting[s.byClient[OwnerKey(c)]]) == OwnerKey(c);
  }

  /** An admissible order: accept it, let it trade, and dispose of the residual. */
  ghost function Enter(st: Step, c: Message, prior: OrderId): Step
    requires Admissible(st.engine, c, prior)
  {
    AdmissibleParts(st, c, prior);
    var m := Incoming(st.engine, c);
    var swept := MatchAll(Accept(st, c, prior), m, c.quantity);
    Finish(swept, m, Leaves(c, OppositeQueue(st.engine, c), c.quantity))
  }

  lemma EnterCore(st: Step, c: Message, prior: OrderId)
    requires Admissible(st.engine, c, prior)
    ensures Core(Enter(st, c, prior).engine)
  {
    hide BooksOk, Agreement, Indexed, HasAccounts, Balanced, AllSound, RiskRefusal, Accept;
    AdmissibleParts(st, c, prior);
    AcceptParts(st, c, prior);
    var s := st.engine;
    var m := Incoming(s, c);
    var st1 := Accept(st, c, prior);
    var left := Leaves(c, OppositeQueue(s, c), c.quantity);
    LeavesSame(c, m, OppositeQueue(s, c), c.quantity);
    MatchAllStops(st1, m, c.quantity);
    var st2 := MatchAll(st1, m, c.quantity);
    if Rests(m, left) {
      var r := m.(quantity := left, remaining := left);
      RestCore(st2, r);
    }
  }

  /** The account is opened before the pool is found to be exhausted. */
  function Opened(st: Step, c: Message): Step {
    st.(engine := st.engine.(positions := OpenAccount(st.engine.positions, (c.clientId, c.instrumentId))))
  }

  /** Order entry: refuse, amend in place, or trade and rest. */
  ghost function Submit(st: Step, c: Message, prior: OrderId): Step
    requires Submittable(st.engine, c, prior)
  {
    BookKeys(st.engine);
    var s := st.engine;
    var risk := RiskRefusal(s, c, prior);
    if risk != NoReject then Refuse(st, c, risk)
    else if KeepsPriority(s, c, prior) then Amend(st, c, prior)
    else var why := BookRefusal(s, c);
    if why == Capacity then Refuse(Opened(st, c), c, Capacity)
    else if why != NoReject then Refuse(st, c, why)
    else Enter(st, c, prior)
  }

  /** The four ways order entry can go. */
  lemma SubmitCases(st: Step, c: Message, prior: OrderId)
    requires Submittable(st.engine, c, prior)
    ensures var r := Submit(st, c, prior);
            || (RiskRefusal(st.engine, c, prior) != NoReject && r == Refuse(st, c, RiskRefusal(st.engine, c, prior)))
            || (c.instrumentId in st.engine.books && BookRefusal(st.engine, c) != NoReject
                && r == Refuse(st, c, BookRefusal(st.engine, c)))
            || r == Refuse(Opened(st, c), c, Capacity)
            || (KeepsPriority(st.engine, c, prior) && Live(st.engine, prior) && c.quantity > 0
                && st.engine.resting[prior].instrumentId == c.instrumentId
                && st.engine.resting[prior].side == c.side
                && r == Amend(st, c, prior))
            || (Admissible(st.engine, c, prior) && r == Enter(st, c, prior))
  {
    hide BooksOk, Agreement, Indexed, Issued, HasAccounts, Balanced, AllSound, WorstPosition, Enter, Amend, Refuse, Opened;
    BookKeys(st.engine);
  }

  lemma SubmitCore(st: Step, c: Message, prior: OrderId)
    requires Submittable(st.engine, c, prior)
    ensures Core(Submit(st, c, prior).engine)
  {
    hide BooksOk, Agreement, Indexed, Issued, Balanced, AllSound, RiskRefusal, BookRefusal, Enter, Amend, Submit;
    SubmitCases(st, c, prior);
    if Admissible(st.engine, c, prior) {
      EnterCore(st, c, prior);
    }
    if KeepsPriority(st.engine, c, prior) && c.quantity > 0 {
      AmendCore(st, c, prior);
    }
    OpenAccountBalances(st.engine.positions, (c.clientId, c.instrumentId));
  }

  // ---- Cancelling ---------------------------------------------------------

  lemma CancelCore(st: Step, id: OrderId, request: nat)
    requires Core(st.engine) && id in st.engine.resting
    ensures Live(st.engine, id)
    ensures Core(CancelResting(st, id, request).engine)
  {
    hide BooksOk, Agreement, Indexed, Issued, HasAccounts, Balanced, AllSound, CancelOrder, Consistent;
    BookKeys(st.engine);
    var s := st.engine;
    var i := s.resting[id].instrumentId;
    AllConsistent(s.instruments, s.capacity, s.books);
    CancelAgreement(s.books, s.resting, id);
    CancelBookOk(s.books[i], s.capacity, id);
    BooksOkUpdate(s.instruments, s.capacity, s.books, i, CancelOrder(s.books[i], id).0);
    IndexedRemove(s.resting, s.byClient, id);
    ThinnedKeeps(s.resting, s.resting - {id}, s.clients, s.nextOrder, s.positions);
  }

  lemma {:induction false} CancelAllCore(st: Step, ids: seq<OrderId>, request: nat)
    requires Core(st.engine)
    ensures Core(CancelAllOf(st, ids, request).engine)
    decreases |ids|
  {
    hide Core, CancelResting;
    if ids != [] {
      if Live(st.engine, ids[0]) {
        CancelCore(st, ids[0], request);
        CancelAllCore(CancelResting(st, ids[0], request), ids[1..], request);
      } else {
        CancelAllCore(st, ids[1..], request);
      }
    }
  }

  // ---- Commands -----------------------------------------------------------

  function WithClient(s: Engine, client: ClientId): Engine {
    if client in s.clients then s else s.(clients := s.clients[client := NEW_CLIENT])
  }

  /** The business part of a well-sequenced command. */
  ghost function Business(st: Step, c: Message): Step
    requires Core(st.engine) && c.clientId != 0 && c.clientId in st.engine.clients
  {
    BookKeys(st.engine);
    var s := st.engine;
    match c.action
    case New => Submit(st, c, 0)
    case CancelAll => CancelAllOf(st, OrdersOf(s, c.clientId, c.instrumentId), c.requestId)
    case Cancel =>
      if !Addressed(s, c) then Refuse(st, c, UnknownOrder)
      else CancelResting(st, s.byClient[OwnerKey(c)], c.requestId)
    case Replace =>
      if !Addressed(s, c) then Refuse(st, c, UnknownOrder)
      else Submit(st, c, s.byClient[OwnerKey(c)])
    case Snapshot => Refuse(st, c, InvalidCommand)
    case Status => Refuse(st, c, InvalidCommand)
  }

  /** The command names an open order of its client on its instrument. */
  predicate Addressed(s: Engine, c: Message) {
    && OwnerKey(c) in s.byClient && s.byClient[OwnerKey(c)] in s.resting
    && s.resting[s.byClient[OwnerKey(c)]].instrumentId == c.instrumentId
  }

  /** The terminal report states what is left of the order the command named. */
  function Completion(s: Engine, c: Message): Message {
    if OwnerKey(c) in s.byClient && s.byClient[OwnerKey(c)] in s.resting then
      c.(remaining := s.resting[s.byClient[OwnerKey(c)]].quantity, exchangeId := s.byClient[OwnerKey(c)])
    else c
  }

  /** The reports addressed to one client, in order. */
  function Private(reports: seq<Message>, client: ClientId): (r: seq<Message>)
    ensures forall m :: m in r <==> m in reports && m.clientId == client
  {
    if reports == [] then []
    else if reports[0].clientId == client then [reports[0]] + Private(reports[1..], client)
    else Private(reports[1..], client)
  }

  /** Records the request as the client's last one, with its private reports for a retry. */
  function Remember(st: Step, c: Message): Step
    requires c.clientId in st.engine.clients
  {
    var s := st.engine;
    var client := ClientState(c.requestId, s.clients[c.clientId].maxOrderId, c, Private(st.batch.reports, c.clientId));
    st.(engine := s.(clients := s.clients[c.clientId := client]))
  }

  /** The command repeats the client's last one field by field. */
  predicate IsRetry(s: Engine, c: Message) {
    c.clientId in s.clients && c.requestId == s.clients[c.clientId].lastRequest
      && c == s.clients[c.clientId].lastCommand
  }

  function LastRequest(s: Engine, client: ClientId): nat {
    if client in s.clients then s.clients[client].lastRequest else 0
  }

  /** The command is the next one of its client and takes effect. */
  predicate Effective(s: Engine, c: Message) {
    && c.kind == Command && c.action != Snapshot && c.action != Status
    && c.clientId != 0 && c.requestId != 0
    && c.requestId == LastRequest(s, c.clientId) + 1
  }

  const NO_MESSAGES := Batch([], [])

  /** The engine as the business part of a command finds it. */
  function Begin(s: Engine, c: Message): Step {
    var s1 := WithClient(s, c.clientId);
    Step(s1.(stats := s1.stats.(commands := s1.stats.commands + 1)), NO_MESSAGES)
  }

  lemma BeginCore(s: Engine, c: Message)
    requires Core(s)
    ensures Core(Begin(s, c).engine) && c.clientId in Begin(s, c).engine.clients
  {
  }

  /** A well-sequenced command: do it, complete it, remember it. */
  ghost function Perform(s: Engine, c: Message): Step
    requires Core(s) && Effective(s, c)
  {
    BeginCore(s, c);
    BusinessCore(Begin(s, c), c);
    var done := Business(Begin(s, c), c);
    Remember(EmitReport(done, Completion(done.engine, c), Complete, NoReject), c)
  }

  /** A command that takes no effect: malformed, a query, a retry or out of sequence. */
  function Answer(s: Engine, c: Message): Step {
    var st := Step(s, NO_MESSAGES);
    if c.kind != Command || c.action == Snapshot then Refuse(st, c, InvalidCommand)
    else if c.action == Status then EmitReport(st, c.(requestId := LastRequest(s, c.clientId)), StatusReport, NoReject)
    else if c.clientId == 0 || c.requestId == 0 then
      EmitReport(Refuse(st, c, InvalidCommand), c, Complete, NoReject)
    else if IsRetry(s, c) then Step(s, Batch(s.clients[c.clientId].cached, []))
    else EmitReport(Refuse(Step(WithClient(s, c.clientId), NO_MESSAGES), c, SequenceReject), c, Complete, NoReject)
  }

  /** One command, however malformed or ill-sequenced. */
  ghost function Process(s: Engine, c: Message): Step
    requires Core(s)
  {
    if Effective(s, c) then Perform(s, c) else Answer(s, c)
  }

  /** The same market: everything but counters of reports and refusals, and empty session records. */
  ghost predicate SameMarket(s: Engine, s': Engine) {
    && s' == s.(clients := s'.clients, responseSequence := s'.responseSequence, stats := s'.stats)
    && s.clients.Keys <= s'.clients.Keys
    && forall k | k in s'.clients :: s'.clients[k] == if k in s.clients then s.clients[k] else NEW_CLIENT
  }

  /** A command without effect leaves the market as it was and publishes nothing. */
  lemma AnswerKeeps(s: Engine, c: Message)
    ensures SameMarket(s, Answer(s, c).engine)
    ensures Answer(s, c).batch.updates == []
  {
    hide IsRetry, LastRequest, EmitReport, Refuse, SameMarket, WithClient;
    var r := Answer(s, c).engine;
    CountersOnly(s, r.responseSequence, r.stats);
    CountersOnly(s, s.responseSequence, s.stats);
    SessionOpened(s, c.clientId, r.responseSequence, r.stats);
    var st := Step(s, NO_MESSAGES);
    var st1 := Step(WithClient(s, c.clientId), NO_MESSAGES);
    RefuseEngine(st, c, InvalidCommand);
    RefuseEngine(st1, c, SequenceReject);
    EmitEngine(st, c.(requestId := LastRequest(s, c.clientId)), StatusReport, NoReject);
    EmitEngine(Refuse(st, c, InvalidCommand), c, Complete, NoReject);
    EmitEngine(Refuse(st1, c, SequenceReject), c, Complete, NoReject);
  }

  lemma CountersOnly(s: Engine, n: nat, stats: Stats)
    ensures SameMarket(s, s.(responseSequence := n, stats := stats))
  {
  }

  lemma SessionOpened(s: Engine, client: ClientId, n: nat, stats: Stats)
    ensures SameMarket(s, WithClient(s, client).(responseSequence := n, stats := stats))
  {
  }

  /** A report only advances the report counter. */
  lemma EmitEngine(st: Step, m: Message, kind: ReportType, reason: Reject)
    ensures EmitReport(st, m, kind, reason).engine == st.engine.(responseSequence := st.engine.responseSequence + 1)
    ensures EmitReport(st, m, kind, reason).batch.updates == st.batch.updates
  {
  }

  lemma RefuseEngine(st: Step, c: Message, reason: Reject)
    ensures Refuse(st, c, reason).engine == st.engine.(
              responseSequence := st.engine.responseSequence + 1,
              stats := st.engine.stats.(rejected := st.engine.stats.rejected + 1))
    ensures Refuse(st, c, reason).batch.updates == st.batch.updates
  {
  }

  lemma SameMarketCore(s: Engine, s': Engine)
    requires Core(s) && SameMarket(s, s')
    ensures Core(s')
  {
    hide ConfigOk, BooksOk, Agreement, Indexed, HasAccounts, Balanced, AllSound;
  }

  /** Configuration and session records, which business logic leaves alone but for the highest order ID. */
  ghost predicate SameSessions(s: Engine, s': Engine, client: ClientId) {
    && s'.instruments == s.instruments && s'.capacity == s.capacity && s'.epoch == s.epoch
    && s'.clients.Keys == s.clients.Keys
    && forall k | k in s.clients ::
         if k == client then s'.clients[k] == s.clients[k].(maxOrderId := s'.clients[k].maxOrderId)
         else s'.clients[k] == s.clients[k]
  }

  lemma AcceptSessions(st: Step, c: Message, prior: OrderId)
    requires c.clientId in st.engine.clients
    requires prior != 0 ==> Live(st.engine, prior)
    ensures SameSessions(st.engine, Accept(st, c, prior).engine, c.clientId)
  {
    hide CancelOrder, OpenAccount;
  }

  lemma EnterSessions(st: Step, c: Message, prior: OrderId)
    requires Admissible(st.engine, c, prior)
    ensures SameSessions(st.engine, Enter(st, c, prior).engine, c.clientId)
  {
    hide Core, RiskRefusal, BookRefusal, Accept, Crosses, Finish, MatchAll, Leaves;
    AdmissibleParts(st, c, prior);
    AcceptSessions(st, c, prior);
    var m := Incoming(st.engine, c);
    var st1 := Accept(st, c, prior);
    MatchAllStops(st1, m, c.quantity);
    FinishSessions(MatchAll(st1, m, c.quantity), m, Leaves(c, OppositeQueue(st.engine, c), c.quantity));
  }

  lemma FinishSessions(st: Step, m: Message, left: Quantity)
    requires m.instrumentId in st.engine.books
    ensures var s' := Finish(st, m, left).engine;
            && s'.instruments == st.engine.instruments && s'.capacity == st.engine.capacity
            && s'.epoch == st.engine.epoch && s'.clients == st.engine.clients
            && s'.nextOrder == st.engine.nextOrder && s'.positions == st.engine.positions
  {
    hide Add;
  }

  lemma SubmitSessions(st: Step, c: Message, prior: OrderId)
    requires Submittable(st.engine, c, prior)
    ensures SameSessions(st.engine, Submit(st, c, prior).engine, c.clientId)
  {
    hide Core, RiskRefusal, BookRefusal, ExecuteOrder, Enter, Submit;
    SubmitCases(st, c, prior);
    if Admissible(st.engine, c, prior) {
      EnterSessions(st, c, prior);
    }
  }

  lemma {:induction false} CancelAllSessions(st: Step, ids: seq<OrderId>, request: nat, client: ClientId)
    ensures SameSessions(st.engine, CancelAllOf(st, ids, request).engine, client)
    decreases |ids|
  {
    if ids != [] {
      var st1 := if Live(st.engine, ids[0]) then CancelResting(st, ids[0], request) else st;
      CancelAllSessions(st1, ids[1..], request, client);
    }
  }

  lemma BusinessCore(st: Step, c: Message)
    requires Core(st.engine) && c.clientId != 0 && c.clientId in st.engine.clients
    ensures Core(Business(st, c).engine)
    ensures SameSessions(st.engine, Business(st, c).engine, c.clientId)
  {
    hide BooksOk, Agreement, Issued, HasAccounts, Balanced, AllSound, Submit, CancelResting, CancelAllOf, OrdersOf;
    var s := st.engine;
    BookKeys(s);
    match c.action
    case New =>
      SubmitCore(st, c, 0);
      SubmitSessions(st, c, 0);
    case CancelAll =>
      CancelAllCore(st, OrdersOf(s, c.clientId, c.instrumentId), c.requestId);
      CancelAllSessions(st, OrdersOf(s, c.clientId, c.instrumentId), c.requestId, c.clientId);
    case Cancel =>
      if Addressed(s, c) {
        CancelCore(st, s.byClient[OwnerKey(c)], c.requestId);
        CancelSessions(st, s.byClient[OwnerKey(c)], c.requestId, c.clientId);
      }
    case Replace =>
      if Addressed(s, c) {
        SubmitCore(st, c, s.byClient[OwnerKey(c)]);
        SubmitSessions(st, c, s.byClient[OwnerKey(c)]);
      }
    case Snapshot =>
    case Status =>
  }

  lemma CancelSessions(st: Step, id: OrderId, request: nat, client: ClientId)
    requires Live(st.engine, id)
    ensures SameSessions(st.engine, CancelResting(st, id, request).engine, client)
  {
  }

  lemma RememberCore(st: Step, c: Message)
    requires Core(st.engine) && c.clientId in st.engine.clients
    ensures Core(Remember(st, c).engine)
  {
    hide BooksOk, Agreement, Indexed, HasAccounts, Balanced, AllSound, Private;
  }

  lemma EmitCore(st: Step, m: Message, kind: ReportType, reason: Reject)
    requires Core(st.engine)
    ensures Core(EmitReport(st, m, kind, reason).engine)
  {
    hide ConfigOk, BooksOk, Agreement, Indexed, Issued, HasAccounts, Balanced, AllSound;
  }

  lemma PerformCore(s: Engine, c: Message)
    requires Core(s) && Effective(s, c)
    ensures Core(Perform(s, c).engine)
  {
    hide Core, Begin, Business, Remember, EmitReport, Completion;
    BeginCore(s, c);
    BusinessCore(Begin(s, c), c);
    var done := Business(Begin(s, c), c);
    EmitCore(done, Completion(done.engine, c), Complete, NoReject);
    EmitEngine(done, Completion(done.engine, c), Complete, NoReject);
    RememberCore(EmitReport(done, Completion(done.engine, c), Complete, NoReject), c);
  }

  /** The core invariant survives every command. */
  lemma ProcessCore(s: Engine, c: Message)
    requires Core(s)
    ensures Core(Process(s, c).engine)
  {
    hide Core, Perform, Answer, SameMarket;
    if Effective(s, c) {
      PerformCore(s, c);
    } else {
      AnswerKeeps(s, c);
      SameMarketCore(s, Answer(s, c).engine);
    }
  }
}
