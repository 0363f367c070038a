/**
 The matching engine as it is written: maps updated in place, a sweep that is
 planned before anything changes, the residual reserved in the book before the
 first fill, and the planned fills committed one by one. Every method is proved to
 do what the simple specification in `Exchange` says. Map look-ups and the
 internal requirements of the original are checked here, so none of them can fail.
 */
module MatchingEngines {
  import opened Types
  import opened Sums
  import opened BookModel
  import opened Positions
  import opened EngineModel
  import opened Exchange
  import opened Exposure
  import opened Refinement
  import opened ReplicaModel
  import MarketReplicas

  class MatchingEngine {
    const instruments: map<InstrumentId, Rules>
    const capacity: nat
    const epoch: nat
    var books: map<InstrumentId, Book>
    var resting: map<OrderId, Message>
    var byClient: map<Key, OrderId>
    var clients: map<ClientId, ClientState>
    var positions: Holdings
    var sequence: nat
    var responseSequence: nat
    var nextOrder: OrderId
    var nextTrade: nat
    var stats: Stats

    ghost function State(): Engine
      reads this
    {
      Engine(instruments, capacity, books, resting, byClient, clients, positions, epoch,
             sequence, responseSequence, nextOrder, nextTrade, stats)
    }

    ghost predicate Valid()
      reads this
    {
      Inv(State())
    }

    constructor (instruments: map<InstrumentId, Rules>, capacity: nat, epoch: nat)
      requires ConfigOk(instruments)
      ensures State() == Fresh(instruments, capacity, epoch)
      ensures Valid()
    {
      this.instruments := instruments;
      this.capacity := capacity;
      this.epoch := epoch;
      books := map i | i in instruments :: EMPTY;
      resting := map[];
      byClient := map[];
      clients := map[];
      positions := map[];
      sequence := 0;
      responseSequence := 0;
      nextOrder := 1;
      nextTrade := 1;
      stats := Stats(0, 0, 0, 0);
      new;
      FreshInv(instruments, capacity, epoch);
    }

    // ---- Emitting messages ------------------------------------------------

    method PushReport(b: Batch, m: Message, kind: ReportType, reason: Reject) returns (r: Batch)
      modifies `responseSequence
      ensures responseSequence == old(responseSequence) + 1
      ensures r == b.(reports := b.reports + [StampReport(m, kind, reason, epoch, responseSequence)])
    {
      responseSequence := responseSequence + 1;
      r := b.(reports := b.reports + [StampReport(m, kind, reason, epoch, responseSequence)]);
    }

    method PushUpdate(b: Batch, m: Message, kind: UpdateType) returns (r: Batch)
      modifies `sequence
      ensures sequence == old(sequence) + 1
      ensures r == b.(updates := b.updates + [StampUpdate(m, kind, epoch, sequence)])
    {
      sequence := sequence + 1;
      r := b.(updates := b.updates + [StampUpdate(m, kind, epoch, sequence)]);
    }

    method RejectCommand(b: Batch, c: Message, reason: Reject) returns (r: Batch)
      modifies `stats, `responseSequence
      ensures Step(State(), r) == Refuse(Step(old(State()), b), c, reason)
    {
      stats := stats.(rejected := stats.rejected + 1);
      r := PushReport(b, c, Rejected, reason);
    }

    // ---- Cancelling -------------------------------------------------------

    method Cancel(b: Batch, id: OrderId, request: nat) returns (r: Batch)
      requires Core(State()) && id in resting
      modifies this
      ensures Live(old(State()), id)
      ensures Step(State(), r) == CancelResting(Step(old(State()), b), id, request)
      ensures Core(State())
    {
      hide Core, CancelOrder, StampReport, StampUpdate;
      ghost var st := Step(State(), b);
      BookKeys(State());
      CancelCore(st, id, request);
      var m := resting[id].(requestId := request, remaining := 0);
      var (book, result) := CancelOrder(books[m.instrumentId], id);
      assert result == Ok by {
        CancelSucceeds(st.engine, id);
      }
      books := books[m.instrumentId := book];
      r := PushUpdate(b, m, CancelUpdate);
      r := PushReport(r, m, Cancelled, NoReject);
      byClient := byClient - {(m.clientId, m.orderId)};
      resting := resting - {id};
      assert Step(State(), r) == CancelResting(st, id, request);
    }

    // ---- Admission --------------------------------------------------------

    /** The pre-trade checks, in order, with the loop over all resting orders. */
    method CheckRisk(c: Message, prior: OrderId) returns (why: Reject)
      requires Submittable(State(), c, prior)
      ensures why == RiskRefusal(State(), c, prior)
    {
      hide BooksOk, Agreement, Indexed, Issued, HasAccounts, Balanced, AllSound, Reserved;
      if c.instrumentId !in instruments {
        return UnknownInstrument;
      }
      var r := instruments[c.instrumentId];
      assert ValidRules(r);
      if BadShape(c, prior) {
        return InvalidCommand;
      }
      if c.quantity == 0 || c.quantity % r.lotSize != 0 {
        return InvalidQuantity;
      }
      if BadLimitPrice(c, r) {
        return InvalidPrice;
      }
      if c.quantity > r.maxOrderQuantity {
        return RiskQuantity;
      }
      if (if c.orderType == Market then r.maxPrice else c.price) * c.quantity > r.maxNotional {
        return RiskNotional;
      }
      if prior == 0 && c.orderId <= clients[c.clientId].maxOrderId {
        return DuplicateOrder;
      }
      var reserved, open := Exposed(c, prior);
      if open >= r.maxOpenOrders {
        return RiskOpenOrders;
      }
      var worst := PositionOf(positions, c.clientId, c.instrumentId).quantity
        + (if c.side == Bid then 1 else -1) * (reserved + c.quantity);
      if Abs(worst) > r.maxPosition {
        return RiskPosition;
      }
      if prior != 0 && (resting[prior].instrumentId != c.instrumentId || resting[prior].side != c.side) {
        return InvalidCommand;
      }
      why := NoReject;
    }

    /** What the client has open: quantity reserved on the order's side, and number of orders. */
    method Exposed(c: Message, prior: OrderId) returns (reserved: int, open: nat)
      ensures reserved == Reserved(resting - {prior}, c.clientId, c.instrumentId, c.side)
      ensures open == |OpenOrders(resting - {prior}, c.clientId)|
    {
      hide Reserved, OpenOrders, Visited;
      reserved, open := 0, 0;
      var keys := SortedKeys(resting.Keys);
      NothingReserved(c.clientId, c.instrumentId, c.side);
      VisitedAll(resting, keys, prior);
      for n := 0 to |keys|
        invariant reserved == Reserved(Visited(resting, keys[..n], prior), c.clientId, c.instrumentId, c.side)
        invariant open == |OpenOrders(Visited(resting, keys[..n], prior), c.clientId)|
      {
        var id := keys[n];
        VisitedStep(resting, keys, n, prior);
        if id != prior {
          var m := resting[id];
          ghost var seen := Visited(resting, keys[..n], prior);
          ReservedInsert(seen, id, m, c.clientId, c.instrumentId, c.side);
          OpenOrdersInsert(seen, id, m, c.clientId);
          if m.clientId == c.clientId {
            open := open + 1;
            if m.instrumentId == c.instrumentId && m.side == c.side {
              reserved := reserved + m.quantity;
            }
          }
        }
      }
    }

    /** Walks the opposite side in price-time order, planning fills without touching anything. */
    method PlanSweep(c: Message) returns (planned: seq<PlannedFill>, leaves: Quantity, why: Reject)
      requires Core(State()) && c.instrumentId in books
      ensures why == SweepRefusal(c, resting, books[c.instrumentId].Queue(c.side.Opposite()), c.quantity)
      ensures why == NoReject ==>
                && planned == Plan(c, books[c.instrumentId].Queue(c.side.Opposite()), c.quantity)
                && leaves == Leaves(c, books[c.instrumentId].Queue(c.side.Opposite()), c.quantity)
    {
      hide BooksOk, Indexed, Issued, HasAccounts, Balanced, AllSound, Plan, Leaves, SweepRefusal;
      var queue := books[c.instrumentId].Queue(c.side.Opposite());
      planned, leaves, why := [], c.quantity, NoReject;
      var n := 0;
      assert queue[0..] == queue;
      while n < |queue|
        invariant 0 <= n <= |queue|
        invariant planned + Plan(c, queue[n..], leaves) == Plan(c, queue, c.quantity)
        invariant Leaves(c, queue[n..], leaves) == Leaves(c, queue, c.quantity)
        invariant SweepRefusal(c, resting, queue[n..], leaves) == SweepRefusal(c, resting, queue, c.quantity)
      {
        var order := queue[n];
        assert queue[n..][0] == order && queue[n..][1..] == queue[n + 1..];
        SweepUnfold(c, resting, queue[n..], leaves);
        if leaves == 0 || !Crosses(c, order.price) {
          return;
        }
        if c.postOnly {
          why := PostOnly;
          return;
        }
        assert order in books[c.instrumentId].Queue(c.side.Opposite());
        if resting[order.id].clientId == c.clientId {
          why := SelfTrade;
          return;
        }
        var size := Min(leaves, order.quantity);
        planned := planned + [PlannedFill(order.id, order.price, size)];
        leaves := leaves - size;
        n := n + 1;
        if leaves == 0 {
          break;
        }
      }
      SweepUnfold(c, resting, queue[n..], leaves);
    }

    // ---- Committing -------------------------------------------------------

    /** The maker's report and delta, then the taker's. */
    method Announce(b: Batch, execution: Message, taker: Message) returns (r: Batch)
      modifies `sequence, `responseSequence
      ensures sequence == old(sequence) + 2 && responseSequence == old(responseSequence) + 2
      ensures r == Batch(
        b.reports + [StampReport(execution, ReportType.Fill, NoReject, epoch, old(responseSequence) + 1)]
          + [StampReport(taker, ReportType.Fill, NoReject, epoch, old(responseSequence) + 2)],
        b.updates + [StampUpdate(execution, ExecuteUpdate, epoch, old(sequence) + 1)]
          + [StampUpdate(taker, TradeUpdate, epoch, old(sequence) + 2)])
    {
      hide StampReport, StampUpdate;
      r := PushReport(b, execution, ReportType.Fill, NoReject);
      r := PushUpdate(r, execution, ExecuteUpdate);
      r := PushReport(r, taker, ReportType.Fill, NoReject);
      r := PushUpdate(r, taker, TradeUpdate);
    }

    method SettleFill(maker: Message, incoming: Message, price: Price, size: Quantity)
      requires (maker.clientId, incoming.instrumentId) in positions
      requires (incoming.clientId, incoming.instrumentId) in positions
      modifies `positions
      ensures positions == Settle(old(positions), maker, incoming, price, size)
    {
      hide Positions.Fill;
      var i := incoming.instrumentId;
      positions := positions[(maker.clientId, i) :=
        Positions.Fill(positions[(maker.clientId, i)], maker.side, price, size)];
      positions := positions[(incoming.clientId, i) :=
        Positions.Fill(positions[(incoming.clientId, i)], incoming.side, price, size)];
    }

    /** Takes the fill off the maker's order in the book and in the owner records. */
    method FillMaker(i: InstrumentId, id: OrderId, size: Quantity) returns (maker: Message)
      requires i in books && id in resting && size <= resting[id].quantity
      requires ExecuteOrder(books[i], id, size).1 == Ok
      modifies `books, `resting, `byClient
      ensures maker == MakerAfter(old(State()), id, size)
      ensures books == old(books)[i := ExecuteOrder(old(books)[i], id, size).0]
      ensures resting == if maker.quantity == 0 then old(resting) - {id} else old(resting)[id := maker]
      ensures byClient == if maker.quantity == 0 then old(byClient) - {OwnerKey(maker)} else old(byClient)
    {
      hide ExecuteOrder;
      maker := resting[id];
      maker := maker.(quantity := maker.quantity - size);
      RemoveUpdated(resting, id, maker);
      resting := resting[id := maker];
      var (book, result) := ExecuteOrder(books[i], id, size);
      assert result == Ok;
      books := books[i := book];
      if maker.quantity == 0 {
        byClient := byClient - {(maker.clientId, maker.orderId)};
        resting := resting - {id};
      }
    }

    /** One planned fill: owner record, book, both reports, both deltas, both accounts. */
    method CommitFill(b: Batch, incoming: Message, fill: PlannedFill, leaves: Quantity) returns (r: Batch)
      requires Tradable(State(), incoming, fill.id, fill.size) && fill.size <= leaves
      requires ExecuteOrder(books[incoming.instrumentId], fill.id, fill.size).1 == Ok
      modifies this
      ensures Step(State(), r) == TradeWith(Step(old(State()), b), incoming, fill.id, fill.price, fill.size, leaves)
    {
      hide ExecuteOrder, Settle, StampReport, StampUpdate, TradeWith;
      TradeWithParts(Step(State(), b), incoming, fill.id, fill.price, fill.size, leaves);
      var maker := FillMaker(incoming.instrumentId, fill.id, fill.size);
      var execution := maker.(quantity := fill.size, remaining := maker.quantity, tradeId := nextTrade);
      var taker := incoming.(price := fill.price, quantity := fill.size, remaining := leaves - fill.size,
                             tradeId := nextTrade);
      nextTrade := nextTrade + 1;
      r := Announce(b, execution, taker);
      SettleFill(maker, incoming, fill.price, fill.size);
      stats := stats.(trades := stats.trades + 1, volume := stats.volume + fill.size);
    }

    /** Commits the whole plan; the book may be crossed by the reserved residual meanwhile. */
    method CommitFills(b: Batch, m: Message, planned: seq<PlannedFill>, ghost st: Step, ghost rest: Option<Message>)
        returns (r: Batch)
      requires Ready(st.engine, m) && Apart(st.engine, m, rest)
      requires Step(State(), b) == Ahead(st, rest)
      requires planned == Plan(m, OppositeQueue(st.engine, m), m.quantity)
      modifies this
      ensures rest.Some? ==> rest.value.instrumentId in MatchAll(st, m, m.quantity).engine.books
      ensures Step(State(), r) == Ahead(MatchAll(st, m, m.quantity), rest)
      ensures Apart(MatchAll(st, m, m.quantity).engine, m, rest)
    {
      hide Core, MatchOne, TradeWith, WithRest, Apart;
      RestPlaced(st.engine, m, rest);
      r := b;
      var leaves: Quantity := m.quantity;
      ghost var t := st;
      for n := 0 to |planned|
        invariant Ready(t.engine, m) && Apart(t.engine, m, rest)
        invariant rest.Some? ==> rest.value.instrumentId in t.engine.books
        invariant Step(State(), r) == Ahead(t, rest)
        invariant planned[n..] == Plan(m, OppositeQueue(t.engine, m), leaves)
        invariant MatchAll(t, m, leaves) == MatchAll(st, m, m.quantity)
      {
        assert planned[n..] != [] && planned[n..][1..] == planned[n + 1..] && planned[n] == planned[n..][0];
        assert CanMatch(t.engine, m, leaves);
        CommitStep(t, m, rest, leaves);
        FrontKnown(t.engine, m);
        ghost var t' := MatchOne(t, m, leaves);
        PlanStep(m, OppositeQueue(t.engine, m), OppositeQueue(t'.engine, m), leaves);
        RestPlaced(t'.engine, m, rest);
        r := CommitFill(r, m, planned[n], leaves);
        leaves := leaves - planned[n].size;
        t := t';
      }
      assert planned[|planned|..] == [];
      assert !CanMatch(t.engine, m, leaves);
      RestPlaced(t.engine, m, rest);
    }
  
    /** Takes the replaced order out of book, owners and index and announces its cancellation. */
    method DropReplaced(b: Batch, c: Message, prior: OrderId, rest: Option<Message>, ghost s: Engine)
        returns (r: Batch)
      requires Core(s) && prior != 0 && prior in s.resting && c.instrumentId in s.books
      requires s.resting[prior].instrumentId == c.instrumentId && s.resting[prior].side == c.side
      requires rest.Some? ==> rest.value.side == c.side && rest.value.exchangeId !in s.resting
      requires State() == Reserve(s, c, prior, rest)
      modifies `books, `resting, `byClient, `sequence
      ensures books == s.books[c.instrumentId := ReplacedBook(s, c, prior, rest)]
      ensures resting == ReplacedResting(s, prior, rest)
      ensures byClient == ReplacedIndex(s, c, prior, rest)
      ensures sequence == s.sequence + 1
      ensures r == b.(updates := b.updates + [StampUpdate(s.resting[prior], CancelUpdate, epoch, sequence)])
    {
      hide Core, CancelOrder, BookWithRest, OpenAccount, StampUpdate, ReplacedBook;
      var replaced := resting[prior];
      CancelReserved(s, c, prior, rest);
      var (book, result) := CancelOrder(books[c.instrumentId], prior);
      assert result == Ok;
      books := books[c.instrumentId := book];
      r := PushUpdate(b, replaced, CancelUpdate);
      resting := resting - {prior};
      if rest.Some? {
        byClient := byClient[(c.clientId, c.orderId) := rest.value.exchangeId];
      } else {
        byClient := byClient - {(c.clientId, c.orderId)};
      }
    }

    /** Numbers the order, takes the replaced one out, and acknowledges; the residual is already reserved. */
    method Acknowledge(b: Batch, c: Message, prior: OrderId, rest: Option<Message>, ghost s: Engine)
        returns (r: Batch)
      requires Submittable(s, c, prior) && c.instrumentId in s.books
      requires prior != 0 ==> s.resting[prior].instrumentId == c.instrumentId && s.resting[prior].side == c.side
      requires rest.Some? ==>
                 && rest.value.exchangeId == s.nextOrder && OwnerKey(rest.value) == OwnerKey(c)
                 && rest.value.instrumentId == c.instrumentId && rest.value.side == c.side
      requires State() == Reserve(s, c, prior, rest)
      modifies this
      ensures prior != 0 ==> Live(s, prior)
      ensures Step(State(), r) == Ahead(Accept(Step(s, b), c, prior), rest)
    {
      hide Core, OpenAccount, BookWithRest, CancelOrder, Accept, StampReport, StampUpdate;
      hide ReplacedBook, ReplacedResting, ReplacedIndex;
      BookKeys(s);
      NumberUnused(s);
      AcceptSpelled(s, b, c, prior, rest);
      var incoming := c.(exchangeId := nextOrder, remaining := c.quantity);
      r := b;
      if prior != 0 {
        r := DropReplaced(r, c, prior, rest, s);
      } else {
        NothingReplaced(s, c, rest);
      }
      nextOrder := nextOrder + 1;
      var client := clients[c.clientId];
      clients := clients[c.clientId := client.(maxOrderId := Max(client.maxOrderId, c.orderId))];
      r := PushReport(r, incoming, if prior == 0 then Accepted else Replaced, NoReject);
    }

    /** Registers the residual and adds it to its book; takes the registration back when the pool is exhausted. */
    method PlaceRest(m: Message, prior: OrderId) returns (ok: bool)
      requires m.instrumentId in books && !books[m.instrumentId].Has(m.exchangeId) && m.quantity > 0 && m.price > 0
      requires m.exchangeId !in resting && (prior == 0 ==> OwnerKey(m) !in byClient)
      modifies `books, `resting, `byClient
      ensures ok <==> old(books)[m.instrumentId].Count() < capacity
      ensures ok ==> books == old(books)[m.instrumentId := BookWithRest(old(books)[m.instrumentId], m)]
      ensures ok ==> resting == old(resting)[m.exchangeId := m]
      ensures ok ==> byClient == if prior == 0 then old(byClient)[OwnerKey(m) := m.exchangeId] else old(byClient)
      ensures !ok ==> books == old(books) && resting == old(resting) && byClient == old(byClient)
    {
      hide Add, BookWithRest;
      AddResidual(books[m.instrumentId], capacity, m);
      UndoInsert(resting, m.exchangeId, m);
      resting := resting[m.exchangeId := m];
      if prior == 0 {
        UndoInsert(byClient, OwnerKey(m), m.exchangeId);
        byClient := byClient[OwnerKey(m) := m.exchangeId];
      }
      var (book, result) := Add(books[m.instrumentId], capacity, m.exchangeId, m.side, m.price, m.quantity);
      if result != Ok {
        resting := resting - {m.exchangeId};
        if prior == 0 {
          byClient := byClient - {OwnerKey(m)};
        }
        return false;
      }
      books := books[m.instrumentId := book];
      return true;
    }

    /** Opens the account and reserves the residual's node; undoes everything when the pool is exhausted. */
    method ReserveRest(c: Message, prior: OrderId, left: Quantity) returns (rest: Option<Message>, ok: bool)
      requires Submittable(State(), c, prior) && RiskRefusal(State(), c, prior) == NoReject
      modifies `books, `resting, `byClient, `positions
      ensures c.instrumentId in old(books)
      ensures ok <==> !(Rests(c, left) && old(books)[c.instrumentId].Count() >= capacity)
      ensures ok ==> rest == Residual(old(State()), c, left) && State() == Reserve(old(State()), c, prior, rest)
      ensures !ok ==> State() == old(State()).(positions := OpenAccount(old(positions), (c.clientId, c.instrumentId)))
    {
      hide Core, RiskRefusal, OpenAccount, Add, BookWithRest;
      ghost var s := State();
      FreshNumbers(s, c, prior);
      positions := OpenAccount(positions, (c.clientId, c.instrumentId));
      rest, ok := None, true;
      if Rests(c, left) {
        var m := c.(exchangeId := nextOrder, quantity := left, remaining := left);
        ok := PlaceRest(m, prior);
        if ok {
          rest := Some(m);
        }
      }
    }

    /** Accepts the order, commits its plan and disposes of the residual. */
    method EnterOrder(b: Batch, c: Message, prior: OrderId, planned: seq<PlannedFill>, left: Quantity,
                      rest: Option<Message>, ghost s: Engine)
        returns (r: Batch)
      requires Admissible(s, c, prior)
      requires planned == Plan(c, OppositeQueue(s, c), c.quantity)
      requires left == Leaves(c, OppositeQueue(s, c), c.quantity)
      requires rest == Residual(s, c, left) && State() == Reserve(s, c, prior, rest)
      modifies this
      ensures Step(State(), r) == Enter(Step(s, b), c, prior)
    {
      hide Core, RiskRefusal, BookRefusal, Accept, Reserve, MatchAll, Enter, Ahead, StampReport, StampUpdate, Apart, Plan, Leaves;
      ghost var st := Step(s, b);
      SweepReady(st, c, prior);
      EnterAhead(st, c, prior);
      ReserveCounters(s, c, prior, rest);
      var incoming := c.(exchangeId := nextOrder, remaining := c.quantity);
      r := Acknowledge(b, c, prior, rest, s);
      r := CommitFills(r, incoming, planned, Accept(st, c, prior), rest);
      if rest.Some? {
        r := PushUpdate(r, rest.value, AddUpdate);
      } else {
        AheadNone(MatchAll(Accept(st, c, prior), incoming, incoming.quantity));
        if left != 0 {
          r := PushReport(r, incoming.(quantity := left, remaining := 0), Cancelled, NoReject);
        }
      }
    }

    /** A replacement in place. */
    method AmendInPlace(b: Batch, c: Message, prior: OrderId) returns (r: Batch)
      requires Submittable(State(), c, prior) && KeepsPriority(State(), c, prior) && c.quantity > 0
      modifies this
      ensures Live(old(State()), prior)
      ensures Step(State(), r) == Amend(Step(old(State()), b), c, prior)
    {
      hide Core, ExecuteOrder, StampReport, StampUpdate;
      ghost var s := State();
      BookKeys(s);
      var owned := resting[prior];
      var reduction := owned.quantity - c.quantity;
      var m := c.(exchangeId := prior, remaining := c.quantity);
      r := b;
      if reduction != 0 {
        ExecuteSucceeds(s, prior, reduction);
        var (book, result) := ExecuteOrder(books[owned.instrumentId], prior, reduction);
        assert result == Ok;
        books := books[owned.instrumentId := book];
        r := PushUpdate(r, m, ReduceUpdate);
      }
      resting := resting[prior := owned.(quantity := c.quantity)];
      r := PushReport(r, m, Replaced, NoReject);
    }

    /** Order entry, in the order of the original: check, plan, reserve, commit. */
    method Submit(b: Batch, c: Message, prior: OrderId) returns (r: Batch)
      requires Submittable(State(), c, prior)
      modifies this
      ensures Step(State(), r) == Exchange.Submit(Step(old(State()), b), c, prior)
    {
      hide Core, WorstPosition, Enter, Amend, Refuse, Reserve;
      hide RiskRefusal, SweepRefusal, Leaves, Plan, OpenAccount;
      ghost var s := State();
      BookKeys(s);
      var why := CheckRisk(c, prior);
      if why != NoReject {
        r := RejectCommand(b, c, why);
        return;
      }
      RiskPassed(s, c, prior);
      if prior != 0 && resting[prior].price == c.price && c.quantity <= resting[prior].quantity {
        r := AmendInPlace(b, c, prior);
        return;
      }
      var planned, left;
      planned, left, why := PlanSweep(c);
      if why != NoReject {
        r := RejectCommand(b, c, why);
        return;
      }
      if c.tif == FOK && left != 0 {
        r := RejectCommand(b, c, Fok);
        return;
      }
      var rest, ok := ReserveRest(c, prior, left);
      if !ok {
        r := RejectCommand(b, c, Capacity);
        return;
      }
      r := EnterOrder(b, c, prior, planned, left, rest, s);
    }
  
    // ---- Snapshots --------------------------------------------------------

    /** Every order of every book between two commands, under one epoch and sequence mark. */
    method Snapshot() returns (rows: seq<Message>)
      ensures rows == EngineSnapshot(State())
    {
      var body := MarketReplicas.ListAll(SortedKeys(books.Keys), books, epoch, sequence);
      rows := [Mark(SnapshotBegin, epoch, sequence, |resting|)] + body
        + [Mark(SnapshotEnd, epoch, sequence, |resting|)];
    }

    // ---- Commands ---------------------------------------------------------

    /** The client's orders in the order the resting map lists them. */
    method Collect(client: ClientId, i: InstrumentId) returns (ids: seq<OrderId>)
      ensures ids == OrdersOf(State(), client, i)
      ensures Increasing(ids)
      ensures forall id | id in ids :: id in resting
    {
      hide Chosen, SortedKeys, OrdersOf;
      ids := [];
      var keys := SortedKeys(resting.Keys);
      ChosenEnds(State(), keys, client, i);
      for n := 0 to |keys|
        invariant ids == SortedKeys(Chosen(resting, keys[..n], client, i))
      {
        assert keys[n] in keys;
        ChosenStep(resting, keys, n, client, i);
        if resting[keys[n]].clientId == client && (i == 0 || resting[keys[n]].instrumentId == i) {
          ids := ids + [keys[n]];
        }
      }
    }

    method CancelEach(b: Batch, ids: seq<OrderId>, request: nat) returns (r: Batch)
      requires Core(State()) && Increasing(ids) && forall id | id in ids :: id in resting
      modifies this
      ensures Core(State())
      ensures Step(State(), r) == CancelAllOf(Step(old(State()), b), ids, request)
    {
      hide Core, CancelResting;
      r := b;
      assert ids[0..] == ids;
      for n := 0 to |ids|
        invariant Core(State())
        invariant forall k | n <= k < |ids| :: ids[k] in resting
        invariant CancelAllOf(Step(State(), r), ids[n..], request) == CancelAllOf(Step(old(State()), b), ids, request)
      {
        assert ids[n..][0] == ids[n] && ids[n..][1..] == ids[n + 1..];
        BookKeys(State());
        CancelTakes(Step(State(), r), ids[n], request);
        r := Cancel(r, ids[n], request);
      }
    }

    /** The terminal report, with what is left of the order the command named. */
    method CompleteCommand(b: Batch, c: Message) returns (r: Batch)
      requires Core(State())
      modifies `responseSequence
      ensures Step(State(), r) == EmitReport(Step(old(State()), b), Completion(old(State()), c), Complete, NoReject)
    {
      hide BooksOk, Agreement, Issued, HasAccounts, Balanced, AllSound, StampReport;
      var complete := c;
      if (c.clientId, c.orderId) in byClient {
        var id := byClient[(c.clientId, c.orderId)];
        complete := c.(remaining := resting[id].quantity, exchangeId := id);
      }
      r := PushReport(b, complete, Complete, NoReject);
    }

    /** Keeps the command and its private reports for a retry. */
    method Cache(b: Batch, c: Message)
      requires c.clientId in clients
      modifies `clients
      ensures Step(State(), b) == Remember(Step(old(State()), b), c)
    {
      var cached := [];
      assert b.reports[0..] == b.reports;
      for n := 0 to |b.reports|
        invariant cached + Private(b.reports[n..], c.clientId) == Private(b.reports, c.clientId)
      {
        assert b.reports[n..][0] == b.reports[n] && b.reports[n..][1..] == b.reports[n + 1..];
        if b.reports[n].clientId == c.clientId {
          cached := cached + [b.reports[n]];
        }
      }
      assert b.reports[|b.reports|..] == [];
      assert cached == Private(b.reports, c.clientId);
      clients := clients[c.clientId := ClientState(c.requestId, clients[c.clientId].maxOrderId, c, cached)];
    }

    /** The business part of a well-sequenced command. */
    method Dispatch(b: Batch, c: Message) returns (r: Batch)
      requires Core(State()) && c.clientId != 0 && c.clientId in clients
      requires c.action != Action.Snapshot && c.action != Action.Status
      modifies this
      ensures Step(State(), r) == Business(Step(old(State()), b), c)
    {
      hide BooksOk, Agreement, Issued, HasAccounts, Balanced, AllSound, Exchange.Submit, CancelResting, CancelAllOf, OrdersOf, Refuse;
      ghost var s := State();
      BookKeys(s);
      if c.action == New {
        r := Submit(b, c, 0);
      } else if c.action == Action.Cancel || c.action == Replace {
        if (c.clientId, c.orderId) !in byClient
           || resting[byClient[(c.clientId, c.orderId)]].instrumentId != c.instrumentId {
          r := RejectCommand(b, c, UnknownOrder);
        } else if c.action == Action.Cancel {
          r := Cancel(b, byClient[(c.clientId, c.orderId)], c.requestId);
        } else {
          r := Submit(b, c, byClient[(c.clientId, c.orderId)]);
        }
      } else {
        var ids := Collect(c.clientId, c.instrumentId);
        r := CancelEach(b, ids, c.requestId);
      }
    }

    /** A well-sequenced command of a client whose session record exists. */
    method PerformCommand(c: Message, ghost s: Engine) returns (b: Batch)
      requires Core(s) && Effective(s, c)
      requires State() == WithClient(s, c.clientId)
      modifies this
      ensures Step(State(), b) == Perform(s, c)
    {
      hide Core, Business, Completion, EmitReport, Remember;
      BeginCore(s, c);
      BusinessCore(Begin(s, c), c);
      ghost var done := Business(Begin(s, c), c);
      stats := stats.(commands := stats.commands + 1);
      b := Dispatch(NO_MESSAGES, c);
      b := CompleteCommand(b, c);
      EmitEngine(done, Completion(done.engine, c), Complete, NoReject);
      Cache(b, c);
    }

    /** Processes one command of any client, valid or not. */
    method Process(c: Message) returns (b: Batch)
      requires Valid()
      modifies this
      ensures Valid()
      ensures Step(State(), b) == Exchange.Process(old(State()), c)
    {
      hide Core, Bounded, Perform, Answer;
      ProcessKeepsInv(State(), c);
      b := Route(c);
    }

    /** The checks every command passes through, in order. */
    method Route(c: Message) returns (b: Batch)
      requires Core(State())
      modifies this
      ensures Step(State(), b) == Exchange.Process(old(State()), c)
    {
      hide Core, Perform, StampReport;
      ghost var s := State();
      b := NO_MESSAGES;
      if c.kind != Command || c.action == Action.Snapshot {
        b := RejectCommand(b, c, InvalidCommand);
        return;
      }
      if c.action == Action.Status {
        var last := if c.clientId in clients then clients[c.clientId].lastRequest else 0;
        b := PushReport(b, c.(requestId := last), StatusReport, NoReject);
        return;
      }
      if c.clientId == 0 || c.requestId == 0 {
        b := RejectCommand(b, c, InvalidCommand);
        b := PushReport(b, c, Complete, NoReject);
        return;
      }
      b := Sequenced(c);
    }

    /** Retry, sequence error or the next command of an identified client. */
    method Sequenced(c: Message) returns (b: Batch)
      requires Core(State())
      requires c.kind == Command && c.action != Action.Snapshot && c.action != Action.Status
      requires c.clientId != 0 && c.requestId != 0
      modifies this
      ensures Step(State(), b) == Exchange.Process(old(State()), c)
    {
      hide Core, Perform, StampReport;
      ghost var s := State();
      if c.clientId !in clients {
        clients := clients[c.clientId := NEW_CLIENT];
      }
      var state := clients[c.clientId];
      if c.requestId == state.lastRequest && c == state.lastCommand {
        b := Batch(state.cached, []);
        return;
      }
      if c.requestId <= state.lastRequest || c.requestId - state.lastRequest != 1 {
        b := RejectCommand(NO_MESSAGES, c, SequenceReject);
        b := PushReport(b, c, Complete, NoReject);
        return;
      }
      b := PerformCommand(c, s);
    }
  }

  /** The client's orders among the keys seen so far. */
  ghost function Chosen(resting: map<OrderId, Message>, keys: seq<OrderId>, client: ClientId, i: InstrumentId): set<OrderId> {
    set id | id in resting && id in keys && resting[id].clientId == client && (i == 0 || resting[id].instrumentId == i)
  }

  lemma ChosenEnds(s: Engine, keys: seq<OrderId>, client: ClientId, i: InstrumentId)
    requires forall k :: k in keys <==> k in s.resting
    ensures Chosen(s.resting, keys[..0], client, i) == {}
    ensures SortedKeys(Chosen(s.resting, keys[..|keys|], client, i)) == OrdersOf(s, client, i)
    ensures Increasing(OrdersOf(s, client, i))
    ensures forall id | id in OrdersOf(s, client, i) :: id in s.resting
    ensures SortedKeys({}) == []
  {
    EmptyKeys();
    hide SortedKeys;
    assert keys[..|keys|] == keys;
    assert Chosen(s.resting, keys, client, i) == ClientOrders(s.resting, client, i);
  }

  lemma ChosenStep(resting: map<OrderId, Message>, keys: seq<OrderId>, n: nat, client: ClientId, i: InstrumentId)
    requires Increasing(keys) && n < |keys| && keys[n] in resting
    ensures SortedKeys(Chosen(resting, keys[..n + 1], client, i)) ==
            SortedKeys(Chosen(resting, keys[..n], client, i)) +
            if resting[keys[n]].clientId == client && (i == 0 || resting[keys[n]].instrumentId == i)
            then [keys[n]] else []
  {
    hide SortedKeys;
    PrefixStep(keys, n);
    var s := Chosen(resting, keys[..n], client, i);
    var s' := Chosen(resting, keys[..n + 1], client, i);
    if resting[keys[n]].clientId == client && (i == 0 || resting[keys[n]].instrumentId == i) {
      assert s' == s + {keys[n]};
      forall k | k in s ensures k < keys[n] {
        var j :| 0 <= j < n && keys[j] == k;
      }
      SortedAppend(s, keys[n]);
    } else {
      assert s' == s;
    }
  }

  lemma EmptyKeys()
    ensures SortedKeys({}) == []
  {
  }

  lemma SortedAppend(s: set<nat>, k: nat)
    requires forall x | x in s :: x < k
    ensures SortedKeys(s + {k}) == SortedKeys(s) + [k]
  {
    hide SortedKeys;
    var keys := SortedKeys(s);
    var r := keys + [k];
    forall i, j | 0 <= i < j < |r| ensures r[i] < r[j] {
      assert j == |keys| ==> keys[i] in keys;
    }
    SortedUnique(SortedKeys(s + {k}), r);
  }

  lemma NumberUnused(s: Engine)
    requires Core(s)
    ensures s.nextOrder !in s.resting && s.nextOrder != 0
  {
    hide BooksOk, Agreement, Indexed, HasAccounts, Balanced, AllSound;
  }

  lemma RiskPassed(s: Engine, c: Message, prior: OrderId)
    requires Core(s) && RiskRefusal(s, c, prior) == NoReject
    ensures c.quantity > 0 && c.instrumentId in s.books
  {
    hide Agreement, Indexed, Issued, HasAccounts, Balanced, AllSound, WorstPosition;
  }

  /** A new order replaces nothing: the reservation is all there is. */
  lemma NothingReplaced(s: Engine, c: Message, rest: Option<Message>)
    requires c.instrumentId in s.books
    ensures var t := Reserve(s, c, 0, rest);
      && t.books == s.books[c.instrumentId := ReplacedBook(s, c, 0, rest)]
      && t.resting == ReplacedResting(s, 0, rest) && t.byClient == ReplacedIndex(s, c, 0, rest)
  {
    hide BookWithRest, OpenAccount;
    assert s.books[c.instrumentId := s.books[c.instrumentId]] == s.books;
  }

  lemma CancelTakes(st: Step, id: OrderId, request: nat)
    requires Live(st.engine, id)
    ensures CancelResting(st, id, request).engine.resting == st.engine.resting - {id}
  {
  }

  lemma ReserveCounters(s: Engine, c: Message, prior: OrderId, rest: Option<Message>)
    requires c.instrumentId in s.books
    ensures Reserve(s, c, prior, rest).nextOrder == s.nextOrder
  {
  }

  lemma AheadNone(st: Step)
    ensures Ahead(st, None) == st
  {
  }

  lemma UndoInsert<K, V>(m: map<K, V>, k: K, v: V)
    requires k !in m
    ensures m[k := v] - {k} == m
  {
  }

  lemma RemoveUpdated(m: map<OrderId, Message>, id: OrderId, v: Message)
    ensures m[id := v] - {id} == m - {id}
  {
  }

  /** The orders a loop over the keys has seen, leaving out the one being replaced. */
  ghost function Visited(resting: map<OrderId, Message>, keys: seq<OrderId>, prior: OrderId): map<OrderId, Message> {
    map id | id in resting && id in keys && id != prior :: resting[id]
  }

  lemma VisitedStep(resting: map<OrderId, Message>, keys: seq<OrderId>, n: nat, prior: OrderId)
    requires Increasing(keys) && n < |keys| && keys[n] in resting
    ensures keys[n] !in Visited(resting, keys[..n], prior)
    ensures Visited(resting, keys[..n + 1], prior) ==
            if keys[n] == prior then Visited(resting, keys[..n], prior)
            else Visited(resting, keys[..n], prior)[keys[n] := resting[keys[n]]]
  {
    PrefixStep(keys, n);
  }

  lemma VisitedAll(resting: map<OrderId, Message>, keys: seq<OrderId>, prior: OrderId)
    requires forall k :: k in keys <==> k in resting
    ensures Visited(resting, keys[..0], prior) == map[]
    ensures Visited(resting, keys[..|keys|], prior) == resting - {prior}
  {
    assert keys[..|keys|] == keys;
  }

  /** One look at the front of what is left of the queue. */
  lemma SweepUnfold(c: Message, resting: map<OrderId, Message>, queue: seq<Entry>, leaves: Quantity)
    ensures leaves == 0 || queue == [] || !Crosses(c, queue[0].price) ==>
              && Plan(c, queue, leaves) == [] && Leaves(c, queue, leaves) == leaves
              && SweepRefusal(c, resting, queue, leaves) == NoReject
    ensures leaves != 0 && queue != [] && Crosses(c, queue[0].price) ==>
              var size := Min(leaves, queue[0].quantity);
              && Plan(c, queue, leaves) ==
                 [PlannedFill(queue[0].id, queue[0].price, size)] + Plan(c, queue[1..], leaves - size)
              && Leaves(c, queue, leaves) == Leaves(c, queue[1..], leaves - size)
              && SweepRefusal(c, resting, queue, leaves) ==
                 (if c.postOnly then PostOnly
                  else if queue[0].id in resting && resting[queue[0].id].clientId == c.clientId then SelfTrade
                  else SweepRefusal(c, resting, queue[1..], leaves - size))
  {
  }

  lemma NothingReserved(client: ClientId, i: InstrumentId, side: Side)
    ensures Reserved(map[], client, i, side) == 0
    ensures |OpenOrders(map[], client)| == 0
  {
    assert Open(map[], client, i, side) == map[];
    assert OpenOrders(map[], client) == {};
  }

  lemma OpenOrdersInsert(resting: map<OrderId, Message>, id: OrderId, m: Message, client: ClientId)
    requires id !in resting
    ensures |OpenOrders(resting[id := m], client)|
            == |OpenOrders(resting, client)| + if m.clientId == client then 1 else 0
  {
    if m.clientId == client {
      assert OpenOrders(resting[id := m], client) == OpenOrders(resting, client) + {id};
    } else {
      assert OpenOrders(resting[id := m], client) == OpenOrders(resting, client);
    }
  }

  lemma RestPlaced(s: Engine, m: Message, rest: Option<Message>)
    requires Ready(s, m) && Apart(s, m, rest)
    ensures rest.Some? ==> rest.value.instrumentId in s.books
  {
  }
}
