/**
 What the exchange demands of an order, told of the order, the rules and the resting
 orders: an order is entered exactly when it is well formed, within every limit and
 acceptable to the book, and every refusal names a demand that is not met.
 */
module Limits {
  import opened Types
  import opened Sums
  import opened BookModel
  import opened Positions
  import opened EngineModel
  import opened Exchange
  import opened Outcome

  // ---- The demands --------------------------------------------------------

  /** The parts of the order go together. */
  predicate WellFormed(c: Message) {
    && c.orderId > 0
    && (c.orderType == Market ==> c.price == 0 && c.tif in {IOC, FOK} && !c.postOnly)
    && (c.postOnly ==> c.tif == GTC)
    && (c.action == Replace ==> c.orderType == Limit && c.tif == GTC)
  }

  predicate LotSized(c: Message, r: Rules)
    requires r.lotSize > 0
  {
    c.quantity > 0 && c.quantity % r.lotSize == 0
  }

  predicate OnTick(c: Message, r: Rules)
    requires r.tickSize > 0
  {
    c.orderType == Limit ==> r.minPrice <= c.price <= r.maxPrice && c.price % r.tickSize == 0
  }

  /** At the highest price there is, for an order that names none. */
  predicate WithinNotional(c: Message, r: Rules) {
    (if c.orderType == Market then r.maxPrice else c.price) * c.quantity <= r.maxNotional
  }

  /** The order that the command replaces, or none. */
  function Prior(s: Engine, c: Message): OrderId {
    if c.action == Replace && OwnerKey(c) in s.byClient then s.byClient[OwnerKey(c)] else 0
  }

  /** The client's other open orders. */
  function OtherOrders(s: Engine, c: Message): set<OrderId> {
    set id | id in s.resting && s.resting[id].clientId == c.clientId && id != Prior(s, c)
  }

  /** Those on the same side of the same instrument. */
  function Alongside(s: Engine, c: Message): map<OrderId, int> {
    map id | id in OtherOrders(s, c) && s.resting[id].instrumentId == c.instrumentId && s.resting[id].side == c.side
      :: s.resting[id].quantity
  }

  /** The client's position if all of those and the order itself were filled. */
  ghost function WorstCase(s: Engine, c: Message): int {
    var k := (c.clientId, c.instrumentId);
    var position := if k in s.positions then s.positions[k].quantity else 0;
    var more := Total(Alongside(s, c)) + c.quantity;
    if c.side == Bid then position + more else position - more
  }

  /** A client's new orders come under growing numbers. */
  predicate NewNumber(s: Engine, c: Message) {
    c.action == New && c.clientId in s.clients ==> c.orderId > s.clients[c.clientId].maxOrderId
  }

  /** A replacement stays on its instrument and side. */
  predicate SameMarketSide(s: Engine, c: Message) {
    c.action == Replace && Prior(s, c) in s.resting ==>
      s.resting[Prior(s, c)].instrumentId == c.instrumentId && s.resting[Prior(s, c)].side == c.side
  }

  /** Everything that can be decided without the book. */
  ghost predicate WithinLimits(s: Engine, c: Message) {
    && c.instrumentId in s.instruments
    && var r := s.instruments[c.instrumentId];
       && r.lotSize > 0 && r.tickSize > 0
       && WellFormed(c) && LotSized(c, r) && OnTick(c, r)
       && c.quantity <= r.maxOrderQuantity && WithinNotional(c, r)
       && NewNumber(s, c)
       && |OtherOrders(s, c)| < r.maxOpenOrders
       && -r.maxPosition <= WorstCase(s, c) <= r.maxPosition
       && SameMarketSide(s, c)
  }

  /** The demand that a refusal names is not met. */
  ghost predicate Broken(s: Engine, c: Message, why: Reject) {
    if c.instrumentId !in s.instruments then why == UnknownInstrument
    else
      var r := s.instruments[c.instrumentId];
      && r.lotSize > 0 && r.tickSize > 0
      && match why
         case InvalidCommand => !WellFormed(c) || !SameMarketSide(s, c)
         case InvalidQuantity => !LotSized(c, r)
         case InvalidPrice => !OnTick(c, r)
         case RiskQuantity => c.quantity > r.maxOrderQuantity
         case RiskNotional => !WithinNotional(c, r)
         case DuplicateOrder => !NewNumber(s, c)
         case RiskOpenOrders => |OtherOrders(s, c)| >= r.maxOpenOrders
         case RiskPosition => WorstCase(s, c) > r.maxPosition || WorstCase(s, c) < -r.maxPosition
         case _ => false
  }

  // ---- The engine's checks meet them --------------------------------------

  lemma SameFigures(s: Engine, c: Message, prior: OrderId)
    requires prior == Prior(s, c)
    ensures |OpenOrders(s.resting - {prior}, c.clientId)| == |OtherOrders(s, c)|
    ensures WorstPosition(s, c, prior) == WorstCase(s, c)
  {
    assert OpenOrders(s.resting - {prior}, c.clientId) == OtherOrders(s, c);
    assert Open(s.resting - {prior}, c.clientId, c.instrumentId, c.side) == Alongside(s, c);
  }

  lemma ShapesAgree(s: Engine, c: Message, prior: OrderId)
    requires c.action in {New, Replace} && prior == Prior(s, c) && (c.action == Replace ==> prior != 0)
    ensures BadShape(c, prior) <==> !WellFormed(c)
  {
  }

  lemma PositionsAgree(s: Engine, c: Message, limit: int)
    ensures Abs(WorstCase(s, c)) > limit <==> WorstCase(s, c) > limit || WorstCase(s, c) < -limit
  {
  }

  lemma RiskLaw(s: Engine, c: Message, prior: OrderId)
    requires forall i | i in s.instruments :: ValidRules(s.instruments[i])
    requires c.action in {New, Replace} && prior == Prior(s, c) && (c.action == Replace ==> prior != 0)
    ensures RiskRefusal(s, c, prior) == NoReject <==> WithinLimits(s, c)
    ensures RiskRefusal(s, c, prior) != NoReject ==> Broken(s, c, RiskRefusal(s, c, prior))
    ensures RiskRefusal(s, c, prior) == DuplicateOrder ==> c.orderId > 0
  {
    SameFigures(s, c, prior);
    ShapesAgree(s, c, prior);
    if c.instrumentId in s.instruments {
      assert ValidRules(s.instruments[c.instrumentId]);
      PositionsAgree(s, c, s.instruments[c.instrumentId].maxPosition);
    }
    assert BadShape(c, prior) || c.orderId > 0;
    hide OpenOrders, WorstPosition, OtherOrders, WorstCase, BadShape, WellFormed, Abs;
  }

  // ---- The demands of the book --------------------------------------------

  /** The order accepts a trade at a price. */
  predicate Accepts(c: Message, p: Price) {
    c.orderType == Market || (if c.side == Bid then p <= c.price else p >= c.price)
  }

  /** What is offered at acceptable prices. */
  function Offered(c: Message, queue: seq<Entry>): nat {
    if queue == [] then 0
    else (if Accepts(c, queue[0].price) then queue[0].quantity else 0) + Offered(c, queue[1..])
  }

  function Sum(queue: seq<Entry>): nat {
    if queue == [] then 0 else queue[0].quantity + Sum(queue[1..])
  }

  /** The order would reach one of the client's own orders before it is filled. */
  ghost predicate ReachesOwn(s: Engine, c: Message, queue: seq<Entry>, quantity: nat) {
    exists k :: 0 <= k < |queue| && Accepts(c, queue[k].price) && Sum(queue[..k]) < quantity
                && queue[k].id in s.resting && s.resting[queue[k].id].clientId == c.clientId
  }

  /** What is left of an order is what is not offered at acceptable prices. */
  lemma {:induction false} LeftLaw(c: Message, queue: seq<Entry>, quantity: nat)
    requires Ordered(c.side.Opposite(), queue)
    ensures Leaves(c, queue, quantity) == if quantity > Offered(c, queue) then quantity - Offered(c, queue) else 0
    decreases |queue|
  {
    if queue != [] {
      if Accepts(c, queue[0].price) {
        LeftLaw(c, queue[1..], quantity - Min(quantity, queue[0].quantity));
        if quantity <= queue[0].quantity {
          NothingLeft(c, queue[1..]);
        }
      } else {
        NoneOffered(c, queue);
      }
    }
  }

  lemma NothingLeft(c: Message, queue: seq<Entry>)
    ensures Leaves(c, queue, 0) == 0
  {
  }

  /** Behind a price that is not acceptable there is none that is. */
  lemma {:induction false} NoneOffered(c: Message, queue: seq<Entry>)
    requires Ordered(c.side.Opposite(), queue) && queue != [] && !Accepts(c, queue[0].price)
    ensures Offered(c, queue) == 0 && forall e | e in queue :: !Accepts(c, e.price)
  {
    if |queue| > 1 {
      assert queue[1] in queue[1..];
      NoneOffered(c, queue[1..]);
    }
  }

  /** The sweep is refused for post-only if anything is acceptable, and for self-trade if an own order is reached. */
  lemma {:induction false} SweepLaw(s: Engine, c: Message, queue: seq<Entry>, quantity: nat)
    requires Ordered(c.side.Opposite(), queue) && forall e | e in queue :: e.quantity > 0
    ensures var why := SweepRefusal(c, s.resting, queue, quantity);
      && (why == PostOnly <==> c.postOnly && quantity > 0 && queue != [] && Accepts(c, queue[0].price))
      && (why == SelfTrade <==> !c.postOnly && ReachesOwn(s, c, queue, quantity))
    decreases |queue|
  {
    if queue == [] {
    } else if !Accepts(c, queue[0].price) {
      NoneOffered(c, queue);
      assert forall k | 0 <= k < |queue| :: queue[k] in queue;
    } else if quantity > 0 && !c.postOnly {
      var rest, left := queue[1..], quantity - Min(quantity, queue[0].quantity);
      SweepLaw(s, c, rest, left);
      ReachOn(s, c, queue, quantity);
    }
  }

  /** An own order is reached if it is at the front, or reached with what the front leaves. */
  lemma ReachOn(s: Engine, c: Message, queue: seq<Entry>, quantity: nat)
    requires queue != [] && Accepts(c, queue[0].price) && quantity > 0
    ensures ReachesOwn(s, c, queue, quantity)
       <==> (queue[0].id in s.resting && s.resting[queue[0].id].clientId == c.clientId)
            || ReachesOwn(s, c, queue[1..], quantity - Min(quantity, queue[0].quantity))
  {
    var rest, left := queue[1..], quantity - Min(quantity, queue[0].quantity);
    forall k | 0 < k < |queue| ensures Sum(queue[..k]) == queue[0].quantity + Sum(rest[..k - 1]) && queue[k] == rest[k - 1] {
      assert queue[..k][1..] == rest[..k - 1];
    }
    assert Sum(queue[..0]) == 0;
    if k :| 0 <= k < |rest| && Accepts(c, rest[k].price) && Sum(rest[..k]) < left
            && rest[k].id in s.resting && s.resting[rest[k].id].clientId == c.clientId {
      assert queue[k + 1] == rest[k];
      assert Sum(queue[..k + 1]) < quantity;
    }
    if ReachesOwn(s, c, queue, quantity) {
      var k :| 0 <= k < |queue| && Accepts(c, queue[k].price) && Sum(queue[..k]) < quantity
               && queue[k].id in s.resting && s.resting[queue[k].id].clientId == c.clientId;
      if k > 0 {
        assert rest[k - 1] == queue[k] && Sum(rest[..k - 1]) < left;
      }
    }
  }

  // ---- The answer to a whole command --------------------------------------

  /** The command names one of its client's open orders, on its own instrument. */
  predicate NamesOwn(s: Engine, c: Message) {
    && OwnerKey(c) in s.byClient && s.byClient[OwnerKey(c)] in s.resting
    && s.resting[s.byClient[OwnerKey(c)]].instrumentId == c.instrumentId
  }

  /** A replacement that only shrinks the order at its price keeps its place and does not meet the book. */
  predicate InPlace(s: Engine, c: Message) {
    && c.action == Replace && Prior(s, c) in s.resting
    && s.resting[Prior(s, c)].price == c.price && c.quantity <= s.resting[Prior(s, c)].quantity
  }

  function Against(s: Engine, c: Message): seq<Entry> {
    if c.instrumentId !in s.books then []
    else if c.side == Bid then s.books[c.instrumentId].asks else s.books[c.instrumentId].bids
  }

  /** Orders that the book holds on the instrument. */
  function Held(s: Engine, c: Message): nat {
    if c.instrumentId !in s.books then 0
    else |s.books[c.instrumentId].bids| + |s.books[c.instrumentId].asks|
  }

  /** A book's demand that a refusal names is not met. */
  ghost predicate BrokenByBook(s: Engine, c: Message, why: Reject) {
    var queue := Against(s, c);
    match why
    case PostOnly => c.postOnly && queue != [] && Accepts(c, queue[0].price)
    case SelfTrade => ReachesOwn(s, c, queue, c.quantity)
    case Fok => c.tif == FOK && Offered(c, queue) < c.quantity
    case Capacity => c.tif == GTC && c.orderType == Limit && Offered(c, queue) < c.quantity && Held(s, c) >= s.capacity
    case _ => false
  }

  /** The book has nothing against the order. */
  ghost predicate BookAccepts(s: Engine, c: Message) {
    !BrokenByBook(s, c, PostOnly) && !BrokenByBook(s, c, SelfTrade) && !BrokenByBook(s, c, Fok)
    && !BrokenByBook(s, c, Capacity)
  }

  /** The order may be entered. */
  ghost predicate MayEnter(s: Engine, c: Message) {
    && (c.action == Replace ==> NamesOwn(s, c))
    && WithinLimits(s, c) && (InPlace(s, c) || BookAccepts(s, c))
  }

  /** The reports answer the command with a refusal for this reason, or with none. */
  ghost predicate Answered(r: Step, c: Message, why: Reject) {
    if why == NoReject then forall m | m in r.batch.reports :: m.report != Rejected
    else
      && r.batch.updates == [] && |r.batch.reports| == 2
      && r.batch.reports[0].report == Rejected && r.batch.reports[0].reject == why
      && r.batch.reports[1].report == Complete
      && forall m | m in r.batch.reports :: m.clientId == c.clientId && m.orderId == c.orderId && m.requestId == c.requestId
  }

  /** Whoever reaches an order reaches the front first. */
  lemma FrontFirst(s: Engine, c: Message, queue: seq<Entry>, quantity: nat)
    requires Ordered(c.side.Opposite(), queue) && ReachesOwn(s, c, queue, quantity)
    ensures queue != [] && Accepts(c, queue[0].price)
  {
    var k :| 0 <= k < |queue| && Accepts(c, queue[k].price) && Sum(queue[..k]) < quantity;
    assert queue[k] in queue;
    if !Accepts(c, queue[0].price) {
      NoneOffered(c, queue);
    }
  }

  /** The book's checks in their order, on what the sweep finds. */
  lemma BookRefusalParts(s: Engine, c: Message)
    requires c.instrumentId in s.books
    ensures var left := Leaves(c, Against(s, c), c.quantity);
      var sweep := SweepRefusal(c, s.resting, Against(s, c), c.quantity);
      BookRefusal(s, c)
        == if sweep != NoReject then sweep
           else if c.tif == FOK && left != 0 then Fok
           else if left != 0 && c.tif == GTC && c.orderType == Limit && Held(s, c) >= s.capacity then Capacity
           else NoReject
  {
    hide Leaves, SweepRefusal;
    assert Against(s, c) == OppositeQueue(s, c);
  }

  lemma BookLaw(s: Engine, c: Message)
    requires Core(s) && c.instrumentId in s.books && c.quantity > 0
    ensures BookRefusal(s, c) == NoReject <==> BookAccepts(s, c)
    ensures BookRefusal(s, c) != NoReject ==> BrokenByBook(s, c, BookRefusal(s, c))
  {
    hide Core, BookRefusal, Leaves, SweepRefusal, Offered, ReachesOwn, Accepts, Ordered, Held, Against;
    var queue := Against(s, c);
    QueueOrdered(s, c);
    BookRefusalParts(s, c);
    LeftLaw(c, queue, c.quantity);
    SweepLaw(s, c, queue, c.quantity);
    if ReachesOwn(s, c, queue, c.quantity) {
      FrontFirst(s, c, queue, c.quantity);
    }
  }

  lemma QueueOrdered(s: Engine, c: Message)
    requires Core(s) && c.instrumentId in s.books
    ensures var queue := Against(s, c);
      Ordered(c.side.Opposite(), queue) && forall e | e in queue :: e.quantity > 0
  {
    hide Agreement, Indexed, Issued, HasAccounts, Balanced, AllSound;
    assert Consistent(s.books[c.instrumentId]);
  }

  /** One refusal and nothing else. */
  predicate OneRefusal(r: Step, c: Message, why: Reject) {
    && r.batch.updates == [] && |r.batch.reports| == 1
    && r.batch.reports[0].report == Rejected && r.batch.reports[0].reject == why
    && r.batch.reports[0].clientId == c.clientId && r.batch.reports[0].orderId == c.orderId
    && r.batch.reports[0].requestId == c.requestId
  }

  predicate NoRefusal(r: Step) {
    forall m | m in r.batch.reports :: m.report != Rejected
  }

  lemma RefuseIsOne(st: Step, c: Message, why: Reject)
    requires st.batch == NO_MESSAGES
    ensures OneRefusal(Refuse(st, c, why), c, why) && OneRefusal(Refuse(Opened(st, c), c, why), c, why)
  {
  }

  /** What order entry answers, in the order of its checks. */
  ghost function Verdict(s: Engine, c: Message, prior: OrderId): Reject
    requires Submittable(s, c, prior)
  {
    BookKeys(s);
    if RiskRefusal(s, c, prior) != NoReject then RiskRefusal(s, c, prior)
    else if KeepsPriority(s, c, prior) then NoReject
    else BookRefusal(s, c)
  }

  lemma CleanIsNoRefusal(r: Step)
    requires Clean(r.batch)
    ensures NoRefusal(r)
  {
  }

  lemma SubmitAnswers(st: Step, c: Message, prior: OrderId)
    requires Submittable(st.engine, c, prior) && st.batch == NO_MESSAGES
    ensures var why, r := Verdict(st.engine, c, prior), Submit(st, c, prior);
      if why == NoReject then NoRefusal(r) else OneRefusal(r, c, why)
  {
    hide BookRefusal, Enter, Amend, Refuse, Opened, OneRefusal, NoRefusal, Clean;
    hide BooksOk, Agreement, Indexed, Issued, HasAccounts, Balanced, AllSound, WorstPosition, OpenOrders;
    BookKeys(st.engine);
    var why := Verdict(st.engine, c, prior);
    RefuseIsOne(st, c, why);
    EmptyClean();
    if RiskRefusal(st.engine, c, prior) == NoReject {
      assert c.instrumentId in st.engine.books;
      hide Core, RiskRefusal;
      if KeepsPriority(st.engine, c, prior) {
        AmendAnswers(st, c, prior);
      } else if why == NoReject {
        EnterClean(st, c, prior);
        CleanIsNoRefusal(Enter(st, c, prior));
      }
    }
  }

  lemma AmendAnswers(st: Step, c: Message, prior: OrderId)
    requires KeepsPriority(st.engine, c, prior) && Live(st.engine, prior) && st.batch == NO_MESSAGES
    ensures NoRefusal(Amend(st, c, prior))
  {
    EmptyClean();
    AmendClean(st, c, prior);
    CleanIsNoRefusal(Amend(st, c, prior));
  }

  lemma EmptyClean()
    ensures Clean(NO_MESSAGES)
  {
  }

  // ---- The whole command --------------------------------------------------

  /** The demands are the same before and after the client's session has been opened. */
  ghost predicate Alike(b: Engine, s: Engine, c: Message) {
    && (WithinLimits(b, c) <==> WithinLimits(s, c))
    && (BookAccepts(b, c) <==> BookAccepts(s, c)) && (InPlace(b, c) <==> InPlace(s, c))
    && (NamesOwn(b, c) <==> NamesOwn(s, c))
    && (forall why :: BrokenByBook(b, c, why) <==> BrokenByBook(s, c, why))
    && (forall why | why != DuplicateOrder || c.orderId > 0 :: Broken(b, c, why) ==> Broken(s, c, why))
  }

  lemma SameDemands(s: Engine, c: Message)
    ensures Alike(Begin(s, c).engine, s, c)
  {
    hide WithinLimits, Broken, BrokenByBook, BookAccepts, InPlace, NamesOwn, SameMarketSide, WorstCase, OtherOrders;
    var b := Begin(s, c).engine;
    SameFrames(s, b, c);
    SameBook(s, b, c);
    SameLimits(s, b, c);
  }

  lemma SameLimits(s: Engine, b: Engine, c: Message)
    requires b.instruments == s.instruments && (c.orderId > 0 ==> (NewNumber(b, c) <==> NewNumber(s, c)))
    requires OtherOrders(b, c) == OtherOrders(s, c) && WorstCase(b, c) == WorstCase(s, c)
    requires SameMarketSide(b, c) <==> SameMarketSide(s, c)
    ensures WithinLimits(b, c) <==> WithinLimits(s, c)
    ensures forall why | why != DuplicateOrder || c.orderId > 0 :: Broken(b, c, why) ==> Broken(s, c, why)
  {
    hide NewNumber, SameMarketSide, WorstCase, OtherOrders, OnTick, LotSized, WithinNotional;
    assert WellFormed(c) ==> c.orderId > 0;
    hide WellFormed;
  }

  lemma SameFrames(s: Engine, b: Engine, c: Message)
    requires b.resting == s.resting && b.byClient == s.byClient && b.positions == s.positions
    ensures Prior(b, c) == Prior(s, c) && OtherOrders(b, c) == OtherOrders(s, c) && WorstCase(b, c) == WorstCase(s, c)
    ensures (SameMarketSide(b, c) <==> SameMarketSide(s, c)) && (InPlace(b, c) <==> InPlace(s, c))
    ensures NamesOwn(b, c) <==> NamesOwn(s, c)
  {
    assert OtherOrders(b, c) == OtherOrders(s, c);
    assert Alongside(b, c) == Alongside(s, c);
  }

  lemma SameBook(s: Engine, b: Engine, c: Message)
    requires b.resting == s.resting && b.books == s.books && b.capacity == s.capacity
    ensures forall why :: BrokenByBook(b, c, why) <==> BrokenByBook(s, c, why)
    ensures BookAccepts(b, c) <==> BookAccepts(s, c)
  {
    var queue := Against(s, c);
    assert ReachesOwn(b, c, queue, c.quantity) <==> ReachesOwn(s, c, queue, c.quantity);
    hide ReachesOwn, Offered;
  }

  /** The refusal is for a reason that holds. */
  ghost predicate Justified(s: Engine, c: Message, why: Reject) {
    || (why == UnknownOrder && c.action == Replace && !NamesOwn(s, c))
    || (Broken(s, c, why) && !WithinLimits(s, c))
    || (BrokenByBook(s, c, why) && WithinLimits(s, c) && !InPlace(s, c))
  }

  lemma VerdictLaw(s: Engine, c: Message, prior: OrderId)
    requires Submittable(s, c, prior)
    requires c.action in {New, Replace} && prior == Prior(s, c) && (c.action == Replace ==> prior != 0)
    ensures var why := Verdict(s, c, prior);
      && (why == NoReject <==> WithinLimits(s, c) && (InPlace(s, c) || BookAccepts(s, c)))
      && (why != NoReject ==> Justified(s, c, why))
      && (why == DuplicateOrder ==> c.orderId > 0)
  {
    hide BooksOk, Agreement, Indexed, Issued, HasAccounts, Balanced, AllSound, RiskRefusal, BookRefusal, Broken;
    hide BookAccepts;
    RiskLaw(s, c, prior);
    BookKeys(s);
    assert KeepsPriority(s, c, prior) <==> InPlace(s, c);
    if RiskRefusal(s, c, prior) == NoReject {
      BookLaw(s, c);
    }
    hide WithinLimits, InPlace, KeepsPriority, Core;
  }

  /** The answer of order entry, completed or not. */
  ghost predicate AnsweredEntry(s: Engine, r: Step, c: Message) {
    if MayEnter(s, c) then NoRefusal(r)
    else exists why :: OneRefusal(r, c, why) && Justified(s, c, why) && (why == DuplicateOrder ==> c.orderId > 0)
  }

  lemma SubmitLaw(st: Step, c: Message, prior: OrderId)
    requires Submittable(st.engine, c, prior) && st.batch == NO_MESSAGES
    requires c.action in {New, Replace} && prior == Prior(st.engine, c)
    requires c.action == Replace ==> prior != 0 && NamesOwn(st.engine, c)
    ensures AnsweredEntry(st.engine, Submit(st, c, prior), c)
  {
    hide Submittable, Verdict, Submit, NoRefusal, OneRefusal, Justified, WithinLimits, InPlace, BookAccepts, NamesOwn;
    VerdictLaw(st.engine, c, prior);
    SubmitAnswers(st, c, prior);
  }

  lemma BusinessLaw(st: Step, c: Message)
    requires Core(st.engine) && c.clientId != 0 && c.clientId in st.engine.clients && st.batch == NO_MESSAGES
    requires c.action in {New, Replace}
    ensures AnsweredEntry(st.engine, Business(st, c), c)
  {
    hide BooksOk, Agreement, HasAccounts, Balanced, AllSound, Submit, AnsweredEntry;
    var s := st.engine;
    BookKeys(s);
    if c.action == Replace && !Addressed(s, c) {
      NotAddressed(st, c);
    } else {
      SubmitLaw(st, c, Prior(s, c));
    }
  }

  lemma NotAddressed(st: Step, c: Message)
    requires c.action == Replace && !Addressed(st.engine, c) && st.batch == NO_MESSAGES
    ensures AnsweredEntry(st.engine, Refuse(st, c, UnknownOrder), c)
  {
    RefuseIsOne(st, c, UnknownOrder);
    hide Refuse, OneRefusal, WithinLimits, Broken, BrokenByBook;
    assert Justified(st.engine, c, UnknownOrder);
  }

  predicate Completes(done: Step, r: Step, c: Message) {
    && r.batch.updates == done.batch.updates
    && |r.batch.reports| == |done.batch.reports| + 1 && r.batch.reports[..|done.batch.reports|] == done.batch.reports
    && var last := r.batch.reports[|done.batch.reports|];
       last.report == Complete && last.clientId == c.clientId && last.orderId == c.orderId && last.requestId == c.requestId
  }

  /** Completing a command adds one report, which is no refusal. */
  lemma Completed(s: Engine, c: Message)
    requires Core(s) && Effective(s, c)
    ensures Core(Begin(s, c).engine) && c.clientId in Begin(s, c).engine.clients
    ensures Completes(Business(Begin(s, c), c), Perform(s, c), c)
  {
    hide Core, Begin, Business, Private;
    BeginCore(s, c);
    BusinessCore(Begin(s, c), c);
  }

  /**
   Of an effective command that enters or replaces an order: it is not refused if and only if the order is well formed,
   within every limit and acceptable to the book, and a refusal names a demand that is not met.
   */
  lemma EntryLaw(s: Engine, c: Message)
    requires Inv(s) && Effective(s, c) && c.action in {New, Replace}
    ensures var r := Process(s, c);
      && ((forall m | m in r.batch.reports :: m.report != Rejected) <==> MayEnter(s, c))
      && (forall m | m in r.batch.reports && m.report == Rejected :: Answered(r, c, m.reject) && Justified(s, c, m.reject))
  {
    hide Core, Bounded, Begin, Business, Perform, MayEnter, AnsweredEntry;
    BeginQuiet(s, c);
    SameDemands(s, c);
    Completed(s, c);
    BusinessLaw(Begin(s, c), c);
    CompletedEntry(s, Begin(s, c).engine, c, Business(Begin(s, c), c), Perform(s, c));
  }

  lemma CompletedEntry(s: Engine, b: Engine, c: Message, done: Step, r: Step)
    requires Alike(b, s, c) && AnsweredEntry(b, done, c) && Completes(done, r, c)
    ensures (forall m | m in r.batch.reports :: m.report != Rejected) <==> MayEnter(s, c)
    ensures forall m | m in r.batch.reports && m.report == Rejected :: Answered(r, c, m.reject) && Justified(s, c, m.reject)
  {
    hide Completes, Answered, OneRefusal, Justified, WithinLimits, InPlace, BookAccepts, NamesOwn, Broken, BrokenByBook;
    if MayEnter(s, c) {
      CompletedQuiet(done, r, c);
    } else {
      var why :| OneRefusal(done, c, why) && Justified(b, c, why) && (why == DuplicateOrder ==> c.orderId > 0);
      CompletedRefusal(done, r, c, why);
      StillJustified(s, b, c, why);
    }
  }

  lemma StillJustified(s: Engine, b: Engine, c: Message, why: Reject)
    requires Alike(b, s, c) && Justified(b, c, why) && (why == DuplicateOrder ==> c.orderId > 0)
    ensures Justified(s, c, why) && why != NoReject
  {
    NoneBroken(b, c);
    hide WithinLimits, InPlace, BookAccepts, NamesOwn, Broken, BrokenByBook;
  }

  lemma NoneBroken(s: Engine, c: Message)
    ensures !Broken(s, c, NoReject) && !BrokenByBook(s, c, NoReject)
  {
  }

  lemma CompletedQuiet(done: Step, r: Step, c: Message)
    requires Completes(done, r, c) && NoRefusal(done)
    ensures NoRefusal(r)
  {
    assert r.batch.reports == r.batch.reports[..|done.batch.reports|] + [r.batch.reports[|done.batch.reports|]];
  }

  lemma CompletedRefusal(done: Step, r: Step, c: Message, why: Reject)
    requires Completes(done, r, c) && OneRefusal(done, c, why)
    ensures why != NoReject ==> Answered(r, c, why)
    ensures exists m :: m in r.batch.reports && m.report == Rejected
    ensures forall m | m in r.batch.reports && m.report == Rejected :: m.reject == why
  {
    assert r.batch.reports[0] == r.batch.reports[..1][0];
    assert r.batch.reports[0] in r.batch.reports;
  }
}
