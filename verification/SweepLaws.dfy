/**
 What a sweep tells and leaves behind, fill by fill: two private reports and two public
 deltas for each planned fill, with their numbers, and what becomes of every resting
 order, every account, the opposite queue and the counters.
 */
module SweepLaws {
  import opened Types
  import opened BookModel
  import opened Positions
  import opened EngineModel
  import opened AgreementLemmas
  import opened Exchange
  import opened Refinement
  import opened Outcome

  // ---- The messages of one fill -------------------------------------------

  /** A private report about an order. */
  function AsReport(m: Message, kind: ReportType, epoch: nat, n: nat): Message {
    m.(kind := Kind.Report, report := kind, reject := NoReject, epoch := epoch, sequence := n)
  }

  /** A public delta, which names nobody. */
  function AsDelta(m: Message, kind: UpdateType, epoch: nat, n: nat): Message {
    m.(kind := Delta, update := kind, epoch := epoch, sequence := n, clientId := 0, requestId := 0, orderId := 0)
  }

  /** The resting order's side of a fill. */
  function MakerPart(m: Message, f: PlannedFill, trade: nat): Message
    requires f.size <= m.quantity
  {
    m.(quantity := f.size, remaining := m.quantity - f.size, tradeId := trade)
  }

  /** The incoming order's side: at the resting order's price. */
  function TakerPart(c: Message, f: PlannedFill, left: Quantity, trade: nat): Message {
    c.(price := f.price, quantity := f.size, remaining := left, tradeId := trade)
  }

  /** The last numbers given out before something is told. */
  datatype Numbers = Numbers(epoch: nat, reports: nat, deltas: nat, nextTrade: nat)

  function NumbersOf(s: Engine): Numbers {
    Numbers(s.epoch, s.responseSequence, s.sequence, s.nextTrade)
  }

  /** Fill `k` is told to both parties and published twice, under consecutive numbers. */
  predicate FillTold(resting: map<OrderId, Message>, at: Numbers, c: Message, fills: seq<PlannedFill>, leaves: Quantity,
                     k: nat, reports: seq<Message>, updates: seq<Message>)
    requires k < |fills| && |reports| == 2 * |fills| == |updates|
  {
    var f := fills[k];
    && f.id in resting && f.size <= resting[f.id].quantity && PlannedQuantity(fills[..k + 1]) <= leaves
    && var maker := MakerPart(resting[f.id], f, at.nextTrade + k);
       var taker := TakerPart(c, f, leaves - PlannedQuantity(fills[..k + 1]), at.nextTrade + k);
       && reports[2 * k] == AsReport(maker, ReportType.Fill, at.epoch, at.reports + 2 * k + 1)
       && reports[2 * k + 1] == AsReport(taker, ReportType.Fill, at.epoch, at.reports + 2 * k + 2)
       && updates[2 * k] == AsDelta(maker, ExecuteUpdate, at.epoch, at.deltas + 2 * k + 1)
       && updates[2 * k + 1] == AsDelta(taker, TradeUpdate, at.epoch, at.deltas + 2 * k + 2)
  }

  predicate SweepTold(resting: map<OrderId, Message>, at: Numbers, c: Message, fills: seq<PlannedFill>,
                      leaves: Quantity,
                      reports: seq<Message>, updates: seq<Message>)
  {
    && |reports| == 2 * |fills| == |updates|
    && forall k | 0 <= k < |fills| :: FillTold(resting, at, c, fills, leaves, k, reports, updates)
  }

  // ---- What is left of everything -----------------------------------------

  /** What the fills take from an order. */
  function Taken(fills: seq<PlannedFill>, id: OrderId): nat {
    if fills == [] then 0 else (if fills[0].id == id then fills[0].size else 0) + Taken(fills[1..], id)
  }

  /** Every resting order has lost what the fills took, and is gone if that was all. */
  ghost predicate Reduced(resting: map<OrderId, Message>, resting': map<OrderId, Message>, fills: seq<PlannedFill>) {
    && (forall id :: id in resting' <==> id in resting && Taken(fills, id) < resting[id].quantity)
    && (forall id | id in resting' ::
          Taken(fills, id) <= resting[id].quantity
          && resting'[id] == resting[id].(quantity := resting[id].quantity - Taken(fills, id)))
  }

  /** The trades that the fills book to one client. */
  function Legs(resting: map<OrderId, Message>, c: Message, fills: seq<PlannedFill>, client: ClientId): seq<Trade> {
    if fills == [] then []
    else
      var f := fills[0];
      (if f.id in resting && resting[f.id].clientId == client then [Trade(resting[f.id].side, f.price, f.size)] else [])
      + (if c.clientId == client then [Trade(c.side, f.price, f.size)] else [])
      + Legs(resting, c, fills[1..], client)
  }

  /** Every account has been moved by its own trades, in order, and by nothing else. */
  ghost predicate Accounted(h: Holdings, h': Holdings, resting: map<OrderId, Message>, c: Message,
                            fills: seq<PlannedFill>) {
    forall client, i ::
      PositionOf(h', client, i)
        == if i == c.instrumentId then FillAll(PositionOf(h, client, i), Legs(resting, c, fills, client))
           else PositionOf(h, client, i)
  }

  /** The queue without the filled orders, the last of them possibly only shortened. */
  function Swept(queue: seq<Entry>, fills: seq<PlannedFill>): seq<Entry> {
    var n := |fills|;
    if n == 0 || n > |queue| then queue
    else if fills[n - 1].size < queue[n - 1].quantity then
      [queue[n - 1].(quantity := queue[n - 1].quantity - fills[n - 1].size)] + queue[n..]
    else queue[n..]
  }

  /** Trades are numbered and counted. */
  predicate Counted(s: Engine, s': Engine, fills: seq<PlannedFill>) {
    && s'.nextTrade == s.nextTrade + |fills|
    && s'.sequence == s.sequence + 2 * |fills| && s'.responseSequence == s.responseSequence + 2 * |fills|
    && s'.stats == s.stats.(trades := s.stats.trades + |fills|, volume := s.stats.volume + PlannedQuantity(fills))
  }

  // ---- One trade ----------------------------------------------------------

  /** The first fill of a plan. */
  function FirstFill(s: Engine, c: Message, leaves: Quantity): PlannedFill
    requires Matchable(s, c)
  {
    PlannedFill(Front(s, c).id, Front(s, c).price, Min(leaves, Front(s, c).quantity))
  }

  lemma OneTold(st: Step, c: Message, leaves: Quantity)
    requires Ready(st.engine, c) && OppositeQueue(st.engine, c) != [] && leaves > 0
    ensures Matchable(st.engine, c)
    ensures var s, r := st.engine, MatchOne(st, c, leaves);
      var f := FirstFill(s, c, leaves);
      && f.id in s.resting && 0 < f.size <= s.resting[f.id].quantity && f.size <= leaves
      && var maker, taker := MakerPart(s.resting[f.id], f, s.nextTrade), TakerPart(c, f, leaves - f.size, s.nextTrade);
         && r.batch.reports == st.batch.reports + [AsReport(maker, ReportType.Fill, s.epoch, s.responseSequence + 1),
                                                   AsReport(taker, ReportType.Fill, s.epoch, s.responseSequence + 2)]
         && r.batch.updates == st.batch.updates + [AsDelta(maker, ExecuteUpdate, s.epoch, s.sequence + 1),
                                                   AsDelta(taker, TradeUpdate, s.epoch, s.sequence + 2)]
  {
    hide Core, Traded, TradeWith;
    FrontKnown(st.engine, c);
    var f := FirstFill(st.engine, c, leaves);
    TradeWithParts(st, c, f.id, f.price, f.size, leaves);
  }

  lemma OneCounted(st: Step, c: Message, leaves: Quantity)
    requires Ready(st.engine, c) && OppositeQueue(st.engine, c) != [] && leaves > 0
    ensures Matchable(st.engine, c)
    ensures var s, s', f := st.engine, MatchOne(st, c, leaves).engine, FirstFill(st.engine, c, leaves);
      && f.id in s.resting && f.size <= s.resting[f.id].quantity
      && s'.epoch == s.epoch && s'.nextTrade == s.nextTrade + 1
      && s'.sequence == s.sequence + 2 && s'.responseSequence == s.responseSequence + 2
      && s'.stats == s.stats.(trades := s.stats.trades + 1, volume := s.stats.volume + f.size)
      && s'.resting == AfterExecute(s.resting, f.id, f.size)
  {
    hide Core, Settle, ExecuteOrder, TradeWith;
    FrontKnown(st.engine, c);
    var f := FirstFill(st.engine, c, leaves);
    TradeWithParts(st, c, f.id, f.price, f.size, leaves);
  }

  /** A plan names no order twice. */
  lemma PlanDistinct(c: Message, queue: seq<Entry>, quantity: Quantity)
    requires Distinct(queue)
    ensures var fills := Plan(c, queue, quantity);
      fills != [] ==> queue != [] && fills[0].id == queue[0].id && forall k | 0 < k < |fills| :: fills[k].id != fills[0].id
  {
    var fills := Plan(c, queue, quantity);
    if fills != [] {
      PlanFollowsPriority(c, queue, quantity);
      forall k | 0 < k < |fills| ensures fills[k].id != fills[0].id {
        assert queue[k] == queue[1..][k - 1];
      }
    }
  }

  lemma QueueDistinct(s: Engine, c: Message)
    requires Core(s) && c.instrumentId in s.books
    ensures Distinct(OppositeQueue(s, c)) && Positive(OppositeQueue(s, c))
  {
    hide Agreement, Indexed, Issued, HasAccounts, Balanced, AllSound, Distinct, Ordered, Uncrossed;
    assert Consistent(s.books[c.instrumentId]);
  }

  /** The plan, its first fill, and the plan of what remains. */
  lemma PlanUnrolls(st: Step, c: Message, leaves: Quantity)
    requires Ready(st.engine, c) && CanMatch(st.engine, c, leaves)
    ensures Matchable(st.engine, c) && Ready(MatchOne(st, c, leaves).engine, c)
    ensures var f := FirstFill(st.engine, c, leaves);
      var fills := Plan(c, OppositeQueue(st.engine, c), leaves);
      var next := MatchOne(st, c, leaves);
      && 0 < f.size <= leaves
      && fills == [f] + Plan(c, OppositeQueue(next.engine, c), leaves - f.size)
      && (forall k | 0 < k < |fills| :: fills[k].id != f.id)
      && MatchAll(st, c, leaves) == MatchAll(next, c, leaves - f.size)
  {
    hide Core, MatchOne, Distinct;
    FrontKnown(st.engine, c);
    MatchOneCore(st, c, leaves);
    MatchOneFrame(st, c, leaves);
    hide SweepFrame;
    var fills := Plan(c, OppositeQueue(st.engine, c), leaves);
    assert fills == [fills[0]] + fills[1..];
    QueueDistinct(st.engine, c);
    assert OppositeQueue(st.engine, c)[0] in OppositeQueue(st.engine, c);
    PlanDistinct(c, OppositeQueue(st.engine, c), leaves);
    PlanStep(c, OppositeQueue(st.engine, c), OppositeQueue(MatchOne(st, c, leaves).engine, c), leaves);
  }

  // ---- What is told -------------------------------------------------------

  /** The tape of a sweep, from where the batch stood before. */
  ghost predicate ToldSince(st: Step, r: Step, c: Message, fills: seq<PlannedFill>, leaves: Quantity) {
    && |r.batch.reports| == |st.batch.reports| + 2 * |fills| && |r.batch.updates| == |st.batch.updates| + 2 * |fills|
    && r.batch.reports[..|st.batch.reports|] == st.batch.reports
    && r.batch.updates[..|st.batch.updates|] == st.batch.updates
    && SweepTold(st.engine.resting, NumbersOf(st.engine), c, fills, leaves,
                 r.batch.reports[|st.batch.reports|..], r.batch.updates[|st.batch.updates|..])
  }

  lemma FillToldLater(resting: map<OrderId, Message>, resting': map<OrderId, Message>, at: Numbers, c: Message,
                      fills: seq<PlannedFill>, leaves: Quantity, k: nat, ra: seq<Message>, ua: seq<Message>,
                      reports: seq<Message>, updates: seq<Message>)
    requires 0 < k < |fills| && |reports| == 2 * |fills| - 2 == |updates| && |ra| == 2 == |ua|
    requires fills[0].size <= leaves
    requires fills[k].id in resting' ==> fills[k].id in resting && resting'[fills[k].id] == resting[fills[k].id]
    requires FillTold(resting', Numbers(at.epoch, at.reports + 2, at.deltas + 2, at.nextTrade + 1), c, fills[1..],
                      leaves - fills[0].size, k - 1, reports, updates)
    ensures FillTold(resting, at, c, fills, leaves, k, ra + reports, ua + updates)
  {
    hide AsReport, AsDelta, MakerPart, TakerPart;
    assert fills[1..][..k] == fills[..k + 1][1..];
  }

  lemma FillToldNow(resting: map<OrderId, Message>, at: Numbers, c: Message, fills: seq<PlannedFill>, leaves: Quantity,
                    ra: seq<Message>, ua: seq<Message>, reports: seq<Message>, updates: seq<Message>)
    requires fills != [] && |reports| == 2 * |fills| - 2 == |updates| && |ra| == 2 == |ua|
    requires var f := fills[0];
      && f.id in resting && f.size <= resting[f.id].quantity && f.size <= leaves
      && var maker, taker := MakerPart(resting[f.id], f, at.nextTrade), TakerPart(c, f, leaves - f.size, at.nextTrade);
        
         && ra == [AsReport(maker, ReportType.Fill, at.epoch, at.reports + 1), AsReport(taker, ReportType.Fill, at.epoch, at.reports + 2)]
        
         && ua == [AsDelta(maker, ExecuteUpdate, at.epoch, at.deltas + 1), AsDelta(taker, TradeUpdate, at.epoch, at.deltas + 2)]
    ensures FillTold(resting, at, c, fills, leaves, 0, ra + reports, ua + updates)
  {
    hide AsReport, AsDelta, MakerPart, TakerPart;
    assert fills[..1] == [fills[0]];
    assert [fills[0]][1..] == [];
    assert PlannedQuantity([]) == 0;
  }

  lemma ToldStep(st: Step, st1: Step, r: Step, c: Message, fills: seq<PlannedFill>, leaves: Quantity)
    requires Ready(st.engine, c) && CanMatch(st.engine, c, leaves)
    requires Matchable(st.engine, c) && st1 == MatchOne(st, c, leaves)
    requires fills != [] && fills[0] == FirstFill(st.engine, c, leaves) && fills[0].size <= leaves
    requires forall k | 0 < k < |fills| :: fills[k].id != fills[0].id
    requires ToldSince(st1, r, c, fills[1..], leaves - fills[0].size)
    ensures ToldSince(st, r, c, fills, leaves)
  {
    hide Core, MatchOne, FillTold, AsReport, AsDelta, MakerPart, TakerPart, Matchable;
    OneTold(st, c, leaves);
    OneCounted(st, c, leaves);
    var a, b := |st.batch.reports|, |st.batch.updates|;
    var ra, ua := st1.batch.reports[a..], st1.batch.updates[b..];
    var reports, updates := r.batch.reports[a + 2..], r.batch.updates[b + 2..];
    Joined(st.batch.reports, ra, st1.batch.reports, r.batch.reports);
    Joined(st.batch.updates, ua, st1.batch.updates, r.batch.updates);
    FillToldNow(st.engine.resting, NumbersOf(st.engine), c, fills, leaves, ra, ua, reports, updates);
    forall k | 0 < k < |fills|
      ensures FillTold(st.engine.resting, NumbersOf(st.engine), c, fills, leaves, k, ra + reports, ua + updates)
    {
      FillToldLater(st.engine.resting, st1.engine.resting, NumbersOf(st.engine), c, fills, leaves, k, ra, ua, reports, updates);
    }
  }

  lemma Joined(a: seq<Message>, b: seq<Message>, ab: seq<Message>, t: seq<Message>)
    requires ab == a + b && |t| >= |ab| && t[..|ab|] == ab
    ensures t[..|a|] == a && t[|a|..] == b + t[|ab|..]
  {
    assert t[..|a|] == t[..|ab|][..|a|];
    assert t[|a|..|ab|] == t[..|ab|][|a|..];
  }

  lemma {:induction false} SweepTells(st: Step, c: Message, leaves: Quantity)
    requires Ready(st.engine, c)
    ensures ToldSince(st, MatchAll(st, c, leaves), c, Plan(c, OppositeQueue(st.engine, c), leaves), leaves)
    decreases leaves
  {
    hide Core, MatchOne, FirstFill, ToldSince;
    var fills := Plan(c, OppositeQueue(st.engine, c), leaves);
    if CanMatch(st.engine, c, leaves) {
      PlanUnrolls(st, c, leaves);
      OneTold(st, c, leaves);
      var st1 := MatchOne(st, c, leaves);
      SweepTells(st1, c, leaves - fills[0].size);
      assert fills[1..] == Plan(c, OppositeQueue(st1.engine, c), leaves - fills[0].size);
      ToldStep(st, st1, MatchAll(st, c, leaves), c, fills, leaves);
    } else {
      NothingTold(st, c, leaves);
    }
  }

  lemma NothingTold(st: Step, c: Message, leaves: Quantity)
    ensures ToldSince(st, st, c, [], leaves)
  {
  }

  // ---- What is left -------------------------------------------------------

  lemma {:induction false} TakenNone(fills: seq<PlannedFill>, id: OrderId)
    requires forall k | 0 <= k < |fills| :: fills[k].id != id
    ensures Taken(fills, id) == 0
  {
    if fills != [] {
      assert forall k | 0 <= k < |fills[1..]| :: fills[1..][k] == fills[k + 1];
      TakenNone(fills[1..], id);
    }
  }

  lemma ReducedStep(resting: map<OrderId, Message>, mid: map<OrderId, Message>, resting': map<OrderId, Message>,
                    fills: seq<PlannedFill>)
    requires fills != [] && (forall k | 0 < k < |fills| :: fills[k].id != fills[0].id)
    requires fills[0].id in resting && fills[0].size <= resting[fills[0].id].quantity
    requires mid == AfterExecute(resting, fills[0].id, fills[0].size) && Reduced(mid, resting', fills[1..])
    ensures Reduced(resting, resting', fills)
  {
    var f := fills[0];
    assert forall k | 0 <= k < |fills[1..]| :: fills[1..][k] == fills[k + 1];
    TakenNone(fills[1..], f.id);
    assert Taken(fills, f.id) == f.size;
    assert forall id | id != f.id :: Taken(fills, id) == Taken(fills[1..], id);
    hide Taken;
    assert forall id | id != f.id :: (id in mid <==> id in resting) && (id in mid ==> mid[id] == resting[id]);
  }

  lemma CountedStep(s: Engine, s1: Engine, s': Engine, fills: seq<PlannedFill>)
    requires fills != [] && Counted(s1, s', fills[1..])
    requires s1.nextTrade == s.nextTrade + 1 && s1.sequence == s.sequence + 2
    requires s1.responseSequence == s.responseSequence + 2
    requires s1.stats == s.stats.(trades := s.stats.trades + 1, volume := s.stats.volume + fills[0].size)
    ensures Counted(s, s', fills)
  {
  }

  lemma RestingPositive(s: Engine)
    requires Core(s)
    ensures forall id | id in s.resting :: s.resting[id].quantity > 0
  {
    hide Indexed, Issued, HasAccounts, Balanced, AllSound, Consistent, BooksOk, Agreement;
    AllConsistent(s.instruments, s.capacity, s.books);
    forall id | id in s.resting ensures s.resting[id].quantity > 0 {
      LocateResting(s.books, s.resting, id);
    }
  }

  lemma NothingReduced(s: Engine)
    requires Core(s)
    ensures Reduced(s.resting, s.resting, []) && Counted(s, s, [])
  {
    hide Core;
    RestingPositive(s);
    assert forall id :: Taken([], id) == 0;
  }

  lemma {:induction false} SweepReduces(st: Step, c: Message, leaves: Quantity)
    requires Ready(st.engine, c)
    ensures var fills, s' := Plan(c, OppositeQueue(st.engine, c), leaves), MatchAll(st, c, leaves).engine;
      Reduced(st.engine.resting, s'.resting, fills) && Counted(st.engine, s', fills)
    decreases leaves
  {
    hide Core, MatchOne, Reduced, Counted;
    var fills := Plan(c, OppositeQueue(st.engine, c), leaves);
    if CanMatch(st.engine, c, leaves) {
      PlanUnrolls(st, c, leaves);
      OneCounted(st, c, leaves);
      var st1 := MatchOne(st, c, leaves);
      SweepReduces(st1, c, leaves - fills[0].size);
      assert fills[1..] == Plan(c, OppositeQueue(st1.engine, c), leaves - fills[0].size);
      var s' := MatchAll(st, c, leaves).engine;
      ReducedStep(st.engine.resting, st1.engine.resting, s'.resting, fills);
      CountedStep(st.engine, st1.engine, s', fills);
    } else {
      NothingReduced(st.engine);
    }
  }

  // ---- Accounts -----------------------------------------------------------

  lemma {:induction false} FillAllJoin(p: Position, a: seq<Trade>, b: seq<Trade>)
    ensures FillAll(p, a + b) == FillAll(FillAll(p, a), b)
    decreases |a|
  {
    if a == [] {
      assert a + b == b;
    } else {
      hide Positions.Fill;
      assert (a + b)[0] == a[0] && (a + b)[1..] == a[1..] + b;
      FillAllJoin(Positions.Fill(p, a[0].side, a[0].price, a[0].size), a[1..], b);
    }
  }

  /** The trades of one fill. */
  function LegsOfOne(m: Message, c: Message, f: PlannedFill, client: ClientId): seq<Trade> {
    (if m.clientId == client then [Trade(m.side, f.price, f.size)] else [])
    + (if c.clientId == client then [Trade(c.side, f.price, f.size)] else [])
  }

  lemma SettleBooks(h: Holdings, maker: Message, c: Message, f: PlannedFill, client: ClientId, i: InstrumentId)
    requires (maker.clientId, c.instrumentId) in h && (c.clientId, c.instrumentId) in h
    ensures PositionOf(Settle(h, maker, c, f.price, f.size), client, i)
      == if i == c.instrumentId then FillAll(PositionOf(h, client, i), LegsOfOne(maker, c, f, client))
         else PositionOf(h, client, i)
  {
    hide Positions.Fill;
    var a, b := Trade(maker.side, f.price, f.size), Trade(c.side, f.price, f.size);
    assert forall p, t: Trade :: FillAll(p, [t]) == Positions.Fill(p, t.side, t.price, t.size) by {
      assert forall t: Trade :: [t][1..] == [];
    }
    assert forall p :: FillAll(p, [a, b]) == Positions.Fill(Positions.Fill(p, a.side, a.price, a.size), b.side, b.price, b.size) by {
      assert [a, b][1..] == [b] && [b][1..] == [];
    }
    assert [a] + [b] == [a, b];
  }

  /** Who owns what does not change while orders only shrink or go. */
  lemma {:induction false} LegsSame(resting: map<OrderId, Message>, mid: map<OrderId, Message>, c: Message,
                                    fills: seq<PlannedFill>, client: ClientId)
    requires forall k | 0 <= k < |fills| ::
      (fills[k].id in mid <==> fills[k].id in resting) && (fills[k].id in mid ==> mid[fills[k].id] == resting[fills[k].id])
    ensures Legs(mid, c, fills, client) == Legs(resting, c, fills, client)
  {
    if fills != [] {
      assert forall k | 0 <= k < |fills[1..]| :: fills[1..][k] == fills[k + 1];
      LegsSame(resting, mid, c, fills[1..], client);
    }
  }

  lemma BookedStep(s: Engine, s1: Engine, s': Engine, c: Message, fills: seq<PlannedFill>)
    requires fills != [] && (forall k | 0 < k < |fills| :: fills[k].id != fills[0].id)
    requires fills[0].id in s.resting && fills[0].size <= s.resting[fills[0].id].quantity
    requires s1.resting == AfterExecute(s.resting, fills[0].id, fills[0].size)
    requires var m := s.resting[fills[0].id];
      && (m.clientId, c.instrumentId) in s.positions && (c.clientId, c.instrumentId) in s.positions
      && s1.positions == Settle(s.positions, m, c, fills[0].price, fills[0].size)
    requires Accounted(s1.positions, s'.positions, s1.resting, c, fills[1..])
    ensures Accounted(s.positions, s'.positions, s.resting, c, fills)
  {
    hide PositionOf, Settle, FillAll;
    var m := s.resting[fills[0].id];
    forall client, i
      ensures PositionOf(s'.positions, client, i)
        == if i == c.instrumentId then FillAll(PositionOf(s.positions, client, i), Legs(s.resting, c, fills, client))
           else PositionOf(s.positions, client, i)
    {
      SettleBooks(s.positions, m, c, fills[0], client, i);
      LegsSame(s.resting, s1.resting, c, fills[1..], client);
      FillAllJoin(PositionOf(s.positions, client, i), LegsOfOne(m, c, fills[0], client), Legs(s.resting, c, fills[1..], client));
      assert Legs(s.resting, c, fills, client) == LegsOfOne(m, c, fills[0], client) + Legs(s.resting, c, fills[1..], client);
    }
  }

  lemma OneSettles(st: Step, c: Message, leaves: Quantity)
    requires Ready(st.engine, c) && OppositeQueue(st.engine, c) != [] && leaves > 0
    ensures Matchable(st.engine, c)
    ensures var s, s', f := st.engine, MatchOne(st, c, leaves).engine, FirstFill(st.engine, c, leaves);
      && f.id in s.resting && (s.resting[f.id].clientId, c.instrumentId) in s.positions
      && (c.clientId, c.instrumentId) in s.positions
      && s'.positions == Settle(s.positions, s.resting[f.id], c, f.price, f.size)
  {
    hide Core, Settle;
    MatchOneParts(st, c, leaves);
    FrontKnown(st.engine, c);
  }

  lemma {:induction false} SweepBooks(st: Step, c: Message, leaves: Quantity)
    requires Ready(st.engine, c)
    ensures Accounted(st.engine.positions, MatchAll(st, c, leaves).engine.positions, st.engine.resting, c,
                   Plan(c, OppositeQueue(st.engine, c), leaves))
    decreases leaves
  {
    hide Core, MatchOne, Accounted, Settle;
    var fills := Plan(c, OppositeQueue(st.engine, c), leaves);
    if CanMatch(st.engine, c, leaves) {
      PlanUnrolls(st, c, leaves);
      OneCounted(st, c, leaves);
      OneSettles(st, c, leaves);
      var st1 := MatchOne(st, c, leaves);
      SweepBooks(st1, c, leaves - fills[0].size);
      assert fills[1..] == Plan(c, OppositeQueue(st1.engine, c), leaves - fills[0].size);
      BookedStep(st.engine, st1.engine, MatchAll(st, c, leaves).engine, c, fills);
    } else {
      NothingBooked(st.engine, c);
    }
  }

  lemma NothingBooked(s: Engine, c: Message)
    ensures Accounted(s.positions, s.positions, s.resting, c, [])
  {
    hide PositionOf;
  }

  // ---- The book -----------------------------------------------------------

  lemma {:induction false} SweepShortens(st: Step, c: Message, leaves: Quantity)
    requires Ready(st.engine, c)
    ensures var s, s' := st.engine, MatchAll(st, c, leaves).engine;
      && OppositeQueue(s', c) == Swept(OppositeQueue(s, c), Plan(c, OppositeQueue(s, c), leaves))
      && forall i | i in s.books && i != c.instrumentId :: i in s'.books && s'.books[i] == s.books[i]
    decreases leaves
  {
    hide Core, MatchOne, Swept;
    var queue := OppositeQueue(st.engine, c);
    var fills := Plan(c, queue, leaves);
    if CanMatch(st.engine, c, leaves) {
      PlanUnrolls(st, c, leaves);
      MatchOneFrame(st, c, leaves);
      QueueDistinct(st.engine, c);
      OtherBooks(st, c, leaves);
      var st1 := MatchOne(st, c, leaves);
      SweepShortens(st1, c, leaves - fills[0].size);
      SweptStep(c, queue, OppositeQueue(st1.engine, c), leaves);
    } else {
      assert Swept(queue, []) == queue by { NothingSwept(queue); }
    }
  }

  lemma NothingSwept(queue: seq<Entry>)
    ensures Swept(queue, []) == queue
  {
  }

  lemma OtherBooks(st: Step, c: Message, leaves: Quantity)
    requires Ready(st.engine, c) && OppositeQueue(st.engine, c) != [] && leaves > 0
    ensures Matchable(st.engine, c)
    ensures var s, s' := st.engine, MatchOne(st, c, leaves).engine;
      forall i | i in s.books && i != c.instrumentId :: i in s'.books && s'.books[i] == s.books[i]
  {
    hide Core, Settle, ExecuteOrder;
    MatchOneParts(st, c, leaves);
  }

  lemma SweptStep(c: Message, q: seq<Entry>, q': seq<Entry>, leaves: Quantity)
    requires q != [] && leaves > 0 && Crosses(c, q[0].price)
    requires Positive(q)
    requires var size := Min(leaves, q[0].quantity);
             q' == if size == q[0].quantity then q[1..] else [q[0].(quantity := q[0].quantity - size)] + q[1..]
    ensures Swept(q', Plan(c, q', leaves - Min(leaves, q[0].quantity))) == Swept(q, Plan(c, q, leaves))
  {
    hide Swept, Plan;
    var size := Min(leaves, q[0].quantity);
    var fills := Plan(c, q, leaves);
    assert q[0] in q;
    PlanStep(c, q, q', leaves);
    PlanLength(c, q, leaves);
    if size == q[0].quantity {
      SweptLater(q, fills);
    } else {
      NothingPlanned(c, q');
      SweptNow(q, fills[0]);
      assert fills == [fills[0]];
      NothingSwept(q');
    }
  }

  lemma PlanLength(c: Message, q: seq<Entry>, leaves: Quantity)
    requires q != [] && leaves > 0 && Crosses(c, q[0].price)
    ensures 0 < |Plan(c, q, leaves)| <= |q|
  {
    PlanFollowsPriority(c, q, leaves);
  }

  lemma NothingPlanned(c: Message, q: seq<Entry>)
    ensures Plan(c, q, 0) == []
  {
  }

  lemma SweptLater(q: seq<Entry>, fills: seq<PlannedFill>)
    requires 0 < |fills| <= |q| && fills[0].size == q[0].quantity
    ensures Swept(q[1..], fills[1..]) == Swept(q, fills)
  {
    var n := |fills|;
    assert q[1..][n - 1..] == q[n..];
    if n == 1 {
      assert q[1..] == q[n..];
    } else {
      assert q[1..][n - 2] == q[n - 1] && fills[1..][n - 2] == fills[n - 1];
    }
  }

  lemma SweptNow(q: seq<Entry>, f: PlannedFill)
    requires q != [] && f.size < q[0].quantity
    ensures Swept(q, [f]) == [q[0].(quantity := q[0].quantity - f.size)] + q[1..]
  {
  }
}
