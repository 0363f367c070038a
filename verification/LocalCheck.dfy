/** What the client's check before sending demands, told of its own orders and position and of the market it sees. */
module LocalCheck {
  import opened Types
  import opened Sums
  import opened BookModel
  import opened Positions
  import opened DeltaStream
  import opened ReplicaModel
  import opened ManagerModel
  import opened Admission

  /** The client's own position. */
  function Own(g: Manager, i: InstrumentId): Position {
    if i in g.positions then g.positions[i] else FLAT
  }

  /** The middle of a two-sided book, else the order's price, else the average price of the position. */
  function Mark(g: Manager, c: Message, market: Replica): real {
    var bids := if c.instrumentId in market.books then market.books[c.instrumentId].bids else [];
    var asks := if c.instrumentId in market.books then market.books[c.instrumentId].asks else [];
    if bids != [] && asks != [] then (bids[0].price + asks[0].price) as real / 2.0
    else if c.price > 0 then c.price as real
    else Own(g, c.instrumentId).averagePrice
  }

  /** Marked there, the client has not lost more than it may. */
  predicate WithinLoss(g: Manager, c: Message, market: Replica, maxLoss: real) {
    var p := Own(g, c.instrumentId);
    p.cash as real + p.quantity as real * Mark(g, c, market) >= -maxLoss
  }

  /** The open orders that stay open next to this one: all of them, or all but the one it replaces. */
  function Remaining(g: Manager, c: Message): set<OrderId> {
    set o | o in g.orders && !(c.action == Replace && o == c.orderId)
  }

  /** Those of them on the order's side of its instrument. */
  function Alongside(g: Manager, c: Message): map<OrderId, int> {
    map o | o in Remaining(g, c) && g.orders[o].instrumentId == c.instrumentId && g.orders[o].side == c.side
      :: g.orders[o].quantity
  }

  /** What these reserve. */
  ghost function ReservedNext(g: Manager, c: Message): int {
    Total(Alongside(g, c))
  }

  /** The position if all of that and the order itself were filled. */
  ghost function WorstCase(g: Manager, c: Message): int {
    var more := ReservedNext(g, c) + c.quantity;
    if c.side == Bid then Own(g, c.instrumentId).quantity + more else Own(g, c.instrumentId).quantity - more
  }

  predicate WithinNotional(c: Message, limits: Rules) {
    (if c.orderType == Market then limits.maxPrice else c.price) * c.quantity <= limits.maxNotional
  }

  /** An order may be sent. */
  ghost predicate MayBeSent(g: Manager, c: Message, limits: Rules, market: Replica, maxLoss: real) {
    && market.synchronized
    && 0 < c.quantity <= limits.maxOrderQuantity
    && WithinLoss(g, c, market, maxLoss)
    && WithinNotional(c, limits)
    && |Remaining(g, c)| < limits.maxOpenOrders
    && -limits.maxPosition <= WorstCase(g, c) <= limits.maxPosition
  }

  lemma SameOthers(g: Manager, c: Message)
    ensures |Others(g, c)| == |Remaining(g, c)|
    ensures ReservedBy(Others(g, c), c.instrumentId, c.side) == ReservedNext(g, c)
  {
    var others := Others(g, c);
    assert others.Keys == Remaining(g, c);
    assert |others| == |others.Keys|;
    assert OpenBy(others, c.instrumentId, c.side) == Alongside(g, c);
  }

  lemma SameMark(g: Manager, c: Message, market: Replica)
    ensures MarkPrice(g, c, market) == Mark(g, c, market)
  {
  }

  /** The check lets an order pass exactly when it may be sent, and a cancellation always. */
  lemma CheckLaw(g: Manager, c: Message, limits: Rules, market: Replica, maxLoss: real)
    ensures c.action == Cancel || c.action == CancelAll ==> LocalRefusal(g, c, limits, market, maxLoss) == NoReject
    ensures c.action != Cancel && c.action != CancelAll ==>
      (LocalRefusal(g, c, limits, market, maxLoss) == NoReject <==> MayBeSent(g, c, limits, market, maxLoss))
  {
    SameOthers(g, c);
    SameMark(g, c, market);
    hide Others, ReservedBy, ReservedNext, Remaining, MarkPrice, Mark;
  }

  /** And every refusal names a limit that is broken. */
  lemma RefusalLaw(g: Manager, c: Message, limits: Rules, market: Replica, maxLoss: real)
    ensures match LocalRefusal(g, c, limits, market, maxLoss)
      case NoReject => true
      case KillSwitch => !market.synchronized || !WithinLoss(g, c, market, maxLoss)
      case RiskQuantity => c.quantity == 0 || c.quantity > limits.maxOrderQuantity
      case RiskNotional => !WithinNotional(c, limits)
      case RiskOpenOrders => |Remaining(g, c)| >= limits.maxOpenOrders
      case RiskPosition => WorstCase(g, c) > limits.maxPosition || WorstCase(g, c) < -limits.maxPosition
      case _ => false
    ensures c.action != Cancel && c.action != CancelAll && !market.synchronized ==>
      LocalRefusal(g, c, limits, market, maxLoss) == KillSwitch
  {
    SameOthers(g, c);
    SameMark(g, c, market);
    hide Others, ReservedBy, ReservedNext, Remaining, MarkPrice, Mark;
  }
}
