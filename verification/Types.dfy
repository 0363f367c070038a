/**
 The value types of the exchange: enumerations, the one `Message` record that
 carries commands, reports, market deltas and snapshot rows, instrument rules and
 the small records the engine keeps per client.

 Identifiers, prices and quantities are natural numbers; where the width of a C++
 field matters (codec, ring indices, risk sums) it is stated explicitly.
 */
module Types {
  type OrderId = nat
  type ClientId = nat
  type InstrumentId = nat
  type Price = nat
  type Quantity = nat

  datatype Side = Bid | Ask {
    function Opposite(): (r: Side)
      ensures r != this
    {
      if this == Bid then Ask else Bid
    }

    /** +1 for a purchase, -1 for a sale. */
    function Sign(): (r: int)
      ensures r == 1 || r == -1
    {
      if this == Bid then 1 else -1
    }
  }

  datatype Kind = Command | Report | Delta | Heartbeat | SnapshotBegin | SnapshotOrder | SnapshotEnd
  datatype Action = New | Cancel | Replace | CancelAll | Snapshot | Status
  datatype OrderType = Limit | Market
  datatype TimeInForce = GTC | IOC | FOK
  datatype ReportType = Accepted | Rejected | Fill | Cancelled | Replaced | Complete | StatusReport
  datatype UpdateType = AddUpdate | CancelUpdate | ExecuteUpdate | ReduceUpdate | TradeUpdate
  datatype Reject =
    | NoReject
    | InvalidCommand
    | UnknownInstrument
    | InvalidPrice
    | InvalidQuantity
    | DuplicateOrder
    | UnknownOrder
    | SequenceReject
    | PostOnly
    | Fok
    | SelfTrade
    | RiskQuantity
    | RiskNotional
    | RiskPosition
    | RiskOpenOrders
    | Capacity
    | SessionBusy
    | KillSwitch

  /** Outcome of one operation on an order book. */
  datatype ApplyResult =
    | Ok
    | DuplicateId
    | UnknownId
    | BadPrice
    | BadQuantity
    | NoInstrument
    | QuantityExceedsRemaining
    | ParseError
    | AllocationFailed

  datatype Message = Message(
    kind: Kind,
    action: Action,
    side: Side,
    orderType: OrderType,
    tif: TimeInForce,
    report: ReportType,
    reject: Reject,
    update: UpdateType,
    postOnly: bool,
    epoch: nat,
    sequence: nat,
    clientId: ClientId,
    price: Price,
    requestId: nat,
    orderId: OrderId,
    exchangeId: OrderId,
    instrumentId: InstrumentId,
    quantity: Quantity,
    remaining: Quantity,
    tradeId: nat)

  /** The default-initialised message. */
  const BLANK := Message(Command, New, Bid, Limit, GTC, Accepted, NoReject, AddUpdate, false,
                         0, 0, 0, 0, 0, 0, 0, 0, 0, 0, 0)

  /** Only these actions can change the engine, and so need to be durable. */
  predicate Durable(c: Message) {
    c.action != Snapshot && c.action != Status
  }

  datatype Rules = Rules(
    tickSize: Price,
    lotSize: Quantity,
    minPrice: Price,
    maxPrice: Price,
    maxOrderQuantity: Quantity,
    maxNotional: nat,
    maxPosition: int,
    maxOpenOrders: nat)

  /** What the engine's constructor demands of one instrument's rules. */
  predicate ValidRules(r: Rules) {
    && r.tickSize != 0
    && r.lotSize != 0
    && r.minPrice != 0
    && r.minPrice <= r.maxPrice
    && r.maxOrderQuantity != 0
    && r.maxNotional != 0
    && 0 < r.maxPosition <= 1_000_000_000_000
    && 0 < r.maxOpenOrders <= 4096
  }

  datatype Option<+T> = None | Some(value: T)

  function Min(a: int, b: int): int {
    if a <= b then a else b
  }

  function Max(a: int, b: int): int {
    if a >= b then a else b
  }

  function Abs(a: int): int {
    if a < 0 then -a else a
  }
}
