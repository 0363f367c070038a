/**
 Position accounting: quantity, volume, cash, average price and realised profit of
 one client in one instrument. Cash is an exact integer; average price and profit
 are exact rationals.
 */
module Positions {
  import opened Types
  import opened Sums

  datatype Position = Position(
    quantity: int,
    volume: nat,
    averagePrice: real,
    realizedPnl: real,
    cash: int)

  const FLAT := Position(0, 0, 0.0, 0.0, 0)

  type Holdings = map<(ClientId, InstrumentId), Position>

  /** Applies one fill: extend, reduce, close or flip the position. */
  function Fill(p: Position, side: Side, price: Price, size: Quantity): Position {
    var signed := side.Sign() * size;
    var next := p.quantity + signed;
    var q := p.(quantity := next, volume := p.volume + size, cash := p.cash - price * signed);
    if p.quantity == 0 || (p.quantity > 0) == (signed > 0) then
      if next == 0 then q
      else q.(averagePrice :=
        (p.averagePrice * Abs(p.quantity) as real + price as real * size as real) / Abs(next) as real)
    else
      var closed := Min(Abs(p.quantity), size);
      var direction := if p.quantity > 0 then 1.0 else -1.0;
      var r := q.(realizedPnl :=
        p.realizedPnl + (price as real - p.averagePrice) * closed as real * direction);
      if next == 0 then r.(averagePrice := 0.0)
      else if (next > 0) != (p.quantity > 0) then r.(averagePrice := price as real)
      else r
  }

  /** Profit if the open quantity were closed at `mark`. */
  function Pnl(p: Position, mark: real): real {
    p.cash as real + p.quantity as real * mark
  }

  /** Books balance: marking at the average price gives exactly the realised profit. */
  predicate Sound(p: Position) {
    && p.cash as real + p.quantity as real * p.averagePrice == p.realizedPnl
    && (p.quantity == 0 ==> p.averagePrice == 0.0)
  }

  /** One fill keeps the accounts sound, whether it extends, closes or flips. */
  lemma FillSound(p: Position, side: Side, price: Price, size: Quantity)
    requires Sound(p) && size > 0
    ensures Sound(Fill(p, side, price, size))
  {
  }

  datatype Trade = Trade(side: Side, price: Price, size: Quantity)

  function FillAll(p: Position, trades: seq<Trade>): Position
    decreases |trades|
  {
    if trades == [] then p
    else FillAll(Fill(p, trades[0].side, trades[0].price, trades[0].size), trades[1..])
  }

  /** Over every sequence of fills, cash plus quantity at average price is realised profit. */
  lemma {:induction false} FillsSound(p: Position, trades: seq<Trade>)
    requires Sound(p) && forall t | t in trades :: t.size > 0
    ensures Sound(FillAll(p, trades))
    decreases |trades|
  {
    hide Fill, Sound;
    if trades != [] {
      FillSound(p, trades[0].side, trades[0].price, trades[0].size);
      FillsSound(Fill(p, trades[0].side, trades[0].price, trades[0].size), trades[1..]);
    }
  }

  // ---- Conservation across clients ---------------------------------------

  ghost function Quantities(h: Holdings, i: InstrumentId): map<(ClientId, InstrumentId), int> {
    map k | k in h && k.1 == i :: h[k].quantity
  }

  ghost function Cash(h: Holdings, i: InstrumentId): map<(ClientId, InstrumentId), int> {
    map k | k in h && k.1 == i :: h[k].cash
  }

  /** Per instrument, positions and cash cancel out over all clients. */
  ghost predicate Balanced(h: Holdings) {
    forall i: InstrumentId :: Total(Quantities(h, i)) == 0 && Total(Cash(h, i)) == 0
  }

  ghost predicate AllSound(h: Holdings) {
    forall k | k in h :: Sound(h[k])
  }

  function PositionOf(h: Holdings, client: ClientId, i: InstrumentId): Position {
    if (client, i) in h then h[(client, i)] else FLAT
  }

  /** Total profit of all clients in one instrument at a mark. */
  ghost function TotalPnl(h: Holdings, mark: real): real
    decreases h.Keys
  {
    if h == map[] then 0.0 else
    var k := Pick(h.Keys);
    Pnl(h[k], mark) + TotalPnl(h - {k}, mark)
  }

  lemma {:induction false} TotalPnlSplits(h: Holdings, i: InstrumentId, mark: real)
    requires forall k | k in h :: k.1 == i
    ensures TotalPnl(h, mark) == Total(Cash(h, i)) as real + Total(Quantities(h, i)) as real * mark
    decreases h.Keys
  {
    if h == map[] {
      assert Cash(h, i) == map[] && Quantities(h, i) == map[];
    } else {
      var k := Pick(h.Keys);
      TotalPnlSplits(h - {k}, i, mark);
      SplitOff(h, i, k);
      hide Total, Cash, Quantities;
      Distribute(h[k], Total(Cash(h - {k}, i)), Total(Quantities(h - {k}, i)), mark);
    }
  }

  lemma SplitOff(h: Holdings, i: InstrumentId, k: (ClientId, InstrumentId))
    requires k in h && k.1 == i
    ensures Total(Cash(h, i)) == h[k].cash + Total(Cash(h - {k}, i))
    ensures Total(Quantities(h, i)) == h[k].quantity + Total(Quantities(h - {k}, i))
  {
    TotalRemove(Cash(h, i), k);
    TotalRemove(Quantities(h, i), k);
    assert Cash(h, i) - {k} == Cash(h - {k}, i);
    assert Quantities(h, i) - {k} == Quantities(h - {k}, i);
  }

  lemma Distribute(p: Position, cash: int, quantity: int, mark: real)
    ensures Pnl(p, mark) + (cash as real + quantity as real * mark)
         == (p.cash + cash) as real + (p.quantity + quantity) as real * mark
  {
  }

  ghost function InInstrument(h: Holdings, i: InstrumentId): Holdings {
    map k | k in h && k.1 == i :: h[k]
  }

  /** Trading is zero-sum: at every mark the profits of an instrument's clients cancel. */
  lemma ZeroSum(h: Holdings, i: InstrumentId, mark: real)
    requires Balanced(h)
    ensures TotalPnl(InInstrument(h, i), mark) == 0.0
  {
    var g := InInstrument(h, i);
    TotalPnlSplits(g, i, mark);
    assert Cash(g, i) == Cash(h, i);
    assert Quantities(g, i) == Quantities(h, i);
  }

  /** The two legs of one trade. */
  function TradeLegs(h: Holdings, maker: ClientId, taker: ClientId, i: InstrumentId, side: Side,
                     price: Price, size: Quantity): Holdings
    requires (maker, i) in h && (taker, i) in h
  {
    var h' := h[(maker, i) := Fill(h[(maker, i)], side, price, size)];
    h'[(taker, i) := Fill(h'[(taker, i)], side.Opposite(), price, size)]
  }

  lemma FillMoves(h: Holdings, k: (ClientId, InstrumentId), side: Side, price: Price, size: Quantity, i: InstrumentId)
    requires k in h
    ensures var h' := h[k := Fill(h[k], side, price, size)];
            && Total(Quantities(h', i)) == Total(Quantities(h, i)) + (if k.1 == i then side.Sign() * size else 0)
            && Total(Cash(h', i)) == Total(Cash(h, i)) - (if k.1 == i then price * (side.Sign() * size) else 0)
  {
    var p := Fill(h[k], side, price, size);
    var h' := h[k := p];
    if k.1 == i {
      TotalUpdate(Quantities(h, i), k, p.quantity);
      TotalUpdate(Cash(h, i), k, p.cash);
      assert Quantities(h', i) == Quantities(h, i)[k := p.quantity];
      assert Cash(h', i) == Cash(h, i)[k := p.cash];
    } else {
      assert Quantities(h', i) == Quantities(h, i);
      assert Cash(h', i) == Cash(h, i);
    }
  }

  /** A trade moves quantity and cash between clients and creates neither. */
  lemma TradeBalances(h: Holdings, maker: ClientId, taker: ClientId, i: InstrumentId, side: Side,
                      price: Price, size: Quantity)
    requires (maker, i) in h && (taker, i) in h && Balanced(h)
    ensures Balanced(TradeLegs(h, maker, taker, i, side, price, size))
  {
    hide Fill;
    var h1 := h[(maker, i) := Fill(h[(maker, i)], side, price, size)];
    forall j: InstrumentId
      ensures Total(Quantities(TradeLegs(h, maker, taker, i, side, price, size), j)) == 0
      ensures Total(Cash(TradeLegs(h, maker, taker, i, side, price, size), j)) == 0
    {
      FillMoves(h, (maker, i), side, price, size, j);
      FillMoves(h1, (taker, i), side.Opposite(), price, size, j);
      assert price * (side.Sign() * size) + price * (side.Opposite().Sign() * size) == 0;
    }
  }

  lemma TradeSound(h: Holdings, maker: ClientId, taker: ClientId, i: InstrumentId, side: Side,
                   price: Price, size: Quantity)
    requires (maker, i) in h && (taker, i) in h && AllSound(h) && size > 0
    ensures AllSound(TradeLegs(h, maker, taker, i, side, price, size))
  {
    hide Fill, Sound;
    FillSound(h[(maker, i)], side, price, size);
    var h1 := h[(maker, i) := Fill(h[(maker, i)], side, price, size)];
    FillSound(h1[(taker, i)], side.Opposite(), price, size);
  }

  /** Opening a flat account changes no total. */
  function OpenAccount(h: Holdings, k: (ClientId, InstrumentId)): Holdings {
    if k in h then h else h[k := FLAT]
  }

  lemma OpenAccountBalances(h: Holdings, k: (ClientId, InstrumentId))
    requires Balanced(h) && AllSound(h)
    ensures Balanced(OpenAccount(h, k)) && AllSound(OpenAccount(h, k))
    ensures forall c, i :: PositionOf(OpenAccount(h, k), c, i) == PositionOf(h, c, i)
  {
    if k !in h {
      var g := h[k := FLAT];
      forall i: InstrumentId ensures Total(Quantities(g, i)) == 0 && Total(Cash(g, i)) == 0 {
        if k.1 == i {
          TotalInsert(Quantities(h, i), k, 0);
          TotalInsert(Cash(h, i), k, 0);
          assert Quantities(g, i) == Quantities(h, i)[k := 0];
          assert Cash(g, i) == Cash(h, i)[k := 0];
        } else {
          assert Quantities(g, i) == Quantities(h, i);
          assert Cash(g, i) == Cash(h, i);
        }
      }
    }
  }
}
