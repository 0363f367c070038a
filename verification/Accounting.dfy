/**
 What position accounting means, told from the trades alone: quantity, cash and volume are
 sums over the trades, the average price is the average cost of the open quantity, and
 profit is realised only on what is closed.
 */
module Accounting {
  import opened Types
  import opened Positions

  // ---- Sums over trades ---------------------------------------------------

  /** A purchase counts up, a sale down. */
  function Signed(side: Side, n: nat): int {
    if side == Bid then n else 0 - n
  }

  /** Bought minus sold. */
  function NetSize(trades: seq<Trade>): int {
    if trades == [] then 0 else Signed(trades[0].side, trades[0].size) + NetSize(trades[1..])
  }

  /** Paid minus received. */
  function NetCost(trades: seq<Trade>): int {
    if trades == [] then 0
    else Signed(trades[0].side, trades[0].price * trades[0].size) + NetCost(trades[1..])
  }

  function TotalSize(trades: seq<Trade>): nat {
    if trades == [] then 0 else trades[0].size + TotalSize(trades[1..])
  }

  function TotalCost(trades: seq<Trade>): nat {
    if trades == [] then 0 else trades[0].price * trades[0].size + TotalCost(trades[1..])
  }

  /** Quantity, cash and volume after any fills are those before plus the sums over the trades. */
  lemma {:induction false} FillsAddUp(p: Position, trades: seq<Trade>)
    ensures var q := FillAll(p, trades);
      && q.quantity == p.quantity + NetSize(trades)
      && q.cash == p.cash - NetCost(trades)
      && q.volume == p.volume + TotalSize(trades)
    decreases |trades|
  {
    if trades != [] {
      var t := trades[0];
      OneFillAddsUp(p, t.side, t.price, t.size);
      hide Positions.Fill;
      FillsAddUp(Positions.Fill(p, t.side, t.price, t.size), trades[1..]);
    }
  }

  lemma OneFillAddsUp(p: Position, side: Side, price: Price, size: Quantity)
    ensures var q := Positions.Fill(p, side, price, size);
      && q.quantity == p.quantity + Signed(side, size)
      && q.cash == p.cash - Signed(side, price * size)
      && q.volume == p.volume + size
  {
    assert price * (-1 * size) == 0 - price * size;
  }

  // ---- The average price --------------------------------------------------

  /** The position is flat or lies in the direction of the side. */
  predicate Along(p: Position, side: Side) {
    if side == Bid then p.quantity >= 0 else p.quantity <= 0
  }

  predicate OneWay(trades: seq<Trade>, side: Side) {
    forall t | t in trades :: t.side == side && t.size > 0
  }

  /** The cost of the open quantity. */
  function OpenCost(p: Position): real {
    p.averagePrice * (if p.quantity >= 0 then p.quantity else -p.quantity) as real
  }

  lemma ExtendingFill(p: Position, side: Side, price: Price, size: Quantity)
    requires Along(p, side) && size > 0
    ensures var q := Positions.Fill(p, side, price, size);
      && Along(q, side) && q.quantity != 0 && q.realizedPnl == p.realizedPnl
      && OpenCost(q) == OpenCost(p) + (price * size) as real
  {
    var next := p.quantity + side.Sign() * size;
    var cost := p.averagePrice * Abs(p.quantity) as real + price as real * size as real;
    assert price as real * size as real == (price * size) as real;
    Undivided(cost, Abs(next) as real);
  }

  lemma Undivided(x: real, y: real)
    requires y != 0.0
    ensures x / y * y == x
  {
  }

  /**
   Building up a position realises nothing, and its average price is what was paid for it divided by its size:
   average price times open quantity is the sum of price times size.
   */
  lemma {:induction false} BuildingUp(p: Position, side: Side, trades: seq<Trade>)
    requires Along(p, side) && OneWay(trades, side)
    ensures var q := FillAll(p, trades);
      Along(q, side) && q.realizedPnl == p.realizedPnl && OpenCost(q) == OpenCost(p) + TotalCost(trades) as real
    decreases |trades|
  {
    if trades != [] {
      var t := trades[0];
      assert t in trades;
      ExtendingFill(p, side, t.price, t.size);
      hide Positions.Fill, OpenCost, Along;
      BuildingUp(Positions.Fill(p, side, t.price, t.size), side, trades[1..]);
    }
  }

  /** From flat: the average price times the quantity is what the trades cost, and nothing is realised. */
  lemma BoughtFromFlat(side: Side, trades: seq<Trade>)
    requires OneWay(trades, side) && trades != []
    ensures var q := FillAll(FLAT, trades);
      && q.quantity == Signed(side, TotalSize(trades))
      && q.averagePrice * TotalSize(trades) as real == TotalCost(trades) as real
      && q.realizedPnl == 0.0
  {
    hide FillAll, NetCost, TotalCost, NetSize, TotalSize, OneWay;
    BuildingUp(FLAT, side, trades);
    FillsAddUp(FLAT, trades);
    OneWaySize(side, trades);
    var q, n := FillAll(FLAT, trades), TotalSize(trades);
    assert q.quantity == Signed(side, n) && OpenCost(q) == q.averagePrice * n as real;
  }

  lemma {:induction false} OneWaySize(side: Side, trades: seq<Trade>)
    requires OneWay(trades, side)
    ensures NetSize(trades) == Signed(side, TotalSize(trades))
  {
    if trades != [] {
      assert trades[0] in trades;
      OneWaySize(side, trades[1..]);
    }
  }

  // ---- Closing ------------------------------------------------------------

  /** +1 for a long position, -1 for a short one. */
  function Direction(p: Position): real {
    if p.quantity > 0 then 1.0 else -1.0
  }

  /** What closing a part of the position at a price earns over its average price. */
  function Gain(p: Position, price: Price, closed: nat): real {
    (price as real - p.averagePrice) * closed as real * Direction(p)
  }

  /** The side that reduces the position. */
  predicate Against(p: Position, side: Side) {
    if side == Bid then p.quantity < 0 else p.quantity > 0
  }

  function OpenSize(p: Position): nat {
    if p.quantity >= 0 then p.quantity else -p.quantity
  }

  /** A partial close realises the gain on what it closes and leaves the average price alone. */
  lemma PartialClose(p: Position, side: Side, price: Price, size: Quantity)
    requires Against(p, side) && 0 < size < OpenSize(p)
    ensures var q := Positions.Fill(p, side, price, size);
      q.averagePrice == p.averagePrice && q.realizedPnl == p.realizedPnl + Gain(p, price, size)
  {
  }

  /** A full close realises the gain on everything and ends flat at average price zero. */
  lemma FullClose(p: Position, side: Side, price: Price, size: Quantity)
    requires Against(p, side) && size == OpenSize(p)
    ensures var q := Positions.Fill(p, side, price, size);
      q.quantity == 0 && q.averagePrice == 0.0 && q.realizedPnl == p.realizedPnl + Gain(p, price, size)
  {
  }

  /** A flip realises the gain on everything that was open and opens the rest at the price of the fill. */
  lemma Flip(p: Position, side: Side, price: Price, size: Quantity)
    requires Against(p, side) && size > OpenSize(p)
    ensures var q := Positions.Fill(p, side, price, size);
      q.averagePrice == price as real && q.realizedPnl == p.realizedPnl + Gain(p, price, OpenSize(p))
  {
  }

  /** A round trip from flat and back realises exactly what was received minus what was paid. */
  lemma RoundTrip(trades: seq<Trade>)
    requires (forall t | t in trades :: t.size > 0) && NetSize(trades) == 0
    ensures var q := FillAll(FLAT, trades);
      q.quantity == 0 && q.averagePrice == 0.0 && q.realizedPnl == (-NetCost(trades)) as real
  {
    FillsAddUp(FLAT, trades);
    FillsSound(FLAT, trades);
    hide FillAll, NetCost, NetSize, TotalSize;
  }

  /** The profit at a mark is the value of the open quantity minus its cost, plus what has been realised. */
  lemma MarkedProfit(trades: seq<Trade>, mark: real)
    requires forall t | t in trades :: t.size > 0
    ensures var q := FillAll(FLAT, trades);
      && Pnl(q, mark) == q.realizedPnl + (mark - q.averagePrice) * q.quantity as real
      && Pnl(q, mark) == NetSize(trades) as real * mark - NetCost(trades) as real
  {
    hide FillAll, NetCost, NetSize, TotalSize;
    FillsAddUp(FLAT, trades);
    FillsSound(FLAT, trades);
    var q := FillAll(FLAT, trades);
    Marked(q.cash as real, q.quantity as real, q.averagePrice, mark);
  }

  lemma Marked(cash: real, quantity: real, average: real, mark: real)
    ensures cash + quantity * mark == cash + quantity * average + (mark - average) * quantity
  {
  }
}
