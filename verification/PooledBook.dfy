/**
 The order book object. Every allocating step may fail; a failed operation puts
 back exactly what it had changed.
 */
module PooledBooks {
  import opened Types
  import opened BookModel
  import opened OrderBooks
  import opened BookQueries

  /** Which of an operation's allocations succeed: a level, a queue node, an index entry. */
  datatype Allocations = Allocations(level: bool, node: bool, index: bool)

  /** All the storage an operation at `price` asks for is granted. */
  predicate Granted(levels: Levels, price: Price, a: Allocations) {
    (price in levels || a.level) && a.node && a.index
  }

  lemma UndoLevel(levels: Levels, price: Price, level: Level)
    requires price !in levels
    ensures levels[price := level] - {price} == levels
  {
  }

  class OrderBook {
    const capacity: nat
    var bids: Levels
    var asks: Levels
    var index: map<OrderId, Location>
    var free: set<nat>

    ghost function Layout(): Rep
      reads this
    {
      Rep(bids, asks, index)
    }

    ghost predicate Valid()
      reads this
    {
      RepOk(Layout()) && PoolOk(index, free, capacity)
    }

    /** The meaning of the book: two queues in price-time priority. */
    ghost function Contents(): Book
      reads this
    {
      View(Layout())
    }

    constructor (capacity: nat)
      ensures Valid() && Contents() == EMPTY && this.capacity == capacity
    {
      this.capacity := capacity;
      bids, asks, index := map[], map[], map[];
      free := Slots(capacity);
    }

    // ---- Adding -----------------------------------------------------------

    /** Appends a node to the level at `price`, creating the level if need be; rolls back on any failure. */
    method AddTo(levels: Levels, side: Side, price: Price, id: OrderId, quantity: Quantity, a: Allocations)
        returns (r: Levels, result: ApplyResult)
      modifies `index, `free
      ensures result == Ok <==> free != old(free)
      ensures result == Ok <==> Granted(levels, price, a) && old(free) != {}
      ensures result == Ok ==>
                exists slot :: slot in old(free) && free == old(free) - {slot}
                  && index == old(index)[id := Location(side, price, slot)]
                  && r == levels[price := Level(LevelAt(levels, price).nodes + [Node(slot, id, quantity)],
                                                LevelAt(levels, price).aggregate + quantity)]
      ensures result != Ok ==> result == AllocationFailed && r == levels && index == old(index) && free == old(free)
    {
      r := levels;
      var created := false;
      if price !in r {
        if !a.level {
          return levels, AllocationFailed;
        }
        r := r[price := Level([], 0)];
        created := true;
        UndoLevel(levels, price, Level([], 0));
      }
      if free == {} || !a.node {
        if created {
          r := r - {price};
        }
        return r, AllocationFailed;
      }
      var slot :| slot in free;
      free := free - {slot};
      var before := r[price];
      r := r[price := before.(nodes := before.nodes + [Node(slot, id, quantity)])];
      if !a.index {
        r := r[price := r[price].(nodes := r[price].nodes[..|r[price].nodes| - 1])];
        free := free + {slot};
        if created {
          r := r - {price};
        }
        return r, AllocationFailed;
      }
      index := index[id := Location(side, price, slot)];
      r := r[price := r[price].(aggregate := r[price].aggregate + quantity)];
      return r, Ok;
    }

    method Add(id: OrderId, side: Side, price: Price, quantity: Quantity, a: Allocations) returns (result: ApplyResult)
      requires Valid()
      modifies this
      ensures Valid()
      ensures var want := BookModel.Add(old(Contents()), capacity, id, side, price, quantity);
              if want.1 == Ok && Granted(old(Layout()).At(side), price, a)
              then result == Ok && Contents() == want.0
              else
                && result == (if want.1 == Ok then AllocationFailed else want.1)
                && Layout() == old(Layout()) && free == old(free)
    {
      hide RepOk, View, PoolOk, BookModel.Add;
      ghost var rep, was := Layout(), free;
      AddRefusals(rep, free, capacity, id, side, price, quantity);
      if quantity == 0 {
        return BadQuantity;
      }
      if price == 0 {
        return BadPrice;
      }
      if id in index {
        return DuplicateId;
      }
      if side == Bid {
        bids, result := AddTo(bids, side, price, id, quantity, a);
      } else {
        asks, result := AddTo(asks, side, price, id, quantity, a);
      }
      if result == Ok {
        ghost var slot :| slot in was && free == was - {slot}
          && index == rep.index[id := Location(side, price, slot)]
          && Layout().At(side) == rep.At(side)[price :=
               Level(LevelAt(rep.At(side), price).nodes + [Node(slot, id, quantity)],
                     LevelAt(rep.At(side), price).aggregate + quantity)];
        ghost var n := Node(slot, id, quantity);
        AppendOutcome(rep, was, capacity, side, price, n);
        assert Layout() == Appended(rep, side, price, n);
      }
    }

    // ---- Cancelling and executing -----------------------------------------

    method Cancel(id: OrderId) returns (result: ApplyResult)
      requires Valid()
      modifies this
      ensures Valid()
      ensures (Contents(), result) == CancelOrder(old(Contents()), id)
      ensures result != Ok ==> Layout() == old(Layout()) && free == old(free)
    {
      hide RepOk, View, PoolOk, CancelOrder;
      ghost var rep := Layout();
      if id !in index {
        Unknown(rep, id, 0);
        return UnknownId;
      }
      EraseOutcome(rep, free, capacity, id);
      var l := index[id];
      if l.side == Bid {
        bids := LevelsWithout(bids, l.price, l.slot);
      } else {
        asks := LevelsWithout(asks, l.price, l.slot);
      }
      index := index - {id};
      free := free + {l.slot};
      result := Ok;
      assert Layout() == Erased(rep, id);
    }

    method Execute(id: OrderId, quantity: Quantity) returns (result: ApplyResult)
      requires Valid()
      modifies this
      ensures Valid()
      ensures (Contents(), result) == ExecuteOrder(old(Contents()), id, quantity)
      ensures result != Ok ==> Layout() == old(Layout()) && free == old(free)
    {
      hide RepOk, View, PoolOk, CancelOrder, ExecuteOrder, Resize;
      ghost var rep := Layout();
      if id !in index {
        Unknown(rep, id, quantity);
        return UnknownId;
      }
      if quantity == 0 {
        Known(rep, id);
        return BadQuantity;
      }
      ExecuteOutcome(rep, free, capacity, id, quantity);
      var l := index[id];
      var levels := if l.side == Bid then bids else asks;
      var left := NodeAt(levels[l.price].nodes, l.slot).value.quantity;
      if left < quantity {
        return QuantityExceedsRemaining;
      }
      if left == quantity {
        result := Cancel(id);
        EraseOutcome(rep, old(free), capacity, id);
      } else {
        Requantify(id, left - quantity);
        result := Ok;
      }
    }

    /** Sets the quantity of an order in place and keeps the level's aggregate in step. */
    method Requantify(id: OrderId, quantity: Quantity)
      requires Valid() && id in index && quantity > 0
      modifies `bids, `asks
      ensures Valid()
      ensures var l := index[id];
              Contents() == old(Contents()).With(l.side, Resize(old(Contents()).Queue(l.side), id, quantity))
    {
      hide RepOk, View, PoolOk, Resize;
      ghost var rep := Layout();
      ChangeOutcome(rep, free, capacity, id, quantity);
      var l := index[id];
      var levels := if l.side == Bid then bids else asks;
      var level := levels[l.price];
      var was := NodeAt(level.nodes, l.slot).value.quantity;
      var changed := levels[l.price := Level(Resized(level.nodes, l.slot, quantity), level.aggregate - was + quantity)];
      if l.side == Bid {
        bids := changed;
      } else {
        asks := changed;
      }
      assert Layout() == Changed(rep, id, quantity);
    }
  
    // ---- Replacing --------------------------------------------------------

    /** Reserves everything the new order needs, and only then takes the old one out. */
    method MoveTo(levels: Levels, from: Location, prior: OrderId, side: Side, price: Price, id: OrderId,
                  quantity: Quantity, a: Allocations)
        returns (r: Levels, result: ApplyResult)
      requires from.price in levels && NodeAt(levels[from.price].nodes, from.slot).Some?
      requires NodeAt(levels[from.price].nodes, from.slot).value.quantity <= levels[from.price].aggregate
      requires prior in index && from.slot !in free
      modifies `index, `free
      ensures result == Ok <==> (price in levels || a.level) && a.node && (id == prior || a.index) && old(free) != {}
      ensures result == Ok ==>
                exists slot :: slot in old(free) && free == old(free) + {from.slot} - {slot}
                  && index == (old(index) - {prior})[id := Location(side, price, slot)]
                  && r == Moved(levels, from.price, from.slot, price, Node(slot, id, quantity))
      ensures result != Ok ==> result == AllocationFailed && r == levels && index == old(index) && free == old(free)
    {
      hide NodeAt, Without;
      r := levels;
      var created := false;
      if price !in r {
        if !a.level {
          return levels, AllocationFailed;
        }
        r := r[price := Level([], 0)];
        created := true;
        UndoLevel(levels, price, Level([], 0));
      }
      if free == {} || !a.node {
        if created {
          r := r - {price};
        }
        return r, AllocationFailed;
      }
      var slot :| slot in free;
      free := free - {slot};
      var n := Node(slot, id, quantity);
      r := r[price := r[price].(nodes := r[price].nodes + [n])];
      if id != prior {
        if !a.index {
          r := r[price := r[price].(nodes := r[price].nodes[..|r[price].nodes| - 1])];
          free := free + {slot};
          if created {
            r := r - {price};
          }
          return r, AllocationFailed;
        }
        index := index[id := Location(side, price, slot)];
      }
      assert r == levels[price := LevelAt(levels, price).(nodes := LevelAt(levels, price).nodes + [n])];
      var was := NodeAt(levels[from.price].nodes, from.slot).value.quantity;
      r := r[from.price := Level(Without(r[from.price].nodes, from.slot), r[from.price].aggregate - was)];
      r := r[price := r[price].(aggregate := r[price].aggregate + quantity)];
      if id == prior {
        index := index[prior := Location(side, price, slot)];
      } else {
        index := index - {prior};
      }
      if r[from.price].nodes == [] {
        r := r - {from.price};
      }
      free := free + {from.slot};
      assert r == Moved(levels, from.price, from.slot, price, n);
      assert index == (old(index) - {prior})[id := Location(side, price, slot)];
      assert free == old(free) + {from.slot} - {slot};
      return r, Ok;
    }

    /** Replaces an order: in place when priority is kept, otherwise behind its new level. */
    method Replace(prior: OrderId, id: OrderId, side: Side, price: Price, quantity: Quantity, keep: bool, a: Allocations)
        returns (result: ApplyResult)
      requires Valid()
      modifies this
      ensures Valid()
      ensures var want := ReplaceOrder(old(Contents()), capacity, prior, id, side, price, quantity, keep);
              if want.1 == Ok && (keep || ((price in old(Layout()).At(side) || a.level) && a.node && (id == prior || a.index)))
              then result == Ok && Contents() == want.0
              else
                && result == (if want.1 == Ok then AllocationFailed else want.1)
                && Layout() == old(Layout()) && free == old(free)
    {
      hide RepOk, View, PoolOk, ReplaceOrder, Moved;
      ghost var rep, was := Layout(), free;
      ReplaceRefusals(rep, free, capacity, prior, id, side, price, quantity, keep);
      if prior !in index {
        return UnknownId;
      }
      if quantity == 0 {
        return BadQuantity;
      }
      if price == 0 {
        return BadPrice;
      }
      var from := index[prior];
      if side != from.side {
        return UnknownId;
      }
      if id != prior && id in index {
        return DuplicateId;
      }
      if keep {
        if price != from.price || id != prior {
          return BadPrice;
        }
        KeepOutcome(rep, free, capacity, id, side, price, quantity);
        Requantify(id, quantity);
        return Ok;
      }
      Reachables(rep, free, capacity, prior);
      assert from.slot !in free;
      if side == Bid {
        bids, result := MoveTo(bids, from, prior, side, price, id, quantity, a);
      } else {
        asks, result := MoveTo(asks, from, prior, side, price, id, quantity, a);
      }
      if result == Ok {
        ghost var slot :| slot in was && free == was + {from.slot} - {slot}
          && index == (rep.index - {prior})[id := Location(side, price, slot)]
          && Layout().At(side) == Moved(rep.At(side), from.price, from.slot, price, Node(slot, id, quantity));
        ghost var n := Node(slot, id, quantity);
        MoveOutcome(rep, was, capacity, prior, price, n);
        MovedLayout(rep, prior, price, n, Layout());
      }
    }

    // ---- Reading ----------------------------------------------------------

    /** Visits the orders of one side in price-time order until the visitor stops. */
    method ForEachOrder(side: Side, keep: Visitor) returns (visited: seq<Entry>)
      ensures VisitedFrom([], Contents().Queue(side), keep, visited)
    {
      hide Flatten, VisitedFrom;
      visited := Visit(side, if side == Bid then bids else asks, keep);
    }

    method BestPrice(side: Side) returns (r: Option<Price>)
      requires Valid()
      ensures r == if Contents().Queue(side) == [] then None else Some(Contents().Queue(side)[0].price)
    {
      hide Flatten, RepOk, PoolOk, Best;
      FrontNode(Layout(), side);
      var levels := if side == Bid then bids else asks;
      if levels == map[] {
        return None;
      }
      var p := FirstPrice(side, levels.Keys);
      return Some(p);
    }

    /** The displayed quantity at the best price, from the cached aggregate. */
    method BestQuantity(side: Side) returns (r: nat)
      requires Valid()
      ensures var q := Contents().Queue(side); r == if q == [] then 0 else SumEntries(AtPrice(q, q[0].price))
    {
      hide Flatten, RepOk, PoolOk, Best, AtPrice, SumEntries;
      FrontNode(Layout(), side);
      var levels := if side == Bid then bids else asks;
      if levels == map[] {
        return 0;
      }
      BestAggregate(Layout(), side);
      var p := FirstPrice(side, levels.Keys);
      return levels[p].aggregate;
    }

    /** One order through the index. */
    method Order(id: OrderId) returns (r: Option<OrderView>)
      requires Valid()
      ensures r.Some? <==> Contents().Has(id)
      ensures r.Some? ==> r.value == ViewOf(SideOf(Contents(), id), Get(Contents().Queue(SideOf(Contents(), id)), id))
    {
      RepConsistent(Layout());
      hide RepOk, PoolOk, View, Consistent;
      if id !in index {
        return None;
      }
      Reaches(Layout(), free, capacity, id);
      var l := index[id];
      var levels := if l.side == Bid then bids else asks;
      return Some(OrderView(id, l.side, l.price, NodeAt(levels[l.price].nodes, l.slot).value.quantity));
    }

    method RemainingQuantity(id: OrderId) returns (r: Option<Quantity>)
      requires Valid()
      ensures r == BookModel.RemainingQuantity(Contents(), id)
    {
      hide RepOk, PoolOk, View;
      var order := Order(id);
      r := if order.None? then None else Some(order.value.quantity);
    }

    method OrderCount() returns (r: nat)
      requires Valid()
      ensures r == Contents().Count()
    {
      RepConsistent(Layout());
      r := |index|;
    }

    /** The oldest order at the best price. */
    method Front(side: Side) returns (r: Option<OrderView>)
      requires Valid()
      ensures var q := Contents().Queue(side); r == if q == [] then None else Some(ViewOf(side, q[0]))
    {
      hide Flatten, RepOk, PoolOk, Best, Consistent, Distinct, HasId, Get;
      FrontNode(Layout(), side);
      var levels := if side == Bid then bids else asks;
      if levels == map[] {
        return None;
      }
      var p := FirstPrice(side, levels.Keys);
      FrontFound(Layout(), side);
      r := Order(levels[p].nodes[0].id);
    }

    /** Level by level, bids before asks, best level first. */
    method Snapshot() returns (views: seq<LevelView>)
      ensures exists n | 0 <= n <= |views| ::
        && AllOrders(views[..n]) == Contents().bids && (forall v | v in views[..n] :: Shows(v, Bid, bids))
        && AllOrders(views[n..]) == Contents().asks && (forall v | v in views[n..] :: Shows(v, Ask, asks))
    {
      hide Flatten, AllOrders, Shows;
      var bidViews := ListLevels(Bid, bids);
      var askViews := ListLevels(Ask, asks);
      views := bidViews + askViews;
      assert views[..|bidViews|] == bidViews && views[|bidViews|..] == askViews;
    }
  }

  /** The first entry of a queue is found under its own number, on its own side. */
  lemma FrontFound(rep: Rep, side: Side)
    requires RepOk(rep) && View(rep).Queue(side) != []
    ensures var e := View(rep).Queue(side)[0];
      && View(rep).Has(e.id) && SideOf(View(rep), e.id) == side && Get(View(rep).Queue(side), e.id) == e
  {
    RepConsistent(rep);
    hide RepOk, Flatten;
    var q := View(rep).Queue(side);
    assert q[0] in q;
    GetUnique(q, q[0]);
  }

  lemma Reachables(rep: Rep, free: set<nat>, capacity: nat, id: OrderId)
    requires RepOk(rep) && PoolOk(rep.index, free, capacity) && id in rep.index
    ensures Reachable(rep, id) && rep.index[id].slot !in free
    ensures var l := rep.index[id];
            rep.At(l.side)[l.price].aggregate == SumQuantity(rep.At(l.side)[l.price].nodes)
  {
    assert Points(rep, id);
    assert LevelOk(rep, rep.index[id].side, rep.index[id].price);
    hide RepOk;
    Reaches(rep, free, capacity, id);
  }

  /** The layout after a move is that of erasing and appending. */
  lemma MovedLayout(rep: Rep, prior: OrderId, price: Price, n: Node, after: Rep)
    requires Reachable(rep, prior) && n.slot != rep.index[prior].slot
    requires var l := rep.index[prior];
             rep.At(l.side)[l.price].aggregate == SumQuantity(rep.At(l.side)[l.price].nodes)
    requires var l := rep.index[prior];
             && after.At(l.side) == Moved(rep.At(l.side), l.price, l.slot, price, n)
             && after.At(l.side.Opposite()) == rep.At(l.side.Opposite())
             && after.index == (rep.index - {prior})[n.id := Location(l.side, price, n.slot)]
    ensures after == Appended(Erased(rep, prior), rep.index[prior].side, price, n)
  {
    var l := rep.index[prior];
    hide NodeAt, Without, DistinctSlots, Moved, SumQuantity, LevelsWithout;
    MovedIs(rep.At(l.side), l.price, l.slot, price, n);
  }

  /** The slots of a pool. */
  function Slots(capacity: nat): (r: set<nat>)
    ensures forall x | x in r :: x < capacity
    ensures |r| == capacity
  {
    if capacity == 0 then {} else Slots(capacity - 1) + {capacity - 1}
  }
}
