/** Reading the book: the price-time visitor, the best prices and the views, over the level maps. */
module BookQueries {
  import opened Types
  import opened BookModel
  import opened OrderBooks

  datatype OrderView = OrderView(id: OrderId, side: Side, price: Price, quantity: Quantity)

  datatype LevelView = LevelView(side: Side, price: Price, aggregate: nat, orders: seq<Entry>)

  function ViewOf(side: Side, e: Entry): OrderView {
    OrderView(e.id, side, e.price, e.quantity)
  }

  // ---- The first level of an ordered map ----------------------------------

  lemma BestUnique(side: Side, prices: set<Price>, p: Price)
    requires IsBest(side, prices, p)
    ensures p == Best(side, prices)
  {
    assert IsBest(side, prices, Best(side, prices));
  }

  method FirstPrice(side: Side, prices: set<Price>) returns (p: Price)
    requires prices != {}
    ensures IsBest(side, prices, p) && p == Best(side, prices)
  {
    p :| p in prices;
    var todo := prices - {p};
    while todo != {}
      invariant p in prices && todo <= prices && forall q | q in prices - todo :: NoWorse(side, p, q)
      decreases todo
    {
      var q :| q in todo;
      if !NoWorse(side, p, q) {
        assert forall x | x in prices - todo :: NoWorse(side, p, x) ==> NoWorse(side, q, x);
        p := q;
      }
      todo := todo - {q};
    }
    BestUnique(side, prices, p);
  }

  /** The levels at the given prices, one after the other. */
  function Joined(prices: seq<Price>, levels: Levels): seq<Entry> {
    if prices == [] then [] else LevelEntries(levels, prices[0]) + Joined(prices[1..], levels)
  }

  lemma {:induction false} JoinedWithout(prices: seq<Price>, levels: Levels, p: Price)
    requires p !in prices
    ensures Joined(prices, levels - {p}) == Joined(prices, levels)
  {
    if prices != [] {
      JoinedWithout(prices[1..], levels, p);
    }
  }

  lemma FlattenNext(side: Side, levels: Levels, p: Price)
    requires levels != map[] && p == Best(side, levels.Keys)
    ensures p in levels && Flatten(side, levels) == LevelEntries(levels, p) + Flatten(side, levels - {p})
  {
  }

  /** The prices of an ordered level map, in the order of iteration. */
  method PricesInOrder(side: Side, levels: Levels) returns (prices: seq<Price>)
    ensures Joined(prices, levels) == Flatten(side, levels)
    ensures |prices| == |levels| && forall p :: p in prices <==> p in levels
    decreases levels.Keys
  {
    if levels == map[] {
      return [];
    }
    var p := FirstPrice(side, levels.Keys);
    FlattenNext(side, levels, p);
    hide Flatten, Best, IsBest, LevelEntries;
    var rest := PricesInOrder(side, levels - {p});
    JoinedWithout(rest, levels, p);
    assert (levels - {p}).Keys == levels.Keys - {p};
    prices := [p] + rest;
    assert prices[1..] == rest;
  }

  lemma JoinedFrom(prices: seq<Price>, levels: Levels, k: nat)
    requires k < |prices|
    ensures Joined(prices[k..], levels) == LevelEntries(levels, prices[k]) + Joined(prices[k + 1..], levels)
  {
    assert prices[k..][0] == prices[k] && prices[k..][1..] == prices[k + 1..];
  }

  // ---- The visitor --------------------------------------------------------

  /** The visitor of `for_each_order` goes on as long as it likes what it has seen so far. */
  type Visitor = seq<Entry> -> bool

  /** The part of a queue that is visited: up to and including the first refusal. */
  ghost predicate VisitedFrom(before: seq<Entry>, queue: seq<Entry>, keep: Visitor, visited: seq<Entry>) {
    && |before| <= |visited| && visited <= before + queue
    && (forall k | |before| < k < |visited| :: keep(visited[..k]))
    && (|visited| < |before + queue| ==> |visited| > |before| && !keep(visited))
  }

  /** Visits the nodes of one level. */
  method VisitLevel(levels: Levels, p: Price, keep: Visitor, before: seq<Entry>)
      returns (visited: seq<Entry>, stopped: bool)
    requires p in levels
    ensures VisitedFrom(before, LevelEntries(levels, p), keep, visited)
    ensures stopped ==> |visited| > |before| && !keep(visited)
    ensures !stopped ==> visited == before + LevelEntries(levels, p) && (LevelEntries(levels, p) != [] ==> keep(visited))
  {
    visited := before;
    var nodes := levels[p].nodes;
    ghost var all := Entries(p, nodes);
    for k := 0 to |nodes|
      invariant visited == before + all[..k]
      invariant forall j | |before| < j <= |visited| :: keep(visited[..j])
    {
      ghost var was := visited;
      visited := visited + [Entry(nodes[k].id, p, nodes[k].quantity)];
      assert visited == before + all[..k + 1] && visited[..|visited|] == visited;
      assert forall j | 0 <= j <= |was| :: visited[..j] == was[..j];
      if !keep(visited) {
        return visited, true;
      }
    }
    assert visited[..|visited|] == visited;
    stopped := false;
  }

  /** The nested loop: best level first, FIFO within a level, until the visitor stops. */
  method Visit(side: Side, levels: Levels, keep: Visitor) returns (visited: seq<Entry>)
    ensures VisitedFrom([], Flatten(side, levels), keep, visited)
  {
    hide Flatten, VisitedFrom, Joined, LevelEntries;
    visited := [];
    var prices := PricesInOrder(side, levels);
    ghost var queue := Flatten(side, levels);
    Ends(prices, levels);
    for k := 0 to |prices|
      invariant queue == visited + Joined(prices[k..], levels)
      invariant forall j | 0 < j <= |visited| :: keep(visited[..j])
    {
      var p := prices[k];
      JoinedFrom(prices, levels, k);
      ghost var before, level, rest := visited, LevelEntries(levels, p), Joined(prices[k + 1..], levels);
      assert queue == before + level + rest;
      var stopped: bool;
      visited, stopped := VisitLevel(levels, p, keep, visited);
      SoFar(before, level, keep, visited);
      if stopped {
        StoppedEarly(before, level, rest, keep, visited);
        return;
      }
      AllLiked(before, level, keep, visited);
    }
    VisitedAll(visited, keep);
  }

  lemma Ends(prices: seq<Price>, levels: Levels)
    ensures Joined(prices[|prices|..], levels) == [] && prices[0..] == prices
    ensures forall q: seq<Entry> :: [] + q == q && q + [] == q
  {
  }

  lemma StoppedEarly(before: seq<Entry>, level: seq<Entry>, rest: seq<Entry>, keep: Visitor, visited: seq<Entry>)
    requires VisitedFrom(before, level, keep, visited) && |visited| > |before| && !keep(visited)
    requires forall k | 0 < k < |visited| :: keep(visited[..k])
    ensures VisitedFrom([], before + level + rest, keep, visited)
  {
    assert [] + (before + level + rest) == before + level + rest;
  }

  lemma AllLiked(before: seq<Entry>, level: seq<Entry>, keep: Visitor, visited: seq<Entry>)
    requires visited == before + level && (level != [] ==> keep(visited))
    requires forall k | 0 < k <= |before| :: keep(before[..k])
    requires forall k | 0 < k < |visited| :: keep(visited[..k])
    ensures forall k | 0 < k <= |visited| :: keep(visited[..k])
  {
    assert visited[..|visited|] == visited;
    if level == [] {
      assert visited == before && before[..|before|] == before;
    }
  }

  lemma VisitedAll(visited: seq<Entry>, keep: Visitor)
    requires forall k | 0 < k <= |visited| :: keep(visited[..k])
    ensures VisitedFrom([], visited, keep, visited)
  {
    assert [] + visited == visited;
  }

  lemma SoFar(before: seq<Entry>, level: seq<Entry>, keep: Visitor, visited: seq<Entry>)
    requires VisitedFrom(before, level, keep, visited)
    requires forall k | 0 < k <= |before| :: keep(before[..k])
    ensures forall k | 0 < k < |visited| :: keep(visited[..k])
  {
    forall k | 0 < k < |visited| ensures keep(visited[..k]) {
      if k <= |before| {
        assert visited[..k] == before[..k];
      }
    }
  }

  // ---- Views of the levels ------------------------------------------------

  /** All the orders of a list of level views. */
  function AllOrders(views: seq<LevelView>): seq<Entry> {
    if views == [] then [] else AllOrders(views[..|views| - 1]) + views[|views| - 1].orders
  }

  lemma AllOrdersMore(views: seq<LevelView>, v: LevelView)
    ensures AllOrders(views + [v]) == AllOrders(views) + v.orders
  {
    assert (views + [v])[..|views|] == views;
  }

  lemma NoViews()
    ensures AllOrders([]) == []
  {
  }

  lemma Regroup(a: seq<Entry>, b: seq<Entry>, c: seq<Entry>)
    ensures a + (b + c) == a + b + c
  {
  }

  /** A view shows its level. */
  predicate Shows(v: LevelView, side: Side, levels: Levels) {
    && v.side == side && v.price in levels && v.aggregate == levels[v.price].aggregate
    && v.orders == Entries(v.price, levels[v.price].nodes)
  }

  /** Lists the levels of one side, best first. */
  method ListLevels(side: Side, levels: Levels) returns (views: seq<LevelView>)
    ensures AllOrders(views) == Flatten(side, levels)
    ensures |views| == |levels| && forall v | v in views :: Shows(v, side, levels)
  {
    hide Flatten, Joined, AllOrders, Entries;
    views := [];
    assert AllOrders(views) == [] by { NoViews(); }
    var prices := PricesInOrder(side, levels);
    ghost var queue := Flatten(side, levels);
    Ends(prices, levels);
    for k := 0 to |prices|
      invariant queue == AllOrders(views) + Joined(prices[k..], levels)
      invariant |views| == k && forall v | v in views :: Shows(v, side, levels)
    {
      var p := prices[k];
      JoinedFrom(prices, levels, k);
      var view := LevelView(side, p, levels[p].aggregate, Entries(p, levels[p].nodes));
      AllOrdersMore(views, view);
      Regroup(AllOrders(views), view.orders, Joined(prices[k + 1..], levels));
      views := views + [view];
    }
  }

  // ---- The front ----------------------------------------------------------

  lemma FrontNode(rep: Rep, side: Side)
    requires RepOk(rep)
    ensures Flatten(side, rep.At(side)) == [] <==> rep.At(side) == map[]
    ensures rep.At(side) != map[] ==>
      var p := Best(side, rep.At(side).Keys);
      var nodes := rep.At(side)[p].nodes;
      && nodes != [] && Flatten(side, rep.At(side))[0] == Entry(nodes[0].id, p, nodes[0].quantity)
      && nodes[0].id in rep.index
  {
    if rep.At(side) != map[] {
      var p := Best(side, rep.At(side).Keys);
      assert LevelOk(rep, side, p);
      hide RepOk;
      assert rep.At(side)[p].nodes[0] in rep.At(side)[p].nodes;
    }
  }

  function SumEntries(q: seq<Entry>): nat {
    if q == [] then 0 else q[0].quantity + SumEntries(q[1..])
  }

  lemma {:induction false} SumOfNodes(p: Price, nodes: seq<Node>)
    ensures SumEntries(Entries(p, nodes)) == SumQuantity(nodes)
  {
    if nodes != [] {
      SumOfNodes(p, nodes[1..]);
      assert Entries(p, nodes)[1..] == Entries(p, nodes[1..]);
    }
  }

  /** The cached aggregate of the best level is the displayed quantity at the best price. */
  lemma BestAggregate(rep: Rep, side: Side)
    requires RepOk(rep) && rep.At(side) != map[]
    ensures var p := Best(side, rep.At(side).Keys);
      rep.At(side)[p].aggregate == SumEntries(AtPrice(Flatten(side, rep.At(side)), p))
  {
    var p := Best(side, rep.At(side).Keys);
    assert LevelOk(rep, side, p);
    hide RepOk, Flatten;
    FlattenAtPrice(side, rep.At(side), p);
    SumOfNodes(p, rep.At(side)[p].nodes);
  }
}
