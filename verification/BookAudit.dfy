/** The book's own audit: it accepts exactly the consistent representations. */
module BookAudit {
  import opened Types
  import opened OrderBooks

  ghost function NodeIds(nodes: seq<Node>): set<OrderId> {
    set n | n in nodes :: n.id
  }

  /** A node is live and indexed where it stands. */
  predicate NodeOk(index: map<OrderId, Location>, side: Side, p: Price, n: Node) {
    n.quantity > 0 && n.id in index && index[n.id] == Location(side, p, n.slot)
  }

  ghost predicate NodesOk(index: map<OrderId, Location>, side: Side, p: Price, nodes: seq<Node>) {
    DistinctNodes(nodes) && forall n | n in nodes :: NodeOk(index, side, p, n)
  }

  lemma NodesGrow(nodes: seq<Node>, k: nat, index: map<OrderId, Location>, side: Side, p: Price)
    requires k < |nodes| && NodesOk(index, side, p, nodes[..k])
    ensures NodesOk(index, side, p, nodes[..k + 1])
            <==> NodeOk(index, side, p, nodes[k]) && nodes[k].id !in NodeIds(nodes[..k])
    ensures NodeIds(nodes[..k + 1]) == NodeIds(nodes[..k]) + {nodes[k].id}
  {
    var a, b := nodes[..k], nodes[..k + 1];
    assert b == a + [nodes[k]];
    if NodesOk(index, side, p, b) {
      assert nodes[k] in b;
      forall n | n in a ensures n.id != nodes[k].id {
        var j :| 0 <= j < k && a[j] == n;
        assert b[j].id != b[k].id;
      }
    }
    if NodeOk(index, side, p, nodes[k]) && nodes[k].id !in NodeIds(a) {
      forall i, j | 0 <= i < j < |b| ensures b[i].id != b[j].id {
        assert b[i] in a;
      }
    }
  }

  lemma NodesShrink(nodes: seq<Node>, k: nat, index: map<OrderId, Location>, side: Side, p: Price)
    requires k <= |nodes| && NodesOk(index, side, p, nodes)
    ensures NodesOk(index, side, p, nodes[..k])
    ensures NodeIds(nodes[..k]) <= NodeIds(nodes)
  {
  }

  /** Checks the nodes of one level against the index and against the orders seen before. */
  method CheckNodes(nodes: seq<Node>, index: map<OrderId, Location>, side: Side, p: Price, seen: set<OrderId>)
      returns (ok: bool, all: set<OrderId>, total: nat)
    ensures ok <==> NodesOk(index, side, p, nodes) && NodeIds(nodes) !! seen
    ensures ok ==> all == seen + NodeIds(nodes) && |all| == |seen| + |nodes| && total == SumQuantity(nodes)
  {
    hide NodesOk, NodeIds, SumQuantity;
    all, total := seen, 0;
    NoNodes(nodes, index, side, p);
    for k := 0 to |nodes|
      invariant NodesOk(index, side, p, nodes[..k]) && NodeIds(nodes[..k]) !! seen
      invariant all == seen + NodeIds(nodes[..k]) && |all| == |seen| + k
      invariant total == SumQuantity(nodes[..k])
    {
      var n := nodes[k];
      NodesGrow(nodes, k, index, side, p);
      SumPrefix(nodes, k);
      if n.quantity == 0 || n.id in all || n.id !in index || index[n.id] != Location(side, p, n.slot) {
        if NodesOk(index, side, p, nodes) {
          NodesShrink(nodes, k + 1, index, side, p);
        }
        return false, all, total;
      }
      all := all + {n.id};
      total := total + n.quantity;
    }
    assert nodes[..|nodes|] == nodes;
    ok := true;
  }

  lemma NoNodes(nodes: seq<Node>, index: map<OrderId, Location>, side: Side, p: Price)
    ensures NodesOk(index, side, p, nodes[..0]) && NodeIds(nodes[..0]) == {} && SumQuantity(nodes[..0]) == 0
  {
  }

  lemma SumPrefix(nodes: seq<Node>, k: nat)
    requires k < |nodes|
    ensures SumQuantity(nodes[..k + 1]) == SumQuantity(nodes[..k]) + nodes[k].quantity
  {
    assert nodes[..k + 1] == nodes[..k] + [nodes[k]];
    SumAppend(nodes[..k], nodes[k]);
  }

  // ---- One side -----------------------------------------------------------

  ghost predicate GoodLevel(levels: Levels, index: map<OrderId, Location>, side: Side, p: Price)
    requires p in levels
  {
    && p > 0 && levels[p].nodes != [] && levels[p].aggregate == SumQuantity(levels[p].nodes)
    && NodesOk(index, side, p, levels[p].nodes)
  }

  ghost predicate GoodSide(levels: Levels, index: map<OrderId, Location>, side: Side) {
    forall p | p in levels :: GoodLevel(levels, index, side, p)
  }

  ghost function IdsAt(levels: Levels, prices: set<Price>): set<OrderId> {
    set p, n | p in prices && p in levels && n in levels[p].nodes :: n.id
  }

  /** In a good side an order stands at one price only. */
  lemma LevelsApart(levels: Levels, index: map<OrderId, Location>, side: Side, p: Price, done: set<Price>)
    requires p in levels && p !in done && done <= levels.Keys
    requires GoodLevel(levels, index, side, p) && forall q | q in done :: GoodLevel(levels, index, side, q)
    ensures NodeIds(levels[p].nodes) !! IdsAt(levels, done)
  {
    forall q, m | q in done && m in levels[q].nodes ensures m.id in index && index[m.id].price != p {
      assert NodeOk(index, side, q, m);
    }
    forall n | n in levels[p].nodes ensures n.id in index && index[n.id].price == p {
      assert NodeOk(index, side, p, n);
    }
  }

  lemma IdsGrow(levels: Levels, done: set<Price>, p: Price)
    requires p in levels
    ensures IdsAt(levels, done + {p}) == IdsAt(levels, done) + NodeIds(levels[p].nodes)
  {
  }

  method CheckSide(levels: Levels, index: map<OrderId, Location>, side: Side, seen: set<OrderId>)
      returns (ok: bool, all: set<OrderId>)
    ensures ok <==> GoodSide(levels, index, side) && IdsAt(levels, levels.Keys) !! seen
    ensures ok ==> all == seen + IdsAt(levels, levels.Keys)
  {
    hide NodesOk, NodeIds, IdsAt, SumQuantity;
    all := seen;
    var todo := levels.Keys;
    NoIds(levels);
    while todo != {}
      invariant todo <= levels.Keys
      invariant forall p | p in levels.Keys - todo :: GoodLevel(levels, index, side, p)
      invariant all == seen + IdsAt(levels, levels.Keys - todo)
      invariant IdsAt(levels, levels.Keys - todo) !! seen
      decreases todo
    {
      var p :| p in todo;
      ghost var done := levels.Keys - todo;
      var level := levels[p];
      IdsGrow(levels, done, p);
      IdsWithin(levels, done + {p});
      if GoodLevel(levels, index, side, p) {
        LevelsApart(levels, index, side, p, done);
      }
      if p == 0 || level.nodes == [] {
        return false, all;
      }
      var good, more, total := CheckNodes(level.nodes, index, side, p, all);
      if !good || total != level.aggregate {
        return false, all;
      }
      all := more;
      todo := todo - {p};
      assert levels.Keys - todo == done + {p};
    }
    assert levels.Keys - todo == levels.Keys;
    ok := true;
  }

  lemma NoIds(levels: Levels)
    ensures IdsAt(levels, levels.Keys - levels.Keys) == {}
  {
  }

  lemma IdsWithin(levels: Levels, prices: set<Price>)
    requires prices <= levels.Keys
    ensures IdsAt(levels, prices) <= IdsAt(levels, levels.Keys)
  {
  }

  // ---- The whole book -----------------------------------------------------

  /** The audit of the book: true exactly for the consistent representations. */
  method ValidateInvariants(rep: Rep) returns (ok: bool)
    ensures ok <==> RepOk(rep)
  {
    hide GoodSide, IdsAt, RepOk;
    Accepts(rep);
    var good, seen := CheckSide(rep.bids, rep.index, Bid, {});
    if !good {
      return false;
    }
    good, seen := CheckSide(rep.asks, rep.index, Ask, seen);
    if !good {
      return false;
    }
    ok := rep.index.Keys <= seen;
  }

  lemma SidesAreLevels(rep: Rep, side: Side)
    ensures GoodSide(rep.At(side), rep.index, side) <==> forall p | p in rep.At(side) :: LevelOk(rep, side, p)
  {
    forall p | p in rep.At(side)
      ensures GoodLevel(rep.At(side), rep.index, side, p) <==> LevelOk(rep, side, p)
    {
    }
  }

  /** What the audit checks is what consistency means. */
  lemma Accepts(rep: Rep)
    ensures RepOk(rep) <==>
            && GoodSide(rep.bids, rep.index, Bid) && GoodSide(rep.asks, rep.index, Ask)
            && IdsAt(rep.asks, rep.asks.Keys) !! IdsAt(rep.bids, rep.bids.Keys)
            && rep.index.Keys <= IdsAt(rep.bids, rep.bids.Keys) + IdsAt(rep.asks, rep.asks.Keys)
  {
    hide GoodSide, LevelOk;
    SidesAreLevels(rep, Bid);
    SidesAreLevels(rep, Ask);
    assert rep.At(Bid) == rep.bids && rep.At(Ask) == rep.asks;
    if GoodSide(rep.bids, rep.index, Bid) && GoodSide(rep.asks, rep.index, Ask) {
      SidesDisjoint(rep);
      forall id | id in rep.index
        ensures Points(rep, id) <==> id in IdsAt(rep.bids, rep.bids.Keys) + IdsAt(rep.asks, rep.asks.Keys)
      {
        PointsIsListed(rep, id);
      }
    }
  }

  lemma SidesDisjoint(rep: Rep)
    requires GoodSide(rep.bids, rep.index, Bid) && GoodSide(rep.asks, rep.index, Ask)
    ensures IdsAt(rep.asks, rep.asks.Keys) !! IdsAt(rep.bids, rep.bids.Keys)
  {
    forall id | id in IdsAt(rep.asks, rep.asks.Keys) ensures id !in IdsAt(rep.bids, rep.bids.Keys) {
      ListedSide(rep.asks, rep.index, Ask, id);
      if id in IdsAt(rep.bids, rep.bids.Keys) {
        ListedSide(rep.bids, rep.index, Bid, id);
      }
    }
  }

  lemma ListedSide(levels: Levels, index: map<OrderId, Location>, side: Side, id: OrderId)
    requires GoodSide(levels, index, side) && id in IdsAt(levels, levels.Keys)
    ensures id in index && index[id].side == side && index[id].price in levels
    ensures HasNode(levels[index[id].price].nodes, id, index[id].slot)
  {
    var p, n :| p in levels.Keys && p in levels && n in levels[p].nodes && n.id == id;
    assert GoodLevel(levels, index, side, p);
    assert NodeOk(index, side, p, n);
  }

  lemma PointsIsListed(rep: Rep, id: OrderId)
    requires GoodSide(rep.bids, rep.index, Bid) && GoodSide(rep.asks, rep.index, Ask) && id in rep.index
    ensures Points(rep, id) <==> id in IdsAt(rep.bids, rep.bids.Keys) + IdsAt(rep.asks, rep.asks.Keys)
  {
    var l := rep.index[id];
    if Points(rep, id) {
      var n :| n in rep.At(l.side)[l.price].nodes && n.id == id && n.slot == l.slot;
      assert id in IdsAt(rep.At(l.side), rep.At(l.side).Keys);
    }
    if id in IdsAt(rep.bids, rep.bids.Keys) {
      ListedSide(rep.bids, rep.index, Bid, id);
    } else if id in IdsAt(rep.asks, rep.asks.Keys) {
      ListedSide(rep.asks, rep.index, Ask, id);
    }
  }
}
