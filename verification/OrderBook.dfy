/**
 The pooled order book: price levels holding FIFO queues of pool nodes, cached
 aggregates and an index from order ID to node. It refines the price-time book of
 `BookModel`, under any choice of failing allocations.
 */
module OrderBooks {
  import opened Types
  import opened BookModel

  /** A queue node; `slot` is its address in the pool, and so what an iterator to it denotes. */
  datatype Node = Node(slot: nat, id: OrderId, quantity: Quantity)

  datatype Level = Level(nodes: seq<Node>, aggregate: nat)

  datatype Location = Location(side: Side, price: Price, slot: nat)

  type Levels = map<Price, Level>

  // ---- Meaning ------------------------------------------------------------

  function Entries(p: Price, nodes: seq<Node>): (r: seq<Entry>)
    ensures |r| == |nodes|
    ensures forall k | 0 <= k < |nodes| :: r[k] == Entry(nodes[k].id, p, nodes[k].quantity)
  {
    if nodes == [] then [] else [Entry(nodes[0].id, p, nodes[0].quantity)] + Entries(p, nodes[1..])
  }

  function LevelEntries(levels: Levels, p: Price): seq<Entry> {
    if p in levels then Entries(p, levels[p].nodes) else []
  }

  ghost predicate IsBest(side: Side, prices: set<Price>, p: Price) {
    p in prices && forall q | q in prices :: NoWorse(side, p, q)
  }

  lemma {:induction false} BestExists(side: Side, prices: set<Price>)
    requires prices != {}
    ensures exists p :: IsBest(side, prices, p)
    decreases prices
  {
    var p :| p in prices;
    if prices == {p} {
      assert IsBest(side, prices, p);
    } else {
      BestExists(side, prices - {p});
      var q :| IsBest(side, prices - {p}, q);
      var b := if NoWorse(side, p, q) then p else q;
      forall x | x in prices ensures NoWorse(side, b, x) {
        assert x == p || x in prices - {p};
      }
      assert IsBest(side, prices, b);
    }
  }

  ghost function Best(side: Side, prices: set<Price>): (p: Price)
    requires prices != {}
    ensures IsBest(side, prices, p)
  {
    BestExists(side, prices);
    var p :| IsBest(side, prices, p);
    p
  }

  /** The queue an iteration over an ordered level map visits: best level first, FIFO within it. */
  ghost function Flatten(side: Side, levels: Levels): seq<Entry>
    decreases levels.Keys
  {
    if levels == map[] then [] else
    var p := Best(side, levels.Keys);
    Entries(p, levels[p].nodes) + Flatten(side, levels - {p})
  }

  lemma {:induction false} FlattenPrices(side: Side, levels: Levels, e: Entry)
    ensures e in Flatten(side, levels) ==> e.price in levels
    decreases levels.Keys
  {
    if levels != map[] {
      var p := Best(side, levels.Keys);
      FlattenPrices(side, levels - {p}, e);
    }
  }

  lemma {:induction false} OrderedAppend(side: Side, a: seq<Entry>, b: seq<Entry>)
    requires Ordered(side, a) && Ordered(side, b)
    requires forall x, y | x in a && y in b :: NoWorse(side, x.price, y.price)
    ensures Ordered(side, a + b)
    decreases |a|
  {
    if a == [] {
      assert a + b == b;
    } else {
      assert (a + b)[1..] == a[1..] + b;
      OrderedAppend(side, a[1..], b);
    }
  }

  lemma {:induction false} EntriesOrdered(side: Side, p: Price, nodes: seq<Node>)
    ensures Ordered(side, Entries(p, nodes))
    decreases |nodes|
  {
    if nodes != [] {
      EntriesOrdered(side, p, nodes[1..]);
      assert Entries(p, nodes)[1..] == Entries(p, nodes[1..]);
      forall e | e in Entries(p, nodes[1..]) ensures e.price == p {
      }
    }
  }

  lemma {:induction false} FlattenOrdered(side: Side, levels: Levels)
    ensures Ordered(side, Flatten(side, levels))
    decreases levels.Keys
  {
    if levels != map[] {
      var p := Best(side, levels.Keys);
      FlattenOrdered(side, levels - {p});
      EntriesOrdered(side, p, levels[p].nodes);
      var a, b := Entries(p, levels[p].nodes), Flatten(side, levels - {p});
      forall x, y | x in a && y in b ensures NoWorse(side, x.price, y.price) {
        FlattenPrices(side, levels - {p}, y);
      }
      OrderedAppend(side, a, b);
    }
  }

  lemma {:induction false} AtPriceAppend(a: seq<Entry>, b: seq<Entry>, p: Price)
    ensures AtPrice(a + b, p) == AtPrice(a, p) + AtPrice(b, p)
    decreases |a|
  {
    if a == [] {
      assert a + b == b;
    } else {
      assert (a + b)[1..] == a[1..] + b;
      AtPriceAppend(a[1..], b, p);
    }
  }

  lemma {:induction false} EntriesAtPrice(q: Price, nodes: seq<Node>, p: Price)
    ensures AtPrice(Entries(q, nodes), p) == if p == q then Entries(q, nodes) else []
    decreases |nodes|
  {
    if nodes != [] {
      EntriesAtPrice(q, nodes[1..], p);
      assert Entries(q, nodes)[1..] == Entries(q, nodes[1..]);
    }
  }

  /** Each level of the flattened queue is that level's FIFO. */
  lemma {:induction false} FlattenAtPrice(side: Side, levels: Levels, p: Price)
    ensures AtPrice(Flatten(side, levels), p) == LevelEntries(levels, p)
    decreases levels.Keys
  {
    if levels != map[] {
      var b := Best(side, levels.Keys);
      FlattenAtPrice(side, levels - {b}, p);
      EntriesAtPrice(b, levels[b].nodes, p);
      AtPriceAppend(Entries(b, levels[b].nodes), Flatten(side, levels - {b}), p);
    }
  }

  /** A queue with the right levels is the flattened queue. */
  lemma FlattenIs(side: Side, levels: Levels, s: seq<Entry>)
    requires Ordered(side, s)
    requires forall p: Price :: AtPrice(s, p) == LevelEntries(levels, p)
    ensures Flatten(side, levels) == s
  {
    FlattenOrdered(side, levels);
    forall p: Price ensures AtPrice(Flatten(side, levels), p) == AtPrice(s, p) {
      FlattenAtPrice(side, levels, p);
    }
    LevelsDetermine(side, Flatten(side, levels), s);
  }

  lemma FlattenMember(side: Side, levels: Levels, e: Entry)
    ensures e in Flatten(side, levels) <==> e in LevelEntries(levels, e.price)
  {
    FlattenAtPrice(side, levels, e.price);
    AtPriceMember(Flatten(side, levels), e.price, e);
  }

  // ---- Changing one level -------------------------------------------------

  function Without(nodes: seq<Node>, slot: nat): seq<Node> {
    if nodes == [] then []
    else if nodes[0].slot == slot then Without(nodes[1..], slot)
    else [nodes[0]] + Without(nodes[1..], slot)
  }

  function Resized(nodes: seq<Node>, slot: nat, quantity: Quantity): seq<Node> {
    if nodes == [] then []
    else [if nodes[0].slot == slot then nodes[0].(quantity := quantity) else nodes[0]] + Resized(nodes[1..], slot, quantity)
  }

  function SumQuantity(nodes: seq<Node>): nat {
    if nodes == [] then 0 else nodes[0].quantity + SumQuantity(nodes[1..])
  }

  /** Within a level, a slot and an order ID denote the same node. */
  ghost predicate Paired(nodes: seq<Node>, id: OrderId, slot: nat) {
    forall n | n in nodes :: n.id == id <==> n.slot == slot
  }

  lemma {:induction false} AtPriceRemove(s: seq<Entry>, id: OrderId, p: Price)
    ensures AtPrice(Remove(s, id), p) == Remove(AtPrice(s, p), id)
    decreases |s|
  {
    if s != [] {
      AtPriceRemove(s[1..], id, p);
      var t := Remove(s[1..], id);
      assert ([s[0]] + t)[1..] == t;
      var u := AtPrice(s[1..], p);
      assert ([s[0]] + u)[1..] == u;
    }
  }

  lemma {:induction false} AtPriceResize(s: seq<Entry>, id: OrderId, q: Quantity, p: Price)
    ensures AtPrice(Resize(s, id, q), p) == Resize(AtPrice(s, p), id, q)
    decreases |s|
  {
    if s != [] {
      AtPriceResize(s[1..], id, q, p);
      assert Resize(s, id, q)[1..] == Resize(s[1..], id, q);
      var u := AtPrice(s[1..], p);
      assert ([s[0]] + u)[1..] == u;
    }
  }

  lemma {:induction false} EntriesWithout(p: Price, nodes: seq<Node>, id: OrderId, slot: nat)
    requires Paired(nodes, id, slot)
    ensures Entries(p, Without(nodes, slot)) == Remove(Entries(p, nodes), id)
    decreases |nodes|
  {
    if nodes != [] {
      assert nodes[0] in nodes;
      EntriesWithout(p, nodes[1..], id, slot);
      assert Entries(p, nodes)[1..] == Entries(p, nodes[1..]);
      var t := Without(nodes[1..], slot);
      assert ([nodes[0]] + t)[1..] == t;
    }
  }

  lemma {:induction false} EntriesResized(p: Price, nodes: seq<Node>, id: OrderId, slot: nat, q: Quantity)
    requires Paired(nodes, id, slot)
    ensures Entries(p, Resized(nodes, slot, q)) == Resize(Entries(p, nodes), id, q)
    decreases |nodes|
  {
    if nodes != [] {
      assert nodes[0] in nodes;
      EntriesResized(p, nodes[1..], id, slot, q);
      assert Entries(p, nodes)[1..] == Entries(p, nodes[1..]);
      assert Resized(nodes, slot, q)[1..] == Resized(nodes[1..], slot, q);
    }
  }

  lemma EntriesAppend(p: Price, nodes: seq<Node>, n: Node)
    ensures Entries(p, nodes + [n]) == Entries(p, nodes) + [Entry(n.id, p, n.quantity)]
  {
  }

  lemma RemoveAbsent(p: Price, nodes: seq<Node>, id: OrderId)
    requires forall n | n in nodes :: n.id != id
    ensures Remove(Entries(p, nodes), id) == Entries(p, nodes)
  {
    forall e | e in Entries(p, nodes) ensures e.id != id {
      var k :| 0 <= k < |nodes| && Entries(p, nodes)[k] == e;
      assert nodes[k] in nodes;
    }
  }

  lemma ResizeAbsent(p: Price, nodes: seq<Node>, id: OrderId, q: Quantity)
    requires forall n | n in nodes :: n.id != id
    ensures Resize(Entries(p, nodes), id, q) == Entries(p, nodes)
  {
    forall k | 0 <= k < |nodes| ensures Resize(Entries(p, nodes), id, q)[k] == Entries(p, nodes)[k] {
      assert nodes[k] in nodes;
    }
  }

  /** No other level mentions the order. */
  ghost predicate OnlyAt(levels: Levels, id: OrderId, price: Price) {
    forall p | p in levels && p != price :: forall n | n in levels[p].nodes :: n.id != id
  }

  /** Appending a node to its level inserts the order behind its price. */
  lemma AppendInserts(side: Side, levels: Levels, levels': Levels, price: Price, n: Node)
    requires forall p | p != price :: LevelEntries(levels', p) == LevelEntries(levels, p)
    requires LevelEntries(levels', price) == LevelEntries(levels, price) + [Entry(n.id, price, n.quantity)]
    ensures Flatten(side, levels') == Insert(side, Flatten(side, levels), Entry(n.id, price, n.quantity))
  {
    hide Flatten, AtPrice, LevelEntries;
    var s := Flatten(side, levels);
    var e := Entry(n.id, price, n.quantity);
    FlattenOrdered(side, levels);
    InsertOrdered(side, s, e);
    forall p: Price ensures AtPrice(Insert(side, s, e), p) == LevelEntries(levels', p) {
      InsertAtPrice(side, s, e, p);
      FlattenAtPrice(side, levels, p);
    }
    FlattenIs(side, levels', Insert(side, s, e));
  }

  lemma {:induction false} InsertOrdered(side: Side, s: seq<Entry>, e: Entry)
    requires Ordered(side, s)
    ensures Ordered(side, Insert(side, s, e))
    decreases |s|
  {
    if s == [] {
    } else if NoWorse(side, s[0].price, e.price) {
      InsertOrdered(side, s[1..], e);
      assert Insert(side, s, e)[1..] == Insert(side, s[1..], e);
    } else {
      assert Insert(side, s, e)[1..] == s;
    }
  }

  lemma {:induction false} RemoveOrdered(side: Side, s: seq<Entry>, id: OrderId)
    requires Ordered(side, s)
    ensures Ordered(side, Remove(s, id))
    decreases |s|
  {
    if s != [] {
      RemoveOrdered(side, s[1..], id);
      if s[0].id != id {
        assert Remove(s, id)[1..] == Remove(s[1..], id);
      }
    }
  }

  lemma {:induction false} ResizeOrdered(side: Side, s: seq<Entry>, id: OrderId, q: Quantity)
    requires Ordered(side, s)
    ensures Ordered(side, Resize(s, id, q))
    decreases |s|
  {
    if s != [] {
      ResizeOrdered(side, s[1..], id, q);
      var r := Resize(s[1..], id, q);
      assert Resize(s, id, q)[1..] == r;
      forall x | x in r ensures NoWorse(side, s[0].price, x.price) {
        var k :| 0 <= k < |r| && r[k] == x;
        assert s[1..][k] in s[1..];
      }
    }
  }

  /** Erasing a node, and its level once empty, removes the order. */
  lemma EraseRemoves(side: Side, levels: Levels, levels': Levels, price: Price, id: OrderId, slot: nat)
    requires price in levels && Paired(levels[price].nodes, id, slot) && OnlyAt(levels, id, price)
    requires forall p | p != price :: LevelEntries(levels', p) == LevelEntries(levels, p)
    requires LevelEntries(levels', price) == Entries(price, Without(levels[price].nodes, slot))
    ensures Flatten(side, levels') == Remove(Flatten(side, levels), id)
  {
    hide Flatten, AtPrice;
    var s := Flatten(side, levels);
    FlattenOrdered(side, levels);
    RemoveOrdered(side, s, id);
    forall p: Price ensures AtPrice(Remove(s, id), p) == LevelEntries(levels', p) {
      AtPriceRemove(s, id, p);
      FlattenAtPrice(side, levels, p);
      if p == price {
        EntriesWithout(p, levels[p].nodes, id, slot);
      } else if p in levels {
        RemoveAbsent(p, levels[p].nodes, id);
      }
    }
    FlattenIs(side, levels', Remove(s, id));
  }

  /** Changing a node's quantity changes the order in place. */
  lemma ResizeResizes(side: Side, levels: Levels, levels': Levels, price: Price, id: OrderId, slot: nat, q: Quantity)
    requires price in levels && Paired(levels[price].nodes, id, slot) && OnlyAt(levels, id, price)
    requires forall p | p != price :: LevelEntries(levels', p) == LevelEntries(levels, p)
    requires LevelEntries(levels', price) == Entries(price, Resized(levels[price].nodes, slot, q))
    ensures Flatten(side, levels') == Resize(Flatten(side, levels), id, q)
  {
    hide Flatten, AtPrice;
    var s := Flatten(side, levels);
    FlattenOrdered(side, levels);
    ResizeOrdered(side, s, id, q);
    forall p: Price ensures AtPrice(Resize(s, id, q), p) == LevelEntries(levels', p) {
      AtPriceResize(s, id, q, p);
      FlattenAtPrice(side, levels, p);
      if p == price {
        EntriesResized(p, levels[p].nodes, id, slot, q);
      } else if p in levels {
        ResizeAbsent(p, levels[p].nodes, id, q);
      }
    }
    FlattenIs(side, levels', Resize(s, id, q));
  }

  // ---- The whole representation -------------------------------------------

  datatype Rep = Rep(bids: Levels, asks: Levels, index: map<OrderId, Location>) {
    function At(side: Side): Levels {
      if side == Bid then bids else asks
    }

    function WithLevels(side: Side, levels: Levels): (r: Rep)
      ensures r.At(side) == levels && r.At(side.Opposite()) == At(side.Opposite()) && r.index == index
    {
      if side == Bid then this.(bids := levels) else this.(asks := levels)
    }
  }

  ghost predicate DistinctNodes(nodes: seq<Node>) {
    forall i, j | 0 <= i < j < |nodes| :: nodes[i].id != nodes[j].id
  }

  /** A level is live, adds up, and every node of it is indexed where it is. */
  ghost predicate LevelOk(rep: Rep, side: Side, p: Price)
    requires p in rep.At(side)
  {
    var level := rep.At(side)[p];
    && p > 0 && level.nodes != [] && level.aggregate == SumQuantity(level.nodes)
    && DistinctNodes(level.nodes)
    && (forall n | n in level.nodes :: n.quantity > 0 && n.id in rep.index && rep.index[n.id] == Location(side, p, n.slot))
  }

  /** An index entry points at a node that exists and is its own. */
  ghost predicate Points(rep: Rep, id: OrderId)
    requires id in rep.index
  {
    var l := rep.index[id];
    l.price in rep.At(l.side) && HasNode(rep.At(l.side)[l.price].nodes, id, l.slot)
  }

  ghost predicate HasNode(nodes: seq<Node>, id: OrderId, slot: nat) {
    exists n :: n in nodes && n.id == id && n.slot == slot
  }

  /** The consistent representations. */
  ghost predicate RepOk(rep: Rep) {
    && (forall side, p | p in rep.At(side) :: LevelOk(rep, side, p))
    && (forall id | id in rep.index :: Points(rep, id))
  }

  /** Every slot of the pool is free or holds exactly one indexed order. */
  ghost predicate PoolOk(index: map<OrderId, Location>, free: set<nat>, capacity: nat) {
    && (forall x | x in free :: x < capacity)
    && (forall id | id in index :: index[id].slot < capacity && index[id].slot !in free)
    && (forall a, b | a in index && b in index && a != b :: index[a].slot != index[b].slot)
    && |free| + |index| == capacity
  }

  ghost function View(rep: Rep): Book {
    Book(Flatten(Bid, rep.bids), Flatten(Ask, rep.asks))
  }

  /** A slot and an order ID name the same node. */
  lemma SlotNamesOrder(rep: Rep, free: set<nat>, capacity: nat, id: OrderId)
    requires RepOk(rep) && PoolOk(rep.index, free, capacity) && id in rep.index
    ensures var l := rep.index[id];
            && l.price in rep.At(l.side)
            && Paired(rep.At(l.side)[l.price].nodes, id, l.slot)
            && OnlyAt(rep.At(l.side), id, l.price)
  {
    var l := rep.index[id];
    assert Points(rep, id);
    forall n | n in rep.At(l.side)[l.price].nodes ensures n.id == id <==> n.slot == l.slot {
      assert LevelOk(rep, l.side, l.price);
    }
    forall p, n | p in rep.At(l.side) && p != l.price && n in rep.At(l.side)[p].nodes ensures n.id != id {
      assert LevelOk(rep, l.side, p);
    }
  }

  // ---- Distinct orders ----------------------------------------------------

  lemma {:induction false} DistinctAppend(a: seq<Entry>, b: seq<Entry>)
    requires Distinct(a) && Distinct(b) && forall x, y | x in a && y in b :: x.id != y.id
    ensures Distinct(a + b)
    decreases |a|
  {
    if a == [] {
      assert a + b == b;
    } else {
      assert (a + b)[1..] == a[1..] + b;
      DistinctAppend(a[1..], b);
    }
  }

  lemma {:induction false} EntriesDistinct(p: Price, nodes: seq<Node>)
    requires DistinctNodes(nodes)
    ensures Distinct(Entries(p, nodes))
    decreases |nodes|
  {
    if nodes != [] {
      EntriesDistinct(p, nodes[1..]);
      assert Entries(p, nodes)[1..] == Entries(p, nodes[1..]);
    }
  }

  /** Every order lives at one price. */
  ghost predicate Housed(levels: Levels, home: map<OrderId, Price>) {
    forall p | p in levels :: forall n | n in levels[p].nodes :: n.id in home && home[n.id] == p
  }

  lemma FlattenHome(side: Side, levels: Levels, home: map<OrderId, Price>, e: Entry)
    requires Housed(levels, home) && e in Flatten(side, levels)
    ensures e.price in levels && e.id in home && home[e.id] == e.price
  {
    hide Flatten;
    FlattenMember(side, levels, e);
    var nodes := levels[e.price].nodes;
    var k :| 0 <= k < |nodes| && Entries(e.price, nodes)[k] == e;
    assert nodes[k] in nodes;
  }

  lemma {:induction false} FlattenDistinct(side: Side, levels: Levels, home: map<OrderId, Price>)
    requires forall p | p in levels :: DistinctNodes(levels[p].nodes)
    requires Housed(levels, home)
    ensures Distinct(Flatten(side, levels))
    decreases levels.Keys
  {
    hide DistinctNodes;
    if levels != map[] {
      var b := Best(side, levels.Keys);
      var rest := levels - {b};
      FlattenDistinct(side, rest, home);
      EntriesDistinct(b, levels[b].nodes);
      forall x, y | x in Entries(b, levels[b].nodes) && y in Flatten(side, rest) ensures x.id != y.id {
        FlattenHome(side, rest, home, y);
        var i :| 0 <= i < |levels[b].nodes| && Entries(b, levels[b].nodes)[i] == x;
        assert levels[b].nodes[i] in levels[b].nodes;
      }
      DistinctAppend(Entries(b, levels[b].nodes), Flatten(side, rest));
    }
  }

  /** An order is in the flattened queue exactly as its node is in its level. */
  lemma FlattenNode(rep: Rep, side: Side, e: Entry)
    requires RepOk(rep)
    ensures e in Flatten(side, rep.At(side)) ==>
              && e.id in rep.index && rep.index[e.id].side == side && rep.index[e.id].price == e.price
              && e.quantity > 0 && e.price > 0
  {
    var levels := rep.At(side);
    FlattenMember(side, levels, e);
    if e in LevelEntries(levels, e.price) {
      assert LevelOk(rep, side, e.price);
      var nodes := levels[e.price].nodes;
      var k :| 0 <= k < |nodes| && Entries(e.price, nodes)[k] == e;
      assert nodes[k] in nodes;
    }
  }

  lemma EntryOfNode(p: Price, nodes: seq<Node>, n: Node)
    requires n in nodes
    ensures Entry(n.id, p, n.quantity) in Entries(p, nodes)
  {
    var k :| 0 <= k < |nodes| && nodes[k] == n;
    assert Entries(p, nodes)[k] == Entry(n.id, p, n.quantity);
  }

  lemma NodeFlattens(rep: Rep, id: OrderId)
    requires RepOk(rep) && id in rep.index
    ensures HasId(Flatten(rep.index[id].side, rep.At(rep.index[id].side)), id)
  {
    assert Points(rep, id);
    hide RepOk, Flatten, Entries, HasId;
    var l := rep.index[id];
    var nodes := rep.At(l.side)[l.price].nodes;
    var n :| n in nodes && n.id == id && n.slot == l.slot;
    EntryOfNode(l.price, nodes, n);
    var e := Entry(id, l.price, n.quantity);
    FlattenMember(l.side, rep.At(l.side), e);
    MemberHasId(Flatten(l.side, rep.At(l.side)), e);
  }

  lemma MemberHasId(q: seq<Entry>, e: Entry)
    requires e in q
    ensures HasId(q, e.id)
  {
  }

  lemma SideDistinct(rep: Rep, side: Side)
    requires RepOk(rep)
    ensures Distinct(Flatten(side, rep.At(side)))
  {
    hide Flatten, Distinct;
    var levels := rep.At(side);
    var home := map id | id in rep.index :: rep.index[id].price;
    forall p | p in levels
      ensures DistinctNodes(levels[p].nodes) && forall n | n in levels[p].nodes :: n.id in home && home[n.id] == p
    {
      assert LevelOk(rep, side, p);
    }
    FlattenDistinct(side, levels, home);
  }

  lemma SideConsistent(rep: Rep, side: Side)
    requires RepOk(rep)
    ensures var q := Flatten(side, rep.At(side)); Ordered(side, q) && Distinct(q) && Positive(q)
  {
    hide Flatten, Distinct, Ordered, RepOk;
    FlattenOrdered(side, rep.At(side));
    SideDistinct(rep, side);
    forall e | e in Flatten(side, rep.At(side)) ensures e.quantity > 0 && e.price > 0 {
      FlattenNode(rep, side, e);
    }
  }

  /** What a consistent representation means is a consistent book over the indexed orders. */
  lemma RepConsistent(rep: Rep)
    requires RepOk(rep)
    ensures Consistent(View(rep))
    ensures forall id :: View(rep).Has(id) <==> id in rep.index
    ensures forall id | id in rep.index :: SideOf(View(rep), id) == rep.index[id].side
    ensures View(rep).Count() == |rep.index|
  {
    hide Flatten, Ordered, Distinct, RepOk, HasId, Positive;
    SideConsistent(rep, Bid);
    SideConsistent(rep, Ask);
    var b := View(rep);
    forall id
      ensures HasId(b.bids, id) <==> id in rep.index && rep.index[id].side == Bid
      ensures HasId(b.asks, id) <==> id in rep.index && rep.index[id].side == Ask
    {
      SideIndexed(rep, Bid, id);
      SideIndexed(rep, Ask, id);
    }
    SidesCount(b, rep.index);
  }

  lemma SidesCount(b: Book, index: map<OrderId, Location>)
    requires Distinct(b.bids) && Distinct(b.asks)
    requires forall id :: HasId(b.bids, id) <==> id in index && index[id].side == Bid
    requires forall id :: HasId(b.asks, id) <==> id in index && index[id].side == Ask
    ensures b.Count() == |index|
  {
    hide HasId, Distinct;
    DistinctCount(b.bids);
    DistinctCount(b.asks);
    IdsHad(b.bids);
    IdsHad(b.asks);
    assert EntryIds(b.bids) + EntryIds(b.asks) == index.Keys;
    assert EntryIds(b.bids) !! EntryIds(b.asks);
  }

  lemma IdsHad(q: seq<Entry>)
    ensures forall id :: id in EntryIds(q) <==> HasId(q, id)
  {
  }

  lemma SideIndexed(rep: Rep, side: Side, id: OrderId)
    requires RepOk(rep)
    ensures HasId(Flatten(side, rep.At(side)), id) <==> id in rep.index && rep.index[id].side == side
  {
    var q := Flatten(side, rep.At(side));
    if HasId(q, id) {
      FlattenNode(rep, side, Get(q, id));
    }
    if id in rep.index {
      NodeFlattens(rep, id);
    }
  }

  // ---- Elementary changes -------------------------------------------------

  ghost predicate DistinctSlots(nodes: seq<Node>) {
    forall i, j | 0 <= i < j < |nodes| :: nodes[i].slot != nodes[j].slot
  }

  function NodeAt(nodes: seq<Node>, slot: nat): Option<Node> {
    if nodes == [] then None else if nodes[0].slot == slot then Some(nodes[0]) else NodeAt(nodes[1..], slot)
  }

  lemma {:induction false} NodeAtFound(nodes: seq<Node>, n: Node)
    requires n in nodes && DistinctSlots(nodes)
    ensures NodeAt(nodes, n.slot) == Some(n)
    decreases |nodes|
  {
    if nodes[0] != n {
      assert n in nodes[1..];
      NodeAtFound(nodes[1..], n);
    }
  }

  lemma {:induction false} WithoutAbsent(nodes: seq<Node>, slot: nat)
    requires forall n | n in nodes :: n.slot != slot
    ensures Without(nodes, slot) == nodes
    decreases |nodes|
  {
    if nodes != [] {
      assert nodes[0] in nodes;
      WithoutAbsent(nodes[1..], slot);
    }
  }

  lemma {:induction false} WithoutFacts(nodes: seq<Node>, slot: nat)
    requires DistinctSlots(nodes) && NodeAt(nodes, slot).Some?
    ensures SumQuantity(Without(nodes, slot)) + NodeAt(nodes, slot).value.quantity == SumQuantity(nodes)
    ensures forall n :: n in Without(nodes, slot) <==> n in nodes && n.slot != slot
    ensures NodeAt(nodes, slot).value in nodes && NodeAt(nodes, slot).value.slot == slot
    ensures DistinctNodes(nodes) ==> DistinctNodes(Without(nodes, slot))
    decreases |nodes|
  {
    if nodes[0].slot == slot {
      forall n | n in nodes[1..] ensures n.slot != slot {
      }
      WithoutAbsent(nodes[1..], slot);
      assert forall n :: n in nodes <==> n == nodes[0] || n in nodes[1..];
    } else {
      WithoutFacts(nodes[1..], slot);
      var t := Without(nodes[1..], slot);
      assert ([nodes[0]] + t)[1..] == t;
      assert forall n :: n in nodes <==> n == nodes[0] || n in nodes[1..];
      if DistinctNodes(nodes) {
        assert DistinctNodes(nodes[1..]);
        forall i, j | 0 <= i < j < |[nodes[0]] + t| ensures ([nodes[0]] + t)[i].id != ([nodes[0]] + t)[j].id {
          assert t[j - 1] in t;
        }
      }
    }
  }

  lemma {:induction false} ResizedFacts(nodes: seq<Node>, slot: nat, q: Quantity)
    requires DistinctSlots(nodes) && NodeAt(nodes, slot).Some?
    ensures SumQuantity(Resized(nodes, slot, q)) == SumQuantity(nodes) - NodeAt(nodes, slot).value.quantity + q
    ensures |Resized(nodes, slot, q)| == |nodes|
    ensures forall k | 0 <= k < |nodes| ::
              Resized(nodes, slot, q)[k] == if nodes[k].slot == slot then nodes[k].(quantity := q) else nodes[k]
    decreases |nodes|
  {
    if nodes[0].slot == slot {
      ResizedAbsent(nodes[1..], slot, q);
    } else {
      ResizedFacts(nodes[1..], slot, q);
    }
    assert Resized(nodes, slot, q)[1..] == Resized(nodes[1..], slot, q);
  }

  lemma {:induction false} ResizedAbsent(nodes: seq<Node>, slot: nat, q: Quantity)
    requires forall k | 0 <= k < |nodes| :: nodes[k].slot != slot
    ensures Resized(nodes, slot, q) == nodes
    decreases |nodes|
  {
    if nodes != [] {
      ResizedAbsent(nodes[1..], slot, q);
    }
  }

  lemma {:induction false} SumAppend(nodes: seq<Node>, n: Node)
    ensures SumQuantity(nodes + [n]) == SumQuantity(nodes) + n.quantity
    decreases |nodes|
  {
    if nodes == [] {
      assert [n][1..] == [];
    } else {
      assert (nodes + [n])[1..] == nodes[1..] + [n];
      SumAppend(nodes[1..], n);
    }
  }

  function LevelAt(levels: Levels, p: Price): Level {
    if p in levels then levels[p] else Level([], 0)
  }

  /** A node joins the end of its level and the index. */
  function Appended(rep: Rep, side: Side, price: Price, n: Node): Rep {
    var level := LevelAt(rep.At(side), price);
    rep.WithLevels(side, rep.At(side)[price := Level(level.nodes + [n], level.aggregate + n.quantity)])
       .(index := rep.index[n.id := Location(side, price, n.slot)])
  }

  /** A level after one of its nodes is gone; an empty level goes too. */
  function LevelsWithout(levels: Levels, price: Price, slot: nat): Levels
    requires price in levels && NodeAt(levels[price].nodes, slot).Some?
    requires NodeAt(levels[price].nodes, slot).value.quantity <= levels[price].aggregate
  {
    var level := levels[price];
    var nodes := Without(level.nodes, slot);
    if nodes == [] then levels - {price}
    else levels[price := Level(nodes, level.aggregate - NodeAt(level.nodes, slot).value.quantity)]
  }

  /** Everything needed to act on an indexed order. */
  ghost predicate Reachable(rep: Rep, id: OrderId) {
    && id in rep.index
    && var l := rep.index[id];
    && l.price in rep.At(l.side)
    && var level := rep.At(l.side)[l.price];
    && DistinctSlots(level.nodes)
    && NodeAt(level.nodes, l.slot).Some?
    && NodeAt(level.nodes, l.slot).value.id == id
    && NodeAt(level.nodes, l.slot).value.quantity <= level.aggregate
  }

  ghost function Erased(rep: Rep, id: OrderId): Rep
    requires Reachable(rep, id)
  {
    var l := rep.index[id];
    rep.WithLevels(l.side, LevelsWithout(rep.At(l.side), l.price, l.slot)).(index := rep.index - {id})
  }

  ghost function Changed(rep: Rep, id: OrderId, q: Quantity): Rep
    requires Reachable(rep, id)
  {
    var l := rep.index[id];
    var level := rep.At(l.side)[l.price];
    rep.WithLevels(l.side, rep.At(l.side)[l.price :=
      Level(Resized(level.nodes, l.slot, q), level.aggregate - NodeAt(level.nodes, l.slot).value.quantity + q)])
  }

  lemma {:induction false} SumBounds(nodes: seq<Node>, n: Node)
    requires n in nodes
    ensures n.quantity <= SumQuantity(nodes)
    decreases |nodes|
  {
    if nodes[0] != n {
      assert n in nodes[1..];
      SumBounds(nodes[1..], n);
    }
  }

  /** Every indexed order can be reached through its iterator. */
  lemma Reaches(rep: Rep, free: set<nat>, capacity: nat, id: OrderId)
    requires RepOk(rep) && PoolOk(rep.index, free, capacity) && id in rep.index
    ensures Reachable(rep, id)
    ensures var l := rep.index[id];
            var n := NodeAt(rep.At(l.side)[l.price].nodes, l.slot).value;
            && HasId(View(rep).Queue(l.side), id)
            && Get(View(rep).Queue(l.side), id) == Entry(id, l.price, n.quantity)
            && n.quantity > 0
  {
    var l := rep.index[id];
    assert Points(rep, id);
    assert LevelOk(rep, l.side, l.price);
    var level := rep.At(l.side)[l.price];
    hide RepOk;
    LevelSlots(rep, free, capacity, l.side, l.price);
    hide PoolOk, View;
    var n :| n in level.nodes && n.id == id && n.slot == l.slot;
    NodeAtFound(level.nodes, n);
    SumBounds(level.nodes, n);
    ReachesEntry(rep, id, n);
  }

  /** The nodes of a level are in different slots. */
  lemma LevelSlots(rep: Rep, free: set<nat>, capacity: nat, side: Side, p: Price)
    requires p in rep.At(side) && LevelOk(rep, side, p) && PoolOk(rep.index, free, capacity)
    ensures DistinctSlots(rep.At(side)[p].nodes)
  {
    var nodes := rep.At(side)[p].nodes;
    forall i, j | 0 <= i < j < |nodes| ensures nodes[i].slot != nodes[j].slot {
      assert nodes[i] in nodes && nodes[j] in nodes;
    }
  }

  lemma ReachesEntry(rep: Rep, id: OrderId, n: Node)
    requires RepOk(rep) && id in rep.index
    requires var l := rep.index[id]; l.price in rep.At(l.side) && n in rep.At(l.side)[l.price].nodes && n.id == id
    ensures var l := rep.index[id];
            var q := View(rep).Queue(l.side);
            HasId(q, id) && Get(q, id) == Entry(id, l.price, n.quantity)
  {
    hide Flatten, RepOk;
    var l := rep.index[id];
    var nodes := rep.At(l.side)[l.price].nodes;
    var k :| 0 <= k < |nodes| && nodes[k] == n;
    var e := Entries(l.price, nodes)[k];
    FlattenMember(l.side, rep.At(l.side), e);
    SideDistinct(rep, l.side);
    GetUnique(Flatten(l.side, rep.At(l.side)), e);
  }

  // ---- What the elementary changes keep and mean --------------------------

  lemma AppendDistinct(nodes: seq<Node>, n: Node)
    requires DistinctNodes(nodes) && forall x | x in nodes :: x.id != n.id
    ensures DistinctNodes(nodes + [n])
  {
    var r := nodes + [n];
    forall i, j | 0 <= i < j < |r| ensures r[i].id != r[j].id {
      assert r[i] in nodes;
    }
  }

  lemma OldLevel(rep: Rep, side: Side, price: Price)
    requires RepOk(rep)
    ensures var level := LevelAt(rep.At(side), price);
            && level.aggregate == SumQuantity(level.nodes) && DistinctNodes(level.nodes)
            && (forall n | n in level.nodes :: n.quantity > 0 && n.id in rep.index && rep.index[n.id] == Location(side, price, n.slot))
  {
    if price in rep.At(side) {
      assert LevelOk(rep, side, price);
    }
  }

  lemma AppendLevel(rep: Rep, side: Side, price: Price, n: Node)
    requires RepOk(rep) && n.id !in rep.index && n.quantity > 0 && price > 0
    ensures LevelOk(Appended(rep, side, price, n), side, price)
  {
    hide RepOk, DistinctNodes, SumQuantity;
    OldLevel(rep, side, price);
    var level := LevelAt(rep.At(side), price);
    SumAppend(level.nodes, n);
    AppendDistinct(level.nodes, n);
  }

  lemma AppendOtherLevel(rep: Rep, side: Side, price: Price, n: Node, s: Side, p: Price)
    requires RepOk(rep) && n.id !in rep.index && p in rep.At(s) && (s != side || p != price)
    ensures p in Appended(rep, side, price, n).At(s) && LevelOk(Appended(rep, side, price, n), s, p)
  {
    assert LevelOk(rep, s, p);
    hide RepOk;
  }

  lemma AppendPoints(rep: Rep, side: Side, price: Price, n: Node, id: OrderId)
    requires RepOk(rep) && n.id !in rep.index && (id == n.id || id in rep.index)
    ensures Points(Appended(rep, side, price, n), id)
  {
    assert id != n.id ==> Points(rep, id);
    hide RepOk;
    var rep' := Appended(rep, side, price, n);
    if id == n.id {
      assert n in rep'.At(side)[price].nodes;
    } else {
      var l := rep.index[id];
      var x :| x in rep.At(l.side)[l.price].nodes && x.id == id && x.slot == l.slot;
      AppendKeepsNode(rep, side, price, n, l.side, l.price, x);
    }
  }

  lemma AppendKeepsNode(rep: Rep, side: Side, price: Price, n: Node, s: Side, p: Price, x: Node)
    requires p in rep.At(s) && x in rep.At(s)[p].nodes
    ensures var rep' := Appended(rep, side, price, n); p in rep'.At(s) && x in rep'.At(s)[p].nodes
  {
  }

  lemma AppendRep(rep: Rep, side: Side, price: Price, n: Node)
    requires RepOk(rep) && n.id !in rep.index && n.quantity > 0 && price > 0
    ensures RepOk(Appended(rep, side, price, n))
  {
    hide LevelOk, Points;
    var rep' := Appended(rep, side, price, n);
    forall s, p | p in rep'.At(s) ensures LevelOk(rep', s, p) {
      if s == side && p == price {
        AppendLevel(rep, side, price, n);
      } else {
        AppendOtherLevel(rep, side, price, n, s, p);
      }
    }
    forall id | id in rep'.index ensures Points(rep', id) {
      AppendPoints(rep, side, price, n, id);
    }
  }

  lemma AppendPool(index: map<OrderId, Location>, free: set<nat>, capacity: nat, id: OrderId, l: Location)
    requires PoolOk(index, free, capacity) && id !in index && l.slot in free
    ensures PoolOk(index[id := l], free - {l.slot}, capacity)
  {
    assert index[id := l].Keys == index.Keys + {id};
  }

  lemma ErasePool(index: map<OrderId, Location>, free: set<nat>, capacity: nat, id: OrderId)
    requires PoolOk(index, free, capacity) && id in index
    ensures PoolOk(index - {id}, free + {index[id].slot}, capacity)
  {
    assert (index - {id}).Keys == index.Keys - {id};
  }

  lemma AppendView(rep: Rep, side: Side, price: Price, n: Node)
    ensures View(Appended(rep, side, price, n))
         == View(rep).With(side, Insert(side, View(rep).Queue(side), Entry(n.id, price, n.quantity)))
  {
    hide Flatten, Insert;
    var rep' := Appended(rep, side, price, n);
    var level := LevelAt(rep.At(side), price);
    EntriesAppend(price, level.nodes, n);
    AppendInserts(side, rep.At(side), rep'.At(side), price, n);
    assert rep'.At(side.Opposite()) == rep.At(side.Opposite());
  }

  /** What erasing changes, level by level. */
  lemma ErasedShape(rep: Rep, id: OrderId)
    requires Reachable(rep, id)
    ensures var l := rep.index[id];
            var level := rep.At(l.side)[l.price];
            var nodes := Without(level.nodes, l.slot);
            var r := Erased(rep, id);
            && r.index == rep.index - {id}
            && (l.price in r.At(l.side) <==> nodes != [])
            && (l.price in r.At(l.side) ==>
                  r.At(l.side)[l.price] == Level(nodes, level.aggregate - NodeAt(level.nodes, l.slot).value.quantity))
  {
    hide Without, NodeAt, DistinctSlots;
  }

  lemma ErasedElsewhere(rep: Rep, id: OrderId, s: Side, p: Price)
    requires Reachable(rep, id) && (s != rep.index[id].side || p != rep.index[id].price)
    ensures p in Erased(rep, id).At(s) <==> p in rep.At(s)
    ensures p in rep.At(s) ==> Erased(rep, id).At(s)[p] == rep.At(s)[p]
  {
    hide Without, NodeAt, DistinctSlots;
  }

  lemma EraseOtherLevel(rep: Rep, id: OrderId, s: Side, p: Price)
    requires Reachable(rep, id) && p in rep.At(s) && LevelOk(rep, s, p)
    requires s != rep.index[id].side || p != rep.index[id].price
    ensures p in Erased(rep, id).At(s) && LevelOk(Erased(rep, id), s, p)
  {
    hide DistinctNodes, SumQuantity, Erased, NodeAt, Without, DistinctSlots;
    ErasedElsewhere(rep, id, s, p);
    ErasedShape(rep, id);
  }

  lemma EraseLevel(rep: Rep, id: OrderId)
    requires Reachable(rep, id) && LevelOk(rep, rep.index[id].side, rep.index[id].price)
    ensures var l := rep.index[id];
            l.price in Erased(rep, id).At(l.side) ==> LevelOk(Erased(rep, id), l.side, l.price)
  {
    var l := rep.index[id];
    hide DistinctNodes, SumQuantity, NodeAt, Without, DistinctSlots, Erased;
    ErasedShape(rep, id);
    WithoutFacts(rep.At(l.side)[l.price].nodes, l.slot);
  }

  lemma ErasePoints(rep: Rep, id: OrderId, k: OrderId)
    requires Reachable(rep, id) && k in rep.index && k != id && Points(rep, k)
    ensures k in Erased(rep, id).index && Points(Erased(rep, id), k)
  {
    hide NodeAt, Without, DistinctSlots, Erased;
    var l, at := rep.index[id], rep.index[k];
    ErasedShape(rep, id);
    if at.side == l.side && at.price == l.price {
      StaysAfter(rep.At(l.side)[l.price].nodes, l.slot, id, k);
    } else {
      ErasedElsewhere(rep, id, at.side, at.price);
    }
  }

  lemma EraseRep(rep: Rep, id: OrderId)
    requires RepOk(rep) && Reachable(rep, id)
    ensures RepOk(Erased(rep, id))
  {
    hide LevelOk, Points, Erased;
    ErasedShape(rep, id);
    var rep' := Erased(rep, id);
    forall s, p | p in rep'.At(s) ensures LevelOk(rep', s, p) {
      if s == rep.index[id].side && p == rep.index[id].price {
        EraseLevel(rep, id);
      } else {
        ErasedElsewhere(rep, id, s, p);
        EraseOtherLevel(rep, id, s, p);
      }
    }
    forall k | k in rep'.index ensures Points(rep', k) {
      ErasePoints(rep, id, k);
    }
  }

  /** The nodes of other orders survive an erase, and so does their level. */
  lemma StaysAfter(nodes: seq<Node>, slot: nat, id: OrderId, k: OrderId)
    requires DistinctSlots(nodes) && NodeAt(nodes, slot).Some? && NodeAt(nodes, slot).value.id == id && k != id
    ensures forall n | n in nodes && n.id == k :: n in Without(nodes, slot)
  {
    WithoutFacts(nodes, slot);
    forall n | n in nodes && n.id == k ensures n in Without(nodes, slot) {
      if n.slot == slot {
        NodeAtFound(nodes, n);
      }
    }
  }

  lemma EraseView(rep: Rep, free: set<nat>, capacity: nat, id: OrderId)
    requires RepOk(rep) && PoolOk(rep.index, free, capacity) && Reachable(rep, id)
    ensures var l := rep.index[id];
            View(Erased(rep, id)) == View(rep).With(l.side, Remove(View(rep).Queue(l.side), id))
  {
    hide Flatten, RepOk, Remove;
    var rep' := Erased(rep, id);
    var l := rep.index[id];
    SlotNamesOrder(rep, free, capacity, id);
    EraseRemoves(l.side, rep.At(l.side), rep'.At(l.side), l.price, id, l.slot);
    assert rep'.At(l.side.Opposite()) == rep.At(l.side.Opposite());
  }

  lemma ChangeNodes(nodes: seq<Node>, slot: nat, q: Quantity, index: map<OrderId, Location>, side: Side, p: Price)
    requires DistinctSlots(nodes) && NodeAt(nodes, slot).Some? && DistinctNodes(nodes) && q > 0
    requires forall n | n in nodes :: n.quantity > 0 && n.id in index && index[n.id] == Location(side, p, n.slot)
    ensures var nodes' := Resized(nodes, slot, q);
            && DistinctNodes(nodes')
            && (forall n | n in nodes' :: n.quantity > 0 && n.id in index && index[n.id] == Location(side, p, n.slot))
            && (forall k, s | HasNode(nodes, k, s) :: HasNode(nodes', k, s))
  {
    hide NodeAt, DistinctSlots;
    ResizedFacts(nodes, slot, q);
    var nodes' := Resized(nodes, slot, q);
    forall n | n in nodes' ensures n.quantity > 0 && n.id in index && index[n.id] == Location(side, p, n.slot) {
      var k :| 0 <= k < |nodes'| && nodes'[k] == n;
      assert nodes[k] in nodes;
    }
    forall k, s | HasNode(nodes, k, s) ensures HasNode(nodes', k, s) {
      var n :| n in nodes && n.id == k && n.slot == s;
      var j :| 0 <= j < |nodes| && nodes[j] == n;
      assert nodes'[j] in nodes';
    }
  }

  lemma ChangedShape(rep: Rep, id: OrderId, q: Quantity, s: Side, p: Price)
    requires Reachable(rep, id)
    ensures var l := rep.index[id];
            var level := rep.At(l.side)[l.price];
            var r := Changed(rep, id, q);
            && r.index == rep.index
            && (p in r.At(s) <==> p in rep.At(s))
            && (p in rep.At(s) ==>
                  r.At(s)[p] == if s == l.side && p == l.price
                                then Level(Resized(level.nodes, l.slot, q), level.aggregate - NodeAt(level.nodes, l.slot).value.quantity + q)
                                else rep.At(s)[p])
  {
    hide Resized, NodeAt, DistinctSlots;
  }

  lemma ChangeLevel(rep: Rep, id: OrderId, q: Quantity, s: Side, p: Price)
    requires Reachable(rep, id) && q > 0 && p in rep.At(s) && LevelOk(rep, s, p)
    ensures p in Changed(rep, id, q).At(s) && LevelOk(Changed(rep, id, q), s, p)
  {
    hide DistinctNodes, SumQuantity, NodeAt, Resized, DistinctSlots, Changed;
    ChangedShape(rep, id, q, s, p);
    var l := rep.index[id];
    if s == l.side && p == l.price {
      var nodes := rep.At(l.side)[l.price].nodes;
      ResizedFacts(nodes, l.slot, q);
      ChangeNodes(nodes, l.slot, q, rep.index, s, p);
    }
  }

  lemma ChangePoints(rep: Rep, id: OrderId, q: Quantity, k: OrderId)
    requires Reachable(rep, id) && k in rep.index && q > 0 && Points(rep, k)
    requires LevelOk(rep, rep.index[id].side, rep.index[id].price)
    ensures Points(Changed(rep, id, q), k)
  {
    var l, at := rep.index[id], rep.index[k];
    hide NodeAt, Resized, DistinctSlots, DistinctNodes, HasNode, Changed, SumQuantity;
    ChangedShape(rep, id, q, at.side, at.price);
    if at.side == l.side && at.price == l.price {
      ChangeNodes(rep.At(l.side)[l.price].nodes, l.slot, q, rep.index, l.side, l.price);
    }
  }

  lemma ChangeRep(rep: Rep, id: OrderId, q: Quantity)
    requires RepOk(rep) && Reachable(rep, id) && q > 0
    ensures RepOk(Changed(rep, id, q))
  {
    hide LevelOk, Points;
    var rep' := Changed(rep, id, q);
    forall s, p | p in rep'.At(s) ensures LevelOk(rep', s, p) {
      ChangedShape(rep, id, q, s, p);
      ChangeLevel(rep, id, q, s, p);
    }
    forall k | k in rep'.index ensures Points(rep', k) {
      ChangePoints(rep, id, q, k);
    }
  }

  lemma ChangeView(rep: Rep, free: set<nat>, capacity: nat, id: OrderId, q: Quantity)
    requires RepOk(rep) && PoolOk(rep.index, free, capacity) && Reachable(rep, id)
    ensures var l := rep.index[id];
            View(Changed(rep, id, q)) == View(rep).With(l.side, Resize(View(rep).Queue(l.side), id, q))
  {
    hide Flatten, RepOk, Resize;
    var rep' := Changed(rep, id, q);
    var l := rep.index[id];
    SlotNamesOrder(rep, free, capacity, id);
    ResizeResizes(l.side, rep.At(l.side), rep'.At(l.side), l.price, id, l.slot, q);
    assert rep'.At(l.side.Opposite()) == rep.At(l.side.Opposite());
  }

  // ---- Outcomes in terms of the book --------------------------------------

  lemma AppendOutcome(rep: Rep, free: set<nat>, capacity: nat, side: Side, price: Price, n: Node)
    requires RepOk(rep) && PoolOk(rep.index, free, capacity)
    requires n.id !in rep.index && n.quantity > 0 && price > 0 && n.slot in free
    ensures var rep' := Appended(rep, side, price, n);
            && RepOk(rep') && PoolOk(rep'.index, free - {n.slot}, capacity)
            && Add(View(rep), capacity, n.id, side, price, n.quantity) == (View(rep'), Ok)
  {
    hide RepOk, View, Insert;
    RepConsistent(rep);
    PoolCounts(rep.index, free, capacity);
    AppendRep(rep, side, price, n);
    AppendView(rep, side, price, n);
    AppendPool(rep.index, free, capacity, n.id, Location(side, price, n.slot));
  }

  lemma PoolCounts(index: map<OrderId, Location>, free: set<nat>, capacity: nat)
    requires PoolOk(index, free, capacity)
    ensures free == {} <==> |index| >= capacity
  {
    if free != {} {
      var x :| x in free;
      assert |free - {x}| == |free| - 1;
    }
  }

  lemma EraseOutcome(rep: Rep, free: set<nat>, capacity: nat, id: OrderId)
    requires RepOk(rep) && PoolOk(rep.index, free, capacity) && id in rep.index
    ensures Reachable(rep, id)
    ensures var rep' := Erased(rep, id);
            && RepOk(rep') && PoolOk(rep'.index, free + {rep.index[id].slot}, capacity)
            && CancelOrder(View(rep), id) == (View(rep'), Ok)
  {
    hide RepOk, View, Remove, Erased, Reachable, PoolOk;
    RepConsistent(rep);
    Reaches(rep, free, capacity, id);
    ErasedShape(rep, id);
    EraseRep(rep, id);
    EraseView(rep, free, capacity, id);
    ErasePool(rep.index, free, capacity, id);
  }

  lemma ChangeOutcome(rep: Rep, free: set<nat>, capacity: nat, id: OrderId, q: Quantity)
    requires RepOk(rep) && PoolOk(rep.index, free, capacity) && id in rep.index && q > 0
    ensures Reachable(rep, id)
    ensures var rep' := Changed(rep, id, q);
            var l := rep.index[id];
            && RepOk(rep') && rep'.index == rep.index
            && View(rep').Queue(l.side) == Resize(View(rep).Queue(l.side), id, q)
            && View(rep') == View(rep).With(l.side, Resize(View(rep).Queue(l.side), id, q))
  {
    hide RepOk, View, Resize, PoolOk;
    Reaches(rep, free, capacity, id);
    ChangeRep(rep, id, q);
    ChangeView(rep, free, capacity, id, q);
  }

  /** An execution is a cancellation or a smaller quantity, as the node behind the index says. */
  lemma ExecuteOutcome(rep: Rep, free: set<nat>, capacity: nat, id: OrderId, quantity: Quantity)
    requires RepOk(rep) && PoolOk(rep.index, free, capacity) && id in rep.index && quantity > 0
    ensures Reachable(rep, id)
    ensures var l := rep.index[id];
            var left := NodeAt(rep.At(l.side)[l.price].nodes, l.slot).value.quantity;
            && (left < quantity ==> ExecuteOrder(View(rep), id, quantity) == (View(rep), QuantityExceedsRemaining))
            && (left == quantity ==> ExecuteOrder(View(rep), id, quantity) == CancelOrder(View(rep), id))
            && (left > quantity ==>
                  ExecuteOrder(View(rep), id, quantity)
                  == (View(rep).With(l.side, Resize(View(rep).Queue(l.side), id, left - quantity)), Ok))
  {
    hide RepOk, View, Resize, Remove, PoolOk, NodeAt, DistinctSlots, ExecuteOrder, CancelOrder, Consistent, HasId, Get, Reachable;
    RepConsistent(rep);
    Reaches(rep, free, capacity, id);
    ExecuteByQuantity(View(rep), id, quantity);
  }

  lemma ExecuteByQuantity(b: Book, id: OrderId, quantity: Quantity)
    requires b.Has(id) && quantity > 0
    ensures var side := SideOf(b, id);
            var left := Get(b.Queue(side), id).quantity;
            && (left < quantity ==> ExecuteOrder(b, id, quantity) == (b, QuantityExceedsRemaining))
            && (left == quantity ==> ExecuteOrder(b, id, quantity) == CancelOrder(b, id))
            && (left > quantity ==>
                  ExecuteOrder(b, id, quantity) == (b.With(side, Resize(b.Queue(side), id, left - quantity)), Ok))
  {
    hide Resize, Remove, Get, HasId;
  }

  lemma Unknown(rep: Rep, id: OrderId, quantity: Quantity)
    requires RepOk(rep) && id !in rep.index
    ensures CancelOrder(View(rep), id) == (View(rep), UnknownId)
    ensures ExecuteOrder(View(rep), id, quantity) == (View(rep), UnknownId)
  {
    hide RepOk, View;
    RepConsistent(rep);
  }

  lemma Known(rep: Rep, id: OrderId)
    requires RepOk(rep) && id in rep.index
    ensures ExecuteOrder(View(rep), id, 0) == (View(rep), BadQuantity)
  {
    hide RepOk, View;
    RepConsistent(rep);
  }

  /** When the model refuses an addition, and when only storage can. */
  lemma AddRefusals(rep: Rep, free: set<nat>, capacity: nat, id: OrderId, side: Side, price: Price, quantity: Quantity)
    requires RepOk(rep) && PoolOk(rep.index, free, capacity)
    ensures Add(View(rep), capacity, id, side, price, quantity).1 ==
            if quantity == 0 then BadQuantity
            else if price == 0 then BadPrice
            else if id in rep.index then DuplicateId
            else if free == {} then AllocationFailed
            else Ok
  {
    hide RepOk, View, Insert;
    RepConsistent(rep);
    PoolCounts(rep.index, free, capacity);
  }

  // ---- Replacing ----------------------------------------------------------

  lemma {:induction false} WithoutAppend(nodes: seq<Node>, slot: nat, n: Node)
    requires n.slot != slot
    ensures Without(nodes + [n], slot) == Without(nodes, slot) + [n]
    decreases |nodes|
  {
    if nodes == [] {
      assert nodes + [n] == [n] && [n][1..] == [];
    } else {
      assert (nodes + [n])[1..] == nodes[1..] + [n];
      WithoutAppend(nodes[1..], slot, n);
    }
  }

  /** The level map after moving a node, built in the order of the original: append, erase, tidy up. */
  function Moved(levels: Levels, from: Price, slot: nat, price: Price, n: Node): Levels
    requires from in levels && NodeAt(levels[from].nodes, slot).Some?
    requires NodeAt(levels[from].nodes, slot).value.quantity <= levels[from].aggregate
  {
    var was := NodeAt(levels[from].nodes, slot).value.quantity;
    var target := LevelAt(levels, price);
    var l1 := levels[price := target.(nodes := target.nodes + [n])];
    var l2 := l1[from := Level(Without(l1[from].nodes, slot), l1[from].aggregate - was)];
    var l3 := l2[price := l2[price].(aggregate := l2[price].aggregate + n.quantity)];
    if l3[from].nodes == [] then l3 - {from} else l3
  }

  /** Within one level. */
  lemma MovedWithin(levels: Levels, from: Price, slot: nat, n: Node)
    requires from in levels && NodeAt(levels[from].nodes, slot).Some?
    requires NodeAt(levels[from].nodes, slot).value.quantity <= levels[from].aggregate
    requires Without(levels[from].nodes + [n], slot) == Without(levels[from].nodes, slot) + [n]
    requires Without(levels[from].nodes, slot) == [] ==> levels[from].aggregate == NodeAt(levels[from].nodes, slot).value.quantity
    ensures var e := LevelsWithout(levels, from, slot);
            Moved(levels, from, slot, from, n)
              == e[from := Level(LevelAt(e, from).nodes + [n], LevelAt(e, from).aggregate + n.quantity)]
  {
    hide NodeAt, Without;
  }

  /** From one level to another. */
  lemma MovedAcross(levels: Levels, from: Price, slot: nat, price: Price, n: Node)
    requires from in levels && NodeAt(levels[from].nodes, slot).Some? && price != from
    requires NodeAt(levels[from].nodes, slot).value.quantity <= levels[from].aggregate
    ensures var e := LevelsWithout(levels, from, slot);
            Moved(levels, from, slot, price, n)
              == e[price := Level(LevelAt(e, price).nodes + [n], LevelAt(e, price).aggregate + n.quantity)]
  {
    hide NodeAt, Without;
  }

  /** Appending first and erasing afterwards leaves the levels as erasing first would. */
  lemma MovedIs(levels: Levels, from: Price, slot: nat, price: Price, n: Node)
    requires from in levels && NodeAt(levels[from].nodes, slot).Some? && DistinctSlots(levels[from].nodes)
    requires levels[from].aggregate == SumQuantity(levels[from].nodes) && n.slot != slot
    ensures NodeAt(levels[from].nodes, slot).value.quantity <= levels[from].aggregate
    ensures var e := LevelsWithout(levels, from, slot);
            Moved(levels, from, slot, price, n)
              == e[price := Level(LevelAt(e, price).nodes + [n], LevelAt(e, price).aggregate + n.quantity)]
  {
    WithoutFacts(levels[from].nodes, slot);
    WithoutAppend(levels[from].nodes, slot, n);
    assert SumQuantity([]) == 0;
    hide NodeAt, DistinctSlots, Without, Moved, LevelsWithout, SumQuantity;
    if price == from {
      MovedWithin(levels, from, slot, n);
    } else {
      MovedAcross(levels, from, slot, price, n);
    }
  }

  lemma MoveOutcome(rep: Rep, free: set<nat>, capacity: nat, prior: OrderId, price: Price, n: Node)
    requires RepOk(rep) && PoolOk(rep.index, free, capacity) && prior in rep.index
    requires (n.id == prior || n.id !in rep.index) && n.quantity > 0 && price > 0 && n.slot in free
    ensures Reachable(rep, prior)
    ensures var l := rep.index[prior];
            var rep' := Appended(Erased(rep, prior), l.side, price, n);
            && n.slot != l.slot
            && RepOk(rep') && PoolOk(rep'.index, free + {l.slot} - {n.slot}, capacity)
            && ReplaceOrder(View(rep), capacity, prior, n.id, l.side, price, n.quantity, false) == (View(rep'), Ok)
  {
    hide RepOk, View, Insert, Remove, Erased, Reachable;
    var l := rep.index[prior];
    RepConsistent(rep);
    EraseOutcome(rep, free, capacity, prior);
    ErasedShape(rep, prior);
    var e := Erased(rep, prior);
    PoolCounts(rep.index, free, capacity);
    AppendRep(e, l.side, price, n);
    AppendView(e, l.side, price, n);
    AppendPool(e.index, free + {l.slot}, capacity, n.id, Location(l.side, price, n.slot));
  }

  lemma KeepOutcome(rep: Rep, free: set<nat>, capacity: nat, id: OrderId, side: Side, price: Price, quantity: Quantity)
    requires RepOk(rep) && PoolOk(rep.index, free, capacity) && id in rep.index && quantity > 0
    requires side == rep.index[id].side && price == rep.index[id].price && price > 0
    ensures ReplaceOrder(View(rep), capacity, id, id, side, price, quantity, true)
         == (View(rep).With(side, Resize(View(rep).Queue(side), id, quantity)), Ok)
  {
    hide RepOk, View, Resize, PoolOk;
    RepConsistent(rep);
    Reaches(rep, free, capacity, id);
  }

  /** When the model refuses a replacement, and when only storage can. */
  lemma ReplaceRefusals(rep: Rep, free: set<nat>, capacity: nat, prior: OrderId, id: OrderId, side: Side, price: Price,
                        quantity: Quantity, keep: bool)
    requires RepOk(rep) && PoolOk(rep.index, free, capacity)
    ensures ReplaceOrder(View(rep), capacity, prior, id, side, price, quantity, keep).1 ==
            if prior !in rep.index then UnknownId
            else if quantity == 0 then BadQuantity
            else if price == 0 then BadPrice
            else if side != rep.index[prior].side then UnknownId
            else if id != prior && id in rep.index then DuplicateId
            else if keep then (if price != rep.index[prior].price || id != prior then BadPrice else Ok)
            else if free == {} then AllocationFailed
            else Ok
  {
    hide RepOk, View, Insert, Remove, Resize;
    RepConsistent(rep);
    PoolCounts(rep.index, free, capacity);
    if prior in rep.index {
      Reaches(rep, free, capacity, prior);
    }
  }
}
