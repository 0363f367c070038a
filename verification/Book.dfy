/**
 The order book as a value: one sequence of entries per side, in price-time
 priority. This is the meaning that the pooled `OrderBook` refines and over which
 the engine, the replica and the feed reconstruction are stated.
 */
module BookModel {
  import opened Types

  datatype Entry = Entry(id: OrderId, price: Price, quantity: Quantity)

  datatype Book = Book(bids: seq<Entry>, asks: seq<Entry>) {
    function Queue(side: Side): seq<Entry> {
      if side == Bid then bids else asks
    }

    function With(side: Side, q: seq<Entry>): (r: Book)
      ensures r.Queue(side) == q
      ensures r.Queue(side.Opposite()) == Queue(side.Opposite())
    {
      if side == Bid then this.(bids := q) else this.(asks := q)
    }

    function Count(): nat {
      |bids| + |asks|
    }

    predicate Has(id: OrderId) {
      HasId(bids, id) || HasId(asks, id)
    }

    predicate IsEmpty() {
      bids == [] && asks == []
    }
  }

  const EMPTY := Book([], [])

  /** Price `p` has at least the priority of price `q`. */
  predicate NoWorse(side: Side, p: Price, q: Price) {
    if side == Bid then p >= q else p <= q
  }

  // ---- Queues -------------------------------------------------------------

  predicate Ordered(side: Side, s: seq<Entry>) {
    s != [] ==>
      && (forall e | e in s[1..] :: NoWorse(side, s[0].price, e.price))
      && Ordered(side, s[1..])
  }

  predicate Distinct(s: seq<Entry>) {
    s != [] ==> (forall e | e in s[1..] :: e.id != s[0].id) && Distinct(s[1..])
  }

  predicate Positive(s: seq<Entry>) {
    forall e | e in s :: e.quantity > 0 && e.price > 0
  }

  predicate HasId(s: seq<Entry>, id: OrderId)
    ensures HasId(s, id) <==> exists e :: e in s && e.id == id
  {
    s != [] && (s[0].id == id || HasId(s[1..], id))
  }

  /** The entry with the given identifier. */
  function Get(s: seq<Entry>, id: OrderId): (e: Entry)
    requires HasId(s, id)
    ensures e in s && e.id == id
  {
    if s[0].id == id then s[0] else Get(s[1..], id)
  }

  lemma {:induction false} GetUnique(s: seq<Entry>, e: Entry)
    requires Distinct(s) && e in s
    ensures HasId(s, e.id) && Get(s, e.id) == e
  {
    if s[0] != e {
      assert e in s[1..];
      GetUnique(s[1..], e);
    }
  }

  /** Places an entry behind everything of the same or a better price. */
  function Insert(side: Side, s: seq<Entry>, e: Entry): (r: seq<Entry>)
    ensures forall x :: x in r <==> x == e || x in s
    ensures |r| == |s| + 1
  {
    if s == [] then [e]
    else if NoWorse(side, s[0].price, e.price) then [s[0]] + Insert(side, s[1..], e)
    else [e] + s
  }

  function Remove(s: seq<Entry>, id: OrderId): (r: seq<Entry>)
    ensures forall x :: x in r <==> x in s && x.id != id
    ensures |r| <= |s|
    ensures HasId(s, id) ==> |r| < |s|
    ensures !HasId(s, id) ==> r == s
  {
    if s == [] then []
    else if s[0].id == id then Remove(s[1..], id)
    else [s[0]] + Remove(s[1..], id)
  }

  /** Sets the remaining quantity of an order in place. */
  function Resize(s: seq<Entry>, id: OrderId, quantity: Quantity): (r: seq<Entry>)
    ensures |r| == |s|
    ensures forall i | 0 <= i < |s| :: r[i] == if s[i].id == id then s[i].(quantity := quantity) else s[i]
    ensures forall x: Entry | x.id != id :: x in r <==> x in s
    ensures forall x | x in r && x.id == id :: x.quantity == quantity
  {
    if s == [] then []
    else [if s[0].id == id then s[0].(quantity := quantity) else s[0]] + Resize(s[1..], id, quantity)
  }

  /** Takes quantity off an order, removing it when nothing is left. */
  function Take(s: seq<Entry>, id: OrderId, quantity: Quantity): seq<Entry>
    requires HasId(s, id) && quantity <= Get(s, id).quantity
  {
    var left := Get(s, id).quantity - quantity;
    if left == 0 then Remove(s, id) else Resize(s, id, left)
  }

  // ---- What the queue operations keep ------------------------------------

  lemma {:induction false} InsertKeeps(side: Side, s: seq<Entry>, e: Entry)
    requires Ordered(side, s) && Distinct(s) && Positive(s)
    requires !HasId(s, e.id) && e.quantity > 0 && e.price > 0
    ensures Ordered(side, Insert(side, s, e))
    ensures Distinct(Insert(side, s, e))
    ensures Positive(Insert(side, s, e))
  {
    var r := Insert(side, s, e);
    if s == [] {
    } else if NoWorse(side, s[0].price, e.price) {
      InsertKeeps(side, s[1..], e);
      assert r[1..] == Insert(side, s[1..], e);
    } else {
      assert r[1..] == s;
    }
  }

  lemma {:induction false} RemoveKeeps(side: Side, s: seq<Entry>, id: OrderId)
    requires Ordered(side, s) && Distinct(s) && Positive(s)
    ensures Ordered(side, Remove(s, id)) && Distinct(Remove(s, id)) && Positive(Remove(s, id))
    ensures !HasId(Remove(s, id), id)
    ensures HasId(s, id) ==> |Remove(s, id)| == |s| - 1
  {
    if s == [] {
    } else {
      RemoveKeeps(side, s[1..], id);
      if s[0].id == id {
        assert !HasId(s[1..], id);
      } else {
        assert Remove(s, id)[1..] == Remove(s[1..], id);
      }
    }
  }

  lemma {:induction false} ResizeKeeps(side: Side, s: seq<Entry>, id: OrderId, quantity: Quantity)
    requires Ordered(side, s) && Distinct(s) && Positive(s) && quantity > 0
    ensures Ordered(side, Resize(s, id, quantity))
    ensures Distinct(Resize(s, id, quantity))
    ensures Positive(Resize(s, id, quantity))
    ensures forall k :: HasId(Resize(s, id, quantity), k) <==> HasId(s, k)
  {
    if s == [] {
    } else {
      ResizeKeeps(side, s[1..], id, quantity);
      var r := Resize(s, id, quantity);
      assert r[1..] == Resize(s[1..], id, quantity);
      ResizeBehind(s[1..], id, quantity);
      assert r[0].price == s[0].price && r[0].id == s[0].id;
    }
  }

  /** Resizing keeps every entry's identifier and price. */
  lemma ResizeBehind(s: seq<Entry>, id: OrderId, quantity: Quantity)
    ensures forall x | x in Resize(s, id, quantity) :: exists y :: y in s && y.id == x.id && y.price == x.price
  {
    var r := Resize(s, id, quantity);
    forall x | x in r ensures exists y :: y in s && y.id == x.id && y.price == x.price {
      var i :| 0 <= i < |r| && r[i] == x;
      assert s[i] in s;
    }
  }

  ghost function EntryIds(q: seq<Entry>): set<OrderId> {
    set e | e in q :: e.id
  }

  lemma {:induction false} DistinctCount(q: seq<Entry>)
    requires Distinct(q)
    ensures |EntryIds(q)| == |q|
    decreases |q|
  {
    if q == [] {
      assert EntryIds(q) == {};
    } else {
      DistinctCount(q[1..]);
      assert EntryIds(q) == EntryIds(q[1..]) + {q[0].id};
    }
  }

  /** The front of a queue is the entry that every other one waits behind. */
  lemma FrontIsBest(side: Side, s: seq<Entry>, e: Entry)
    requires Ordered(side, s) && e in s
    ensures NoWorse(side, s[0].price, e.price)
  {
  }

  // ---- Independent characterisation: levels ------------------------------

  /** The FIFO queue of one price level. */
  function AtPrice(s: seq<Entry>, p: Price): seq<Entry> {
    if s == [] then []
    else if s[0].price == p then [s[0]] + AtPrice(s[1..], p)
    else AtPrice(s[1..], p)
  }

  lemma {:induction false} AtPriceMember(s: seq<Entry>, p: Price, e: Entry)
    ensures e in AtPrice(s, p) <==> e in s && e.price == p
  {
    if s != [] {
      AtPriceMember(s[1..], p, e);
    }
  }

  /** Insertion appends to its own level and touches no other. */
  lemma {:induction false} InsertAtPrice(side: Side, s: seq<Entry>, e: Entry, p: Price)
    requires Ordered(side, s)
    ensures AtPrice(Insert(side, s, e), p) == if p == e.price then AtPrice(s, p) + [e] else AtPrice(s, p)
  {
    if s == [] {
      assert [e][1..] == [];
    } else if NoWorse(side, s[0].price, e.price) {
      InsertAtPrice(side, s[1..], e, p);
      assert Insert(side, s, e)[1..] == Insert(side, s[1..], e);
    } else {
      assert Insert(side, s, e)[1..] == s;
      if p == e.price {
        NothingAt(side, s, p);
      }
    }
  }

  lemma {:induction false} NothingAt(side: Side, s: seq<Entry>, p: Price)
    requires s != [] && Ordered(side, s) && !NoWorse(side, s[0].price, p)
    ensures AtPrice(s, p) == []
  {
    if |s| > 1 {
      assert s[1] in s[1..];
      NothingAt(side, s[1..], p);
    }
  }

  /** A price-ordered queue is determined by its levels. */
  lemma {:induction false} LevelsDetermine(side: Side, s: seq<Entry>, t: seq<Entry>)
    requires Ordered(side, s) && Ordered(side, t)
    requires forall p :: AtPrice(s, p) == AtPrice(t, p)
    ensures s == t
    decreases |s|
  {
    if s == [] {
      var p := if t == [] then 0 else t[0].price;
      assert AtPrice(s, p) == AtPrice(t, p);
    } else {
      var p := s[0].price;
      assert AtPrice(s, p)[0] == s[0];
      AtPriceMember(t, p, s[0]);
      assert t != [];
      var q := t[0].price;
      AtPriceMember(s, q, t[0]);
      FrontIsBest(side, s, t[0]);
      FrontIsBest(side, t, s[0]);
      assert p == q;
      assert AtPrice(t, p)[0] == t[0];
      forall x ensures AtPrice(s[1..], x) == AtPrice(t[1..], x) {
        assert AtPrice(s, x) == AtPrice(t, x);
        if x == p {
          assert AtPrice(s[1..], x) == AtPrice(s, x)[1..];
          assert AtPrice(t[1..], x) == AtPrice(t, x)[1..];
        }
      }
      LevelsDetermine(side, s[1..], t[1..]);
    }
  }

  // ---- Operations on a book ----------------------------------------------

  /** Adds an order behind its price level; `capacity` is the number of pool slots. */
  function Add(b: Book, capacity: nat, id: OrderId, side: Side, price: Price, quantity: Quantity)
    : (r: (Book, ApplyResult))
  {
    if quantity == 0 then (b, BadQuantity)
    else if price == 0 then (b, BadPrice)
    else if b.Has(id) then (b, DuplicateId)
    else if b.Count() >= capacity then (b, AllocationFailed)
    else (b.With(side, Insert(side, b.Queue(side), Entry(id, price, quantity))), Ok)
  }

  function SideOf(b: Book, id: OrderId): (side: Side)
    requires b.Has(id)
    ensures HasId(b.Queue(side), id)
  {
    if HasId(b.bids, id) then Bid else Ask
  }

  function CancelOrder(b: Book, id: OrderId): (r: (Book, ApplyResult)) {
    if !b.Has(id) then (b, UnknownId)
    else var side := SideOf(b, id);
    (b.With(side, Remove(b.Queue(side), id)), Ok)
  }

  function ExecuteOrder(b: Book, id: OrderId, quantity: Quantity): (r: (Book, ApplyResult)) {
    if !b.Has(id) then (b, UnknownId)
    else if quantity == 0 then (b, BadQuantity)
    else var side := SideOf(b, id);
    if Get(b.Queue(side), id).quantity < quantity then (b, QuantityExceedsRemaining)
    else (b.With(side, Take(b.Queue(side), id, quantity)), Ok)
  }

  /** The quantity left on an order, if the book holds it. */
  function RemainingQuantity(b: Book, id: OrderId): Option<Quantity> {
    if b.Has(id) then Some(Get(b.Queue(SideOf(b, id)), id).quantity) else None
  }

  /** Feed replacement: in place when priority is kept, otherwise behind the new level. */
  function ReplaceOrder(b: Book, capacity: nat, prior: OrderId, id: OrderId, side: Side, price: Price,
                        quantity: Quantity, maintainPriority: bool): (r: (Book, ApplyResult)) {
    if !b.Has(prior) then (b, UnknownId)
    else if quantity == 0 then (b, BadQuantity)
    else if price == 0 then (b, BadPrice)
    else if side != SideOf(b, prior) then (b, UnknownId)
    else if id != prior && b.Has(id) then (b, DuplicateId)
    else if maintainPriority then
      if price != Get(b.Queue(side), prior).price || id != prior then (b, BadPrice)
      else (b.With(side, Resize(b.Queue(side), prior, quantity)), Ok)
    else if b.Count() >= capacity then (b, AllocationFailed)
    else (b.With(side, Insert(side, Remove(b.Queue(side), prior), Entry(id, price, quantity))), Ok)
  }

  /** The consistency a book keeps: priority order, unique identifiers, live quantities. */
  ghost predicate Consistent(b: Book) {
    && Ordered(Bid, b.bids) && Distinct(b.bids) && Positive(b.bids)
    && Ordered(Ask, b.asks) && Distinct(b.asks) && Positive(b.asks)
    && forall id :: HasId(b.bids, id) ==> !HasId(b.asks, id)
  }

  lemma AddKeeps(b: Book, capacity: nat, id: OrderId, side: Side, price: Price, quantity: Quantity)
    requires Consistent(b)
    ensures Consistent(Add(b, capacity, id, side, price, quantity).0)
    ensures var r := Add(b, capacity, id, side, price, quantity);
            r.0.Count() == b.Count() + if r.1 == Ok then 1 else 0
  {
    var r := Add(b, capacity, id, side, price, quantity);
    if r.1 == Ok {
      InsertKeeps(side, b.Queue(side), Entry(id, price, quantity));
    }
  }

  lemma CancelKeeps(b: Book, id: OrderId)
    requires Consistent(b)
    ensures Consistent(CancelOrder(b, id).0)
    ensures CancelOrder(b, id).0.Count() == b.Count() - if b.Has(id) then 1 else 0
    ensures !CancelOrder(b, id).0.Has(id)
  {
    if b.Has(id) {
      RemoveKeeps(SideOf(b, id), b.Queue(SideOf(b, id)), id);
    }
  }

  lemma ExecuteKeeps(b: Book, id: OrderId, quantity: Quantity)
    requires Consistent(b)
    ensures Consistent(ExecuteOrder(b, id, quantity).0)
    ensures ExecuteOrder(b, id, quantity).0.Count() <= b.Count()
  {
    var r := ExecuteOrder(b, id, quantity);
    if r.1 == Ok {
      var side := SideOf(b, id);
      var left := Get(b.Queue(side), id).quantity - quantity;
      if left == 0 {
        RemoveKeeps(side, b.Queue(side), id);
      } else {
        ResizeKeeps(side, b.Queue(side), id, left);
      }
    }
  }

  /** The front of the best bid is below the front of the best ask. */
  predicate Uncrossed(b: Book) {
    b.bids != [] && b.asks != [] ==> b.bids[0].price < b.asks[0].price
  }

  /** Being uncrossed at the front is being uncrossed everywhere. */
  lemma UncrossedEverywhere(b: Book)
    requires Consistent(b)
    ensures Uncrossed(b) <==> forall x, y | x in b.bids && y in b.asks :: x.price < y.price
  {
    if b.bids != [] && b.asks != [] {
      forall x, y | x in b.bids && y in b.asks
        ensures b.bids[0].price < b.asks[0].price ==> x.price < y.price
      {
        FrontIsBest(Bid, b.bids, x);
        FrontIsBest(Ask, b.asks, y);
      }
      assert b.bids[0] in b.bids && b.asks[0] in b.asks;
    }
  }

  /** Whether a book is consistent. */
  method CheckBook(b: Book) returns (ok: bool)
    ensures ok <==> Consistent(b)
  {
    if !(Ordered(Bid, b.bids) && Distinct(b.bids) && Positive(b.bids)
         && Ordered(Ask, b.asks) && Distinct(b.asks) && Positive(b.asks))
    {
      return false;
    }
    for i := 0 to |b.bids|
      invariant forall k | 0 <= k < i :: !HasId(b.asks, b.bids[k].id)
    {
      if HasId(b.asks, b.bids[i].id) {
        assert b.bids[i] in b.bids;
        return false;
      }
    }
    return true;
  }
}
