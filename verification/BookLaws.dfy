/**
 What each book operation does, told level by level: which FIFO queue changes, at which
 position and how, and exactly when the operation is refused and why.
 */
module BookLaws {
  import opened Types
  import opened BookModel
  import opened OrderBooks

  /** The FIFO queue of one side at one price. */
  function Fifo(b: Book, side: Side, p: Price): seq<Entry> {
    AtPrice(b.Queue(side), p)
  }

  /** Order `e` stands on a side of the book. */
  predicate Stands(b: Book, side: Side, e: Entry) {
    e in b.Queue(side)
  }

  // ---- Queues without an order, or with another quantity ------------------

  /** A queue without the orders under some numbers. */
  function Without(queue: seq<Entry>, gone: set<OrderId>): seq<Entry> {
    if queue == [] then []
    else if queue[0].id in gone then Without(queue[1..], gone)
    else [queue[0]] + Without(queue[1..], gone)
  }

  lemma {:induction false} WithoutMore(queue: seq<Entry>, id: OrderId, gone: set<OrderId>)
    ensures Without(Remove(queue, id), gone) == Without(queue, {id} + gone)
  {
    if queue != [] {
      WithoutMore(queue[1..], id, gone);
      if queue[0].id != id {
        assert Remove(queue, id)[1..] == Remove(queue[1..], id);
      }
    }
  }

  lemma {:induction false} WithoutNone(queue: seq<Entry>)
    ensures Without(queue, {}) == queue
  {
    if queue != [] {
      WithoutNone(queue[1..]);
    }
  }

  lemma {:induction false} WithoutAbsent(queue: seq<Entry>, id: OrderId)
    requires forall e | e in queue :: e.id != id
    ensures Without(queue, {id}) == queue
  {
    if queue != [] {
      assert queue[0] in queue;
      WithoutAbsent(queue[1..], id);
    }
  }

  /** The quantity of one order is set where it stands. */
  ghost predicate SetInPlace(q: seq<Entry>, q': seq<Entry>, id: OrderId, quantity: Quantity) {
    && |q'| == |q|
    && forall k | 0 <= k < |q| :: q'[k] == if q[k].id == id then Entry(id, q[k].price, quantity) else q[k]
  }

  // ---- Lists of distinct orders -------------------------------------------

  lemma {:induction false} RemoveIndex(s: seq<Entry>, k: nat)
    requires Distinct(s) && k < |s|
    ensures Remove(s, s[k].id) == s[..k] + s[k + 1..]
  {
    var rest := s[1..];
    if k == 0 {
      NotAmong(rest, s[0].id);
    } else {
      assert rest[k - 1] == s[k] && rest[k - 1] in rest;
      RemoveIndex(rest, k - 1);
      assert Remove(s, s[k].id) == [s[0]] + Remove(rest, rest[k - 1].id);
      hide Remove, Distinct;
      Shifted(s, k);
    }
  }

  lemma Shifted(s: seq<Entry>, k: nat)
    requires 0 < k < |s|
    ensures s[..k] + s[k + 1..] == [s[0]] + (s[1..][..k - 1] + s[1..][k..])
  {
  }

  lemma RemovedAt(s: seq<Entry>, e: Entry) returns (k: nat)
    requires Distinct(s) && e in s
    ensures k < |s| && s[k] == e && Remove(s, e.id) == s[..k] + s[k + 1..]
  {
    k :| k < |s| && s[k] == e;
    RemoveIndex(s, k);
  }

  lemma NotAmong(s: seq<Entry>, id: OrderId)
    requires forall e | e in s :: e.id != id
    ensures Remove(s, id) == s
  {
  }

  lemma {:induction false} DistinctAt(s: seq<Entry>, i: nat, j: nat)
    requires Distinct(s) && i < j < |s|
    ensures s[i].id != s[j].id
  {
    if i == 0 {
      assert s[j] == s[1..][j - 1];
    } else {
      DistinctAt(s[1..], i - 1, j - 1);
    }
  }

  lemma ResizedAt(s: seq<Entry>, e: Entry, quantity: Quantity) returns (k: nat)
    requires Distinct(s) && e in s
    ensures k < |s| && s[k] == e && Resize(s, e.id, quantity) == s[k := e.(quantity := quantity)]
  {
    k :| k < |s| && s[k] == e;
    forall i | 0 <= i < |s| && i != k ensures s[i].id != e.id {
      DistinctAt(s, if i < k then i else k, if i < k then k else i);
    }
    hide Distinct;
    assert Resize(s, e.id, quantity) == s[k := e.(quantity := quantity)];
  }

  lemma {:induction false} AtPriceDistinct(s: seq<Entry>, p: Price)
    requires Distinct(s)
    ensures Distinct(AtPrice(s, p))
  {
    if s != [] {
      AtPriceDistinct(s[1..], p);
      var t := AtPrice(s[1..], p);
      forall x | x in t ensures x in s[1..] {
        AtPriceMember(s[1..], p, x);
      }
      assert ([s[0]] + t)[1..] == t;
    }
  }

  /** Removing an order takes one position out of its own level and leaves every other level alone. */
  lemma RemoveFromLevel(s: seq<Entry>, e: Entry) returns (k: nat)
    requires Distinct(s) && e in s
    ensures k < |AtPrice(s, e.price)| && AtPrice(s, e.price)[k] == e
    ensures AtPrice(Remove(s, e.id), e.price) == AtPrice(s, e.price)[..k] + AtPrice(s, e.price)[k + 1..]
    ensures forall p: Price | p != e.price :: AtPrice(Remove(s, e.id), p) == AtPrice(s, p)
  {
    AtPriceDistinct(s, e.price);
    AtPriceMember(s, e.price, e);
    AtPriceRemove(s, e.id, e.price);
    k := RemovedAt(AtPrice(s, e.price), e);
    forall p: Price | p != e.price ensures AtPrice(Remove(s, e.id), p) == AtPrice(s, p) {
      AtPriceRemove(s, e.id, p);
      ElsewhereAt(s, e, p);
      NotAmong(AtPrice(s, p), e.id);
    }
  }

  /** An order is on no level but its own. */
  lemma ElsewhereAt(s: seq<Entry>, e: Entry, p: Price)
    requires Distinct(s) && e in s && p != e.price
    ensures forall x | x in AtPrice(s, p) :: x.id != e.id
  {
    forall x | x in AtPrice(s, p) ensures x.id != e.id {
      AtPriceMember(s, p, x);
      GetUnique(s, x);
      GetUnique(s, e);
    }
  }

  /** Resizing an order changes one position of its own level, in place. */
  lemma ResizeInLevel(s: seq<Entry>, e: Entry, quantity: Quantity) returns (k: nat)
    requires Distinct(s) && e in s
    ensures k < |AtPrice(s, e.price)| && AtPrice(s, e.price)[k] == e
    ensures AtPrice(Resize(s, e.id, quantity), e.price) == AtPrice(s, e.price)[k := e.(quantity := quantity)]
    ensures forall p: Price | p != e.price :: AtPrice(Resize(s, e.id, quantity), p) == AtPrice(s, p)
  {
    AtPriceDistinct(s, e.price);
    AtPriceMember(s, e.price, e);
    AtPriceResize(s, e.id, quantity, e.price);
    k := ResizedAt(AtPrice(s, e.price), e, quantity);
    forall p: Price | p != e.price ensures AtPrice(Resize(s, e.id, quantity), p) == AtPrice(s, p) {
      AtPriceResize(s, e.id, quantity, p);
      ElsewhereAt(s, e, p);
      var t := AtPrice(s, p);
      assert forall i | 0 <= i < |t| :: t[i] in t;
      assert Resize(t, e.id, quantity) == t;
    }
  }

  // ---- The operations -----------------------------------------------------

  /** Everything outside one level is as it was. */
  ghost predicate OnlyLevel(b: Book, b': Book, side: Side, price: Price) {
    forall s: Side, p: Price | s != side || p != price :: Fifo(b', s, p) == Fifo(b, s, p)
  }

  /** Adding: to the end of its level, or refused for the first of four reasons and without effect. */
  lemma AddLaw(b: Book, capacity: nat, id: OrderId, side: Side, price: Price, quantity: Quantity)
    requires Consistent(b)
    ensures var (b', result) := Add(b, capacity, id, side, price, quantity);
      && (result == BadQuantity <==> quantity == 0)
      && (result == BadPrice <==> quantity > 0 && price == 0)
      && (result == DuplicateId <==> quantity > 0 && price > 0 && exists s, e :: Stands(b, s, e) && e.id == id)
      && (result == Ok ==> |b.bids| + |b.asks| < capacity)
      && (result == AllocationFailed ==> |b.bids| + |b.asks| >= capacity && quantity > 0 && price > 0)
      && (result in {Ok, BadQuantity, BadPrice, DuplicateId, AllocationFailed})
      && (if result != Ok then b' == b
          else OnlyLevel(b, b', side, price) && Fifo(b', side, price) == Fifo(b, side, price) + [Entry(id, price, quantity)])
  {
    HeldAnywhere(b, id);
    hide Insert, AtPrice, Ordered, Distinct, Positive, HasId;
    var r := Add(b, capacity, id, side, price, quantity);
    if r.1 == Ok {
      forall p: Price
        ensures Fifo(r.0, side, p) == if p == price then Fifo(b, side, p) + [Entry(id, price, quantity)] else Fifo(b, side, p)
      {
        InsertAtPrice(side, b.Queue(side), Entry(id, price, quantity), p);
      }
    }
  }

  lemma HeldAnywhere(b: Book, id: OrderId)
    ensures b.Has(id) <==> exists s, e :: Stands(b, s, e) && e.id == id
  {
    if b.Has(id) {
      var s := if HasId(b.bids, id) then Bid else Ask;
      assert Stands(b, s, Get(b.Queue(s), id));
    }
    if e, s :| Stands(b, s, e) && e.id == id {
      assert HasId(b.Queue(s), id);
    }
  }

  /** The only order under its number. */
  lemma TheOrder(b: Book, side: Side, e: Entry)
    requires Consistent(b) && Stands(b, side, e)
    ensures b.Has(e.id) && SideOf(b, e.id) == side && Get(b.Queue(side), e.id) == e
  {
    GetUnique(b.Queue(side), e);
  }

  /** Cancelling: one position leaves its level and everything behind it moves up. */
  lemma CancelLaw(b: Book, side: Side, e: Entry) returns (k: nat)
    requires Consistent(b) && Stands(b, side, e)
    ensures k < |Fifo(b, side, e.price)| && Fifo(b, side, e.price)[k] == e
    ensures var (b', result) := CancelOrder(b, e.id);
      && result == Ok && OnlyLevel(b, b', side, e.price)
      && Fifo(b', side, e.price) == Fifo(b, side, e.price)[..k] + Fifo(b, side, e.price)[k + 1..]
  {
    TheOrder(b, side, e);
    hide Remove, AtPrice, HasId, Get, Ordered, Distinct, Positive;
    k := RemoveFromLevel(b.Queue(side), e);
  }

  /** An order that is not there can be neither cancelled nor executed nor replaced. */
  lemma UnknownLaw(b: Book, capacity: nat, id: OrderId, other: OrderId, side: Side, price: Price, quantity: Quantity,
                   keep: bool)
    requires forall s, e | Stands(b, s, e) :: e.id != id
    ensures CancelOrder(b, id) == (b, UnknownId) && ExecuteOrder(b, id, quantity) == (b, UnknownId)
    ensures ReplaceOrder(b, capacity, id, other, side, price, quantity, keep) == (b, UnknownId)
  {
    HeldAnywhere(b, id);
  }

  /** A new queue that differs from the old one at one price is a change of one level. */
  lemma QueueChanged(b: Book, side: Side, q: seq<Entry>, price: Price)
    requires forall p: Price | p != price :: AtPrice(q, p) == AtPrice(b.Queue(side), p)
    ensures OnlyLevel(b, b.With(side, q), side, price) && Fifo(b.With(side, q), side, price) == AtPrice(q, price)
  {
    hide AtPrice;
  }

  /** Executing is accepted for any part of what the order has, up to all of it. */
  lemma ExecuteAnswer(b: Book, side: Side, e: Entry, quantity: Quantity)
    requires Consistent(b) && Stands(b, side, e)
    ensures var (b', result) := ExecuteOrder(b, e.id, quantity);
      && (result == BadQuantity <==> quantity == 0)
      && (result == QuantityExceedsRemaining <==> quantity > e.quantity)
      && (result == Ok <==> 0 < quantity <= e.quantity)
      && (result != Ok ==> b' == b)
  {
    TheOrder(b, side, e);
    assert e.quantity > 0;
    hide Remove, Resize, HasId, Get, Ordered, Distinct, Positive;
  }

  /** A partial execution takes the quantity off in place. */
  lemma ExecutePart(b: Book, side: Side, e: Entry, quantity: Quantity) returns (k: nat)
    requires Consistent(b) && Stands(b, side, e) && 0 < quantity < e.quantity
    ensures k < |Fifo(b, side, e.price)| && Fifo(b, side, e.price)[k] == e
    ensures var (b', result) := ExecuteOrder(b, e.id, quantity);
      && result == Ok && OnlyLevel(b, b', side, e.price)
      && Fifo(b', side, e.price) == Fifo(b, side, e.price)[k := Entry(e.id, e.price, e.quantity - quantity)]
  {
    hide ExecuteOrder, CancelOrder, Remove, Resize, HasId, Get, Ordered, Distinct, Positive, OnlyLevel, SideOf, AtPrice;
    TheOrder(b, side, e);
    ExecuteByQuantity(b, e.id, quantity);
    k := ResizeInLevel(b.Queue(side), e, e.quantity - quantity);
    QueueChanged(b, side, Resize(b.Queue(side), e.id, e.quantity - quantity), e.price);
  }

  /** A full execution takes the order out, as a cancellation would. */
  lemma ExecuteWhole(b: Book, side: Side, e: Entry) returns (k: nat)
    requires Consistent(b) && Stands(b, side, e)
    ensures k < |Fifo(b, side, e.price)| && Fifo(b, side, e.price)[k] == e
    ensures var (b', result) := ExecuteOrder(b, e.id, e.quantity);
      && result == Ok && OnlyLevel(b, b', side, e.price)
      && Fifo(b', side, e.price) == Fifo(b, side, e.price)[..k] + Fifo(b, side, e.price)[k + 1..]
  {
    TheOrder(b, side, e);
    assert e.quantity > 0;
    hide Remove, Resize, AtPrice, HasId, Get, Ordered, Distinct, Positive;
    k := RemoveFromLevel(b.Queue(side), e);
  }

  /** Why a replacement of an order that is there is refused. */
  predicate Replaceable(b: Book, capacity: nat, own: Side, e: Entry, id: OrderId, side: Side, price: Price,
                        quantity: Quantity, keep: bool)
  {
    && quantity > 0 && price > 0 && side == own
    && (id == e.id || ((forall x | x in b.bids :: x.id != id) && (forall x | x in b.asks :: x.id != id)))
    && (if keep then price == e.price && id == e.id else |b.bids| + |b.asks| < capacity)
  }

  /** A replacement is accepted exactly when it fits, and changes nothing otherwise. */
  lemma ReplaceAnswer(b: Book, capacity: nat, own: Side, e: Entry, id: OrderId, side: Side, price: Price,
                      quantity: Quantity, keep: bool)
    requires Consistent(b) && Stands(b, own, e)
    ensures var (b', result) := ReplaceOrder(b, capacity, e.id, id, side, price, quantity, keep);
      && (result == Ok <==> Replaceable(b, capacity, own, e, id, side, price, quantity, keep))
      && (result != Ok ==> b' == b)
  {
    TheOrder(b, own, e);
    HeldAnywhere(b, id);
    assert (forall x | x in b.bids :: Stands(b, Bid, x)) && (forall x | x in b.asks :: Stands(b, Ask, x));
    hide Remove, Resize, Insert, HasId, Get, Ordered, Distinct, Positive;
  }

  /** With priority kept, one position changes its quantity in place. */
  lemma ReplaceInPlace(b: Book, capacity: nat, own: Side, e: Entry, quantity: Quantity) returns (k: nat)
    requires Consistent(b) && Stands(b, own, e) && quantity > 0
    ensures k < |Fifo(b, own, e.price)| && Fifo(b, own, e.price)[k] == e
    ensures var (b', result) := ReplaceOrder(b, capacity, e.id, e.id, own, e.price, quantity, true);
      && result == Ok && OnlyLevel(b, b', own, e.price)
      && Fifo(b', own, e.price) == Fifo(b, own, e.price)[k := Entry(e.id, e.price, quantity)]
  {
    TheOrder(b, own, e);
    assert e.price > 0;
    hide Remove, Resize, Insert, AtPrice, HasId, Get, Ordered, Distinct, Positive;
    k := ResizeInLevel(b.Queue(own), e, quantity);
  }

  /**
   Without it, the order leaves its position and joins the end of its new level, which may be the one it left.
   */
  lemma ReplaceBehind(b: Book, capacity: nat, own: Side, e: Entry, id: OrderId, price: Price, quantity: Quantity)
      returns (k: nat)
    requires Consistent(b) && Stands(b, own, e)
    requires Replaceable(b, capacity, own, e, id, own, price, quantity, false)
    ensures k < |Fifo(b, own, e.price)| && Fifo(b, own, e.price)[k] == e
    ensures var b' := ReplaceOrder(b, capacity, e.id, id, own, price, quantity, false).0;
      var was, next := Fifo(b, own, e.price), Entry(id, price, quantity);
      var without := was[..k] + was[k + 1..];
      && (forall s: Side, p: Price | s != own || (p != price && p != e.price) :: Fifo(b', s, p) == Fifo(b, s, p))
      && (price == e.price ==> Fifo(b', own, price) == without + [next])
      && (price != e.price ==>
            Fifo(b', own, e.price) == without && Fifo(b', own, price) == Fifo(b, own, price) + [next])
  {
    ReplaceAnswer(b, capacity, own, e, id, own, price, quantity, false);
    TheOrder(b, own, e);
    var q := b.Queue(own);
    RemoveKeeps(own, q, e.id);
    hide Remove, Resize, Insert, AtPrice, HasId, Get, Ordered, Distinct, Positive, Replaceable;
    k := RemoveFromLevel(q, e);
    forall p: Price
      ensures AtPrice(Insert(own, Remove(q, e.id), Entry(id, price, quantity)), p)
           == if p == price then AtPrice(Remove(q, e.id), p) + [Entry(id, price, quantity)] else AtPrice(Remove(q, e.id), p)
    {
      InsertAtPrice(own, Remove(q, e.id), Entry(id, price, quantity), p);
    }
  }

  /** Two consistent books with the same levels are the same book. */
  lemma LevelsTell(a: Book, b: Book)
    requires Consistent(a) && Consistent(b) && forall s: Side, p: Price :: Fifo(a, s, p) == Fifo(b, s, p)
    ensures a == b
  {
    forall p: Price ensures AtPrice(a.bids, p) == AtPrice(b.bids, p) && AtPrice(a.asks, p) == AtPrice(b.asks, p) {
      assert Fifo(a, Bid, p) == Fifo(b, Bid, p) && Fifo(a, Ask, p) == Fifo(b, Ask, p);
    }
    LevelsDetermine(Bid, a.bids, b.bids);
    LevelsDetermine(Ask, a.asks, b.asks);
  }
}
