/** The ring as an object: the same masked, wrapping indices over a buffer, one call at a time. */
module SpscQueue {
  import opened Arithmetic
  import opened Ring

  /** The slot of the item `i` places after index `c`. */
  function Slot(c: nat, i: nat, size: nat): (r: nat)
    requires size > 0
    ensures r < size
  {
    (c + i) % size
  }

  /** The `n` items from index `c` on, in the order the ring holds them. */
  ghost function Window<T>(b: seq<T>, c: nat, n: nat): (r: seq<T>)
    requires b != []
    ensures |r| == n
  {
    seq(n, i requires i >= 0 => b[Slot(c, i, |b|)])
  }

  class LFQueue<T(0)> {
    const wrap: nat
    const buffers: array<T>
    var prod: nat
    var cons: nat

    ghost function Shape(): Config {
      Config(buffers.Length, wrap, 0)
    }

    /** How many items are unread: the wrapped difference of the indices. */
    ghost function Unread(): nat
      requires ConfigOk(Shape())
      reads this
    {
      (prod - cons) % wrap
    }

    ghost predicate Valid()
      reads this
    {
      ConfigOk(Shape()) && prod < wrap && cons < wrap && Unread() <= buffers.Length
    }

    /** The unread items, oldest first. */
    ghost function Contents(): seq<T>
      requires Valid()
      reads this, buffers
    {
      Window(buffers[..], cons, Unread())
    }

    constructor (size: nat, wrap: nat)
      requires ConfigOk(Config(size, wrap, 0))
      ensures Valid() && fresh(buffers) && buffers.Length == size && Contents() == []
    {
      this.wrap := wrap;
      buffers := new T[size];
      prod, cons := 0, 0;
    }

    method TryPush(data: T) returns (ok: bool)
      requires Valid()
      modifies this`prod, buffers
      ensures Valid()
      ensures ok <==> |old(Contents())| < buffers.Length
      ensures Contents() == if ok then old(Contents()) + [data] else old(Contents())
    {
      hide Window, Slot;
      if (prod - cons) % wrap == buffers.Length {
        return false;
      }
      PushWindow(buffers[..], Shape(), cons, Unread(), prod, data);
      AddOne(cons, Unread(), prod, wrap);
      buffers[prod % buffers.Length] := data;
      assert buffers[..] == old(buffers[..])[prod % buffers.Length := data];
      prod := (prod + 1) % wrap;
      return true;
    }

    method TryPop(data: T) returns (ok: bool, item: T)
      requires Valid()
      modifies this`cons
      ensures Valid()
      ensures ok <==> old(Contents()) != []
      ensures if ok then old(Contents()) == [item] + Contents() else item == data && Contents() == old(Contents())
    {
      hide Window, Slot;
      if prod == cons {
        Small(wrap);
        return false, data;
      }
      RemoveOne(cons, Unread(), prod, wrap);
      PopWindow(buffers[..], Shape(), cons, Unread());
      item := buffers[cons % buffers.Length];
      cons := (cons + 1) % wrap;
      ok := true;
    }
  }

  lemma Small(w: nat)
    requires w > 0
    ensures 0 % w == 0
  {
  }

  /** Writing at the producer's index adds one item behind the others and disturbs none. */
  lemma PushWindow<T>(b: seq<T>, r: Config, c: nat, n: nat, p: nat, x: T)
    requires ConfigOk(r) && |b| == r.size && n < r.size && c < r.wrap && p < r.wrap && n == (p - c) % r.wrap
    ensures Window(b[p % r.size := x], c, n + 1) == Window(b, c, n) + [x]
  {
    WrappedSum(c, n, p, r.wrap);
    MaskWrapped(r, c + n);
    assert p % r.size == Slot(c, n, r.size);
    SlotsDiffer(c, n, r.size);
    hide Slot;
  }

  /** Advancing the consumer's index drops the oldest item. */
  lemma PopWindow<T>(b: seq<T>, r: Config, c: nat, n: nat)
    requires ConfigOk(r) && |b| == r.size && n > 0
    ensures Window(b, c, n) == [b[c % r.size]] + Window(b, (c + 1) % r.wrap, n - 1)
  {
    var d := (c + 1) % r.wrap;
    SlotsShift(r, c, d, n - 1);
    assert Slot(c, 0, r.size) == c % r.size;
    hide Slot;
    var w, v := Window(b, c, n), Window(b, d, n - 1);
    forall i | 0 <= i < n ensures w[i] == ([b[c % r.size]] + v)[i] {
      if i > 0 {
        assert Slot(d, i - 1, r.size) == Slot(c, i - 1 + 1, r.size);
      }
    }
  }

  /** The wrapped difference, added back, gives the other index. */
  lemma WrappedSum(c: nat, n: nat, p: nat, w: nat)
    requires w > 0 && c < w && p < w && n == (p - c) % w
    ensures c + n == p || c + n == p + w
    ensures p == (c + n) % w
  {
    var q := (p - c) / w;
    assert p - c == q * w + n;
    Multiples(q, w);
    if c + n == p {
      Quotient(p, 0, p, w);
    } else {
      Multiples(q + 1, w);
      assert (q + 1) * w == q * w + w;
      Quotient(c + n, 1, p, w);
    }
  }

  lemma AddOne(c: nat, n: nat, p: nat, w: nat)
    requires w > 0 && c < w && p < w && n == (p - c) % w && n + 1 < w
    ensures ((p + 1) % w - c) % w == n + 1
  {
    WrappedSum(c, n, p, w);
    var x := (p + 1) % w;
    if p + 1 < w {
      Quotient(p + 1, 0, p + 1, w);
    } else {
      Quotient(p + 1, 1, 0, w);
    }
    Residue(x - c, n + 1, w);
  }

  lemma RemoveOne(c: nat, n: nat, p: nat, w: nat)
    requires w > 0 && c < w && p < w && n == (p - c) % w && p != c
    ensures n > 0 && (p - (c + 1) % w) % w == n - 1
  {
    WrappedSum(c, n, p, w);
    var x := (c + 1) % w;
    if c + 1 < w {
      Quotient(c + 1, 0, c + 1, w);
    } else {
      Quotient(c + 1, 1, 0, w);
    }
    Residue(p - x, n - 1, w);
  }

  lemma MaskSum(r: Config, x: nat, i: nat)
    requires ConfigOk(r)
    ensures Slot(x % r.wrap, i, r.size) == Slot(x, i, r.size)
  {
    var q, m := Divided(x, r.wrap);
    var k, zero := Divided(r.wrap, r.size);
    Scaled(x, q, m, k, r.size);
    ModStep(m + i, q * k, r.size);
  }

  lemma SlotsShift(r: Config, c: nat, d: nat, n: nat)
    requires ConfigOk(r) && d == (c + 1) % r.wrap
    ensures forall i: nat | i < n :: Slot(d, i, r.size) == Slot(c, i + 1, r.size)
  {
    forall i: nat | i < n ensures Slot(d, i, r.size) == Slot(c, i + 1, r.size) {
      MaskSum(r, c + 1, i);
    }
  }

  lemma SlotsDiffer(c: nat, n: nat, size: nat)
    requires n < size
    ensures forall i: nat | i < n :: Slot(c, i, size) != Slot(c, n, size)
  {
    forall i: nat | i < n ensures Slot(c, i, size) != Slot(c, n, size) {
      SlotsApart(size, c + i, c + n);
    }
  }
}
