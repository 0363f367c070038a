/** Totals of finite maps, and the keys of an ordered map as an increasing sequence. */
module Sums {
  ghost function Pick<K>(s: set<K>): (k: K)
    requires s != {}
    ensures k in s
  {
    var k :| k in s;
    k
  }

  /** The sum of all values of a finite map. */
  ghost function Total<K>(m: map<K, int>): int
    decreases m.Keys
  {
    if m == map[] then 0 else
    var k := Pick(m.Keys);
    m[k] + Total(m - {k})
  }

  /** Any key may be taken out of a total first. */
  lemma {:induction false} TotalRemove<K>(m: map<K, int>, k: K)
    requires k in m
    ensures Total(m) == m[k] + Total(m - {k})
    decreases m.Keys
  {
    var p := Pick(m.Keys);
    if p != k {
      TotalRemove(m - {p}, k);
      TotalRemove(m - {k}, p);
      assert m - {p} - {k} == m - {k} - {p};
    }
  }

  lemma TotalInsert<K>(m: map<K, int>, k: K, v: int)
    requires k !in m
    ensures Total(m[k := v]) == Total(m) + v
  {
    TotalRemove(m[k := v], k);
    assert m[k := v] - {k} == m;
  }

  /** Changing one value changes the total by the difference. */
  lemma TotalUpdate<K>(m: map<K, int>, k: K, v: int)
    requires k in m
    ensures Total(m[k := v]) == Total(m) - m[k] + v
  {
    TotalRemove(m, k);
    TotalRemove(m[k := v], k);
    assert m[k := v] - {k} == m - {k};
  }

  lemma {:induction false} TotalNonNegative<K>(m: map<K, int>)
    requires forall k | k in m :: m[k] >= 0
    ensures Total(m) >= 0
    decreases m.Keys
  {
    if m != map[] {
      TotalNonNegative(m - {Pick(m.Keys)});
    }
  }

  /** A finite set within another of the same size is that set. */
  lemma {:induction false} Within<T>(a: set<T>, b: set<T>)
    requires a <= b
    ensures |a| <= |b| && (|a| == |b| ==> a == b)
    decreases a
  {
    if a != {} {
      var x := Pick(a);
      Within(a - {x}, b - {x});
      assert a == (a - {x}) + {x} && b == (b - {x}) + {x};
    } else if b != {} {
      assert |b| > 0;
    }
  }

  // ---- Ordered iteration -------------------------------------------------

  ghost predicate IsLeast(s: set<nat>, k: nat) {
    k in s && forall x | x in s :: k <= x
  }

  lemma {:induction false} LeastExists(s: set<nat>)
    requires s != {}
    ensures exists k :: IsLeast(s, k)
    decreases s
  {
    var p := Pick(s);
    if s == {p} {
      assert IsLeast(s, p);
    } else {
      LeastExists(s - {p});
      var q :| IsLeast(s - {p}, q);
      var m := if p < q then p else q;
      forall x | x in s ensures m <= x {
        assert x == p || x in s - {p};
      }
      assert IsLeast(s, m);
    }
  }

  /** The first key an ordered map visits. */
  function Least(s: set<nat>): (k: nat)
    requires s != {}
    ensures k in s
    ensures forall x | x in s :: k <= x
  {
    LeastExists(s);
    assert exists k :: k in s && forall x | x in s :: k <= x by {
      var k :| IsLeast(s, k);
    }
    var k :| k in s && forall x | x in s :: k <= x;
    k
  }

  /** The keys of an ordered map, in the order of iteration. */
  function SortedKeys(s: set<nat>): (keys: seq<nat>)
    ensures forall k :: k in keys <==> k in s
    ensures forall i, j | 0 <= i < j < |keys| :: keys[i] < keys[j]
    ensures |keys| == |s|
    decreases s
  {
    if s == {} then [] else
    var k := Least(s);
    [k] + SortedKeys(s - {k})
  }

  ghost predicate Increasing(keys: seq<nat>) {
    forall i, j | 0 <= i < j < |keys| :: keys[i] < keys[j]
  }

  lemma PrefixStep(keys: seq<nat>, n: nat)
    requires Increasing(keys) && n < |keys|
    ensures keys[..n + 1] == keys[..n] + [keys[n]]
    ensures keys[n] !in keys[..n]
  {
  }

  lemma NoElements(b: seq<nat>)
    ensures b == [] || exists k :: k in b
  {
    if b != [] {
      assert b[0] in b;
    }
  }

  /** An increasing sequence is determined by its elements. */
  lemma {:induction false} SortedUnique(a: seq<nat>, b: seq<nat>)
    requires Increasing(a) && Increasing(b)
    requires forall k :: k in a <==> k in b
    ensures a == b
    decreases |a|
  {
    if a == [] {
      NoElements(b);
    } else {
      assert a[0] in b && b != [];
      assert b[0] in a;
      assert a[0] == b[0];
      forall k ensures k in a[1..] <==> k in b[1..] {
        assert k in a[1..] ==> k in a && k != a[0];
        assert k in b[1..] ==> k in b && k != b[0];
      }
      SortedUnique(a[1..], b[1..]);
    }
  }
}
