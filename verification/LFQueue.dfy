/**
 The single-producer single-consumer ring as a system of interleaved steps.

 Each thread loads the two indices, copies an item word by word and stores its own index,
 one atomic action at a time; the scheduler picks which thread moves next. Indices are
 machine words that wrap at `wrap`, and a slot is found by masking. `pushed` and `popped`
 record what the stores have made visible; nothing in the machine reads them.
 */
module Ring {
  import opened Arithmetic

  /** One word of an item; the ring never looks inside. */
  type Word = nat
  type Item = seq<Word>

  datatype Config = Config(size: nat, wrap: nat, width: nat)

  /** The static assertions: a power of two of slots, fewer than the index type can count. */
  predicate ConfigOk(r: Config) {
    0 < r.size < r.wrap && r.wrap % r.size == 0
  }

  datatype Producer =
    | Resting
    | LoadedProducerIndex(item: Item, at: nat)
    | Writing(source: Item, slotAt: nat, written: nat)

  datatype Consumer =
    | Waiting
    | LoadedIndex(limit: nat, seen: nat)
    | Reading(at: nat, got: Item)

  datatype State = State(
    prod: nat,
    cons: nat,
    slots: seq<Item>,
    producer: Producer,
    consumer: Consumer,
    pushed: seq<Item>,
    popped: seq<Item>)

  /** What a step tells the caller of `try_push` or `try_pop`. */
  datatype Event = Internal | Pushed | Full | Popped(item: Item) | Empty

  predicate IsFull(r: Config, prod: nat, cons: nat)
    requires ConfigOk(r)
  {
    (prod - cons) % r.wrap == r.size
  }

  predicate IsEmpty(prod: nat, cons: nat) {
    prod == cons
  }

  predicate Shaped(r: Config, s: State) {
    && ConfigOk(r) && |s.slots| == r.size
    && (forall k | 0 <= k < r.size :: |s.slots[k]| == r.width)
    && (s.producer.LoadedProducerIndex? ==> |s.producer.item| == r.width)
    && (s.producer.Writing? ==> |s.producer.source| == r.width && s.producer.written <= r.width)
    && (s.consumer.Reading? ==> |s.consumer.got| <= r.width)
  }

  /** One action of the producer; `item` is what it pushes if it starts a call. */
  function Produce(r: Config, s: State, item: Item): (State, Event)
    requires Shaped(r, s)
  {
    match s.producer
    case Resting => (s.(producer := LoadedProducerIndex(item, s.prod)), Internal)
    case LoadedProducerIndex(v, at) =>
      if IsFull(r, at, s.cons) then (s.(producer := Resting), Full)
      else (s.(producer := Writing(v, at, 0)), Internal)
    case Writing(v, at, n) =>
      if n < r.width then
        (s.(slots := s.slots[at % r.size := s.slots[at % r.size][n := v[n]]], producer := Writing(v, at, n + 1)),
         Internal)
      else
        (s.(prod := (at + 1) % r.wrap, producer := Resting, pushed := s.pushed + [v]), Pushed)
  }

  /** One action of the consumer. */
  function Consume(r: Config, s: State): (State, Event)
    requires Shaped(r, s)
  {
    match s.consumer
    case Waiting => (s.(consumer := LoadedIndex(s.prod, |s.pushed|)), Internal)
    case LoadedIndex(limit, _) =>
      if IsEmpty(limit, s.cons) then (s.(consumer := Waiting), Empty)
      else (s.(consumer := Reading(s.cons, [])), Internal)
    case Reading(at, got) =>
      if |got| < r.width then (s.(consumer := Reading(at, got + [s.slots[at % r.size][|got|]])), Internal)
      else (s.(cons := (at + 1) % r.wrap, consumer := Waiting, popped := s.popped + [got]), Popped(got))
  }

  // ---- The invariant ------------------------------------------------------

  /** The items pushed and not yet popped. */
  function Contents(s: State): seq<Item>
    requires |s.popped| <= |s.pushed|
  {
    s.pushed[|s.popped|..]
  }

  ghost predicate Indices(r: Config, s: State)
    requires ConfigOk(r)
  {
    && |s.popped| <= |s.pushed| <= |s.popped| + r.size
    && s.prod == |s.pushed| % r.wrap
    && s.cons == |s.popped| % r.wrap
  }

  /** Every unread slot holds the whole of its item. */
  ghost predicate Unread(r: Config, s: State)
    requires ConfigOk(r) && |s.slots| == r.size && |s.popped| <= |s.pushed|
  {
    forall i | |s.popped| <= i < |s.pushed| :: s.slots[i % r.size] == s.pushed[i]
  }

  ghost predicate ProducerOk(r: Config, s: State)
    requires Shaped(r, s)
  {
    match s.producer
    case Resting => true
    case LoadedProducerIndex(_, at) => at == s.prod
    case Writing(v, at, n) =>
      && at == s.prod && |s.pushed| < |s.popped| + r.size
      && s.slots[|s.pushed| % r.size][..n] == v[..n]
  }

  ghost predicate ConsumerOk(r: Config, s: State)
    requires Shaped(r, s)
  {
    match s.consumer
    case Waiting => true
    case LoadedIndex(limit, seen) => |s.popped| <= seen <= |s.pushed| && limit == seen % r.wrap
    case Reading(at, got) =>
      at == s.cons && |s.popped| < |s.pushed| && |s.pushed[|s.popped|]| == r.width && got == s.pushed[|s.popped|][..|got|]
  }

  ghost predicate Inv(r: Config, s: State) {
    && Shaped(r, s) && Indices(r, s) && Unread(r, s) && ProducerOk(r, s) && ConsumerOk(r, s)
    && s.popped == s.pushed[..|s.popped|]
    && forall i | 0 <= i < |s.pushed| :: |s.pushed[i]| == r.width
  }

  // ---- Wrapped indices ----------------------------------------------------

  /** Masking a wrapped counter finds the slot of the counter itself. */
  lemma MaskWrapped(r: Config, n: nat)
    requires ConfigOk(r)
    ensures n % r.wrap % r.size == n % r.size
  {
    var q, m := Divided(n, r.wrap);
    var k, zero := Divided(r.wrap, r.size);
    Scaled(n, q, m, k, r.size);
    ModStep(m, q * k, r.size);
  }

  lemma Scaled(x: nat, q: nat, m: nat, k: nat, d: nat)
    requires x == q * (k * d) + m
    ensures x == m + (q * k) * d
  {
  }

  lemma {:induction false} ModStep(m: nat, k: nat, d: nat)
    requires d > 0
    ensures (m + k * d) % d == m % d
    decreases k
  {
    if k > 0 {
      ModStep(m, k - 1, d);
      var x := m + (k - 1) * d;
      assert m + k * d == x + d;
      ModPlus(x, d);
    }
  }

  lemma ModPlus(x: nat, d: nat)
    requires d > 0
    ensures (x + d) % d == x % d
  {
    var q := x / d;
    assert x == q * d + x % d;
    assert x + d == (q + 1) * d + x % d;
    Quotient(x + d, q + 1, x % d, d);
  }

  lemma WrappedNext(r: Config, n: nat)
    requires ConfigOk(r)
    ensures (n % r.wrap + 1) % r.wrap == (n + 1) % r.wrap
  {
    var q, m := n / r.wrap, n % r.wrap;
    assert n + 1 == (m + 1) + q * r.wrap;
    ModStep(m + 1, q, r.wrap);
  }

  /** The difference of two wrapped counters is the difference of the counters, as long as that fits. */
  lemma WrappedDistance(r: Config, a: nat, b: nat)
    requires ConfigOk(r) && b <= a <= b + r.size
    ensures (a % r.wrap - b % r.wrap) % r.wrap == a - b
    ensures a % r.wrap == b % r.wrap <==> a == b
  {
    WrappedApart(r.wrap, a, b);
    Residue(a % r.wrap - b % r.wrap, a - b, r.wrap);
  }

  lemma WrappedApart(w: nat, a: nat, b: nat)
    requires w > 0 && b <= a < b + w
    ensures a % w - b % w == a - b || a % w - b % w + w == a - b
  {
    var p, x := Divided(a, w);
    var q, y := Divided(b, w);
    Distance(w, a, b, p, q, x, y);
  }

  lemma Divided(n: nat, w: nat) returns (q: nat, m: nat)
    requires w > 0
    ensures n == q * w + m && m == n % w && m < w
  {
    q, m := n / w, n % w;
  }

  lemma Distance(w: nat, a: nat, b: nat, p: nat, q: nat, x: nat, y: nat)
    requires x < w && y < w && a == p * w + x && b == q * w + y && b <= a < b + w
    ensures x - y == a - b || x - y + w == a - b
  {
    assert (p - q) * w == p * w - q * w;
    Multiples(p - q, w);
  }

  lemma Residue(d: int, e: nat, w: nat)
    requires e < w && (d == e || d + w == e)
    ensures d % w == e
  {
    if d == e {
      Quotient(e, 0, e, w);
    } else {
      assert d == (-1) * w + e;
    }
  }

  /** Two counters less than the ring apart never share a slot. */
  lemma SlotsApart(n: nat, i: nat, j: nat)
    requires 0 < n && i < j < i + n
    ensures i % n != j % n
  {
    WrappedApart(n, j, i);
  }

  // ---- Every step ---------------------------------------------------------

  /** The bounded queue that the ring stands for: each step is atomic or invisible. */
  ghost predicate Atomic(r: Config, s: State, t: State, e: Event)
    requires |s.popped| <= |s.pushed| && |t.popped| <= |t.pushed|
  {
    match e
    case Internal => Contents(t) == Contents(s)
    case Pushed => |Contents(s)| < r.size && s.producer.Writing? && Contents(t) == Contents(s) + [s.producer.source]
    case Full => |Contents(s)| == r.size && Contents(t) == Contents(s)
    case Popped(item) => Contents(s) == [item] + Contents(t)
    case Empty => s.consumer.LoadedIndex? && s.consumer.seen == |s.popped| && Contents(t) == Contents(s)
  }

  /** Writing one word touches no unread slot. */
  lemma WriteKeepsUnread(r: Config, s: State, slot: Item)
    requires Inv(r, s) && |s.pushed| < |s.popped| + r.size
    ensures Unread(r, s.(slots := s.slots[|s.pushed| % r.size := slot]))
  {
    forall i | |s.popped| <= i < |s.pushed| ensures i % r.size != |s.pushed| % r.size {
      SlotsApart(r.size, i, |s.pushed|);
    }
  }

  lemma WriteKeeps(r: Config, s: State)
    requires Inv(r, s) && s.producer.Writing? && s.producer.written < r.width
    ensures Inv(r, Produce(r, s, []).0)
  {
    var n, v, at := s.producer.written, s.producer.source, s.producer.slotAt;
    var k := |s.pushed| % r.size;
    MaskWrapped(r, |s.pushed|);
    var slot := s.slots[k][n := v[n]];
    WriteKeepsUnread(r, s, slot);
    assert v[..n + 1] == v[..n] + [v[n]];
    assert slot[..n + 1] == s.slots[k][..n] + [v[n]];
    var t := Produce(r, s, []).0;
    assert t.slots == s.slots[k := slot];
  }

  lemma PublishKeeps(r: Config, s: State)
    requires Inv(r, s) && s.producer.Writing? && s.producer.written == r.width
    ensures Inv(r, Produce(r, s, []).0)
  {
    var v := s.producer.source;
    WrappedNext(r, |s.pushed|);
    assert v[..r.width] == v;
    assert s.slots[|s.pushed| % r.size][..r.width] == s.slots[|s.pushed| % r.size];
    var t := Produce(r, s, []).0;
    assert t.pushed == s.pushed + [v];
    assert t.pushed[..|t.popped|] == s.pushed[..|s.popped|];
  }

  /** Every producer step keeps the invariant and is an atomic step of the bounded queue. */
  lemma ProducerStep(r: Config, s: State, item: Item)
    requires Inv(r, s) && |item| == r.width
    ensures var (t, e) := Produce(r, s, item); Inv(r, t) && Atomic(r, s, t, e)
  {
    match s.producer
    case Resting =>
    case LoadedProducerIndex(v, at) =>
      WrappedDistance(r, |s.pushed|, |s.popped|);
    case Writing(v, at, n) =>
      if n < r.width {
        WriteKeeps(r, s);
      } else {
        PublishKeeps(r, s);
        assert (s.pushed + [v])[|s.popped|..] == s.pushed[|s.popped|..] + [v];
      }
  }

  lemma ReadKeeps(r: Config, s: State)
    requires Inv(r, s) && s.consumer.Reading? && |s.consumer.got| < r.width
    ensures Inv(r, Consume(r, s).0)
  {
    var c, got := |s.popped|, s.consumer.got;
    MaskWrapped(r, c);
    assert s.slots[c % r.size] == s.pushed[c];
    assert s.pushed[c][..|got| + 1] == s.pushed[c][..|got|] + [s.pushed[c][|got|]];
  }

  lemma ReleaseKeeps(r: Config, s: State)
    requires Inv(r, s) && s.consumer.Reading? && |s.consumer.got| == r.width
    ensures Inv(r, Consume(r, s).0) && s.consumer.got == s.pushed[|s.popped|]
  {
    var c := |s.popped|;
    WrappedNext(r, c);
    assert s.pushed[c][..r.width] == s.pushed[c];
    assert s.pushed[..c + 1] == s.pushed[..c] + [s.pushed[c]];
  }

  /** Every consumer step keeps the invariant and is an atomic step of the bounded queue. */
  lemma ConsumerStep(r: Config, s: State)
    requires Inv(r, s)
    ensures var (t, e) := Consume(r, s); Inv(r, t) && Atomic(r, s, t, e)
  {
    match s.consumer
    case Waiting =>
    case LoadedIndex(limit, seen) =>
      WrappedDistance(r, seen, |s.popped|);
    case Reading(at, got) =>
      if |got| < r.width {
        ReadKeeps(r, s);
      } else {
        ReleaseKeeps(r, s);
      }
  }

  // ---- Every interleaving -------------------------------------------------

  /** One choice of the scheduler. */
  datatype Choice = ProducerMoves(item: Item) | ConsumerMoves

  function Initial(r: Config, slots: seq<Item>): State {
    State(0, 0, slots, Resting, Waiting, [], [])
  }

  ghost predicate Sized(r: Config, choices: seq<Choice>) {
    forall c | c in choices && c.ProducerMoves? :: |c.item| == r.width
  }

  /** The state after a schedule, and everything the callers were told. */
  ghost function Run(r: Config, s: State, choices: seq<Choice>): (t: (State, seq<Event>))
    requires Inv(r, s) && Sized(r, choices)
    ensures Inv(r, t.0)
    decreases |choices|
  {
    if choices == [] then (s, [])
    else
      var c := choices[|choices| - 1];
      var (m, events) := Run(r, s, choices[..|choices| - 1]);
      if c.ProducerMoves? then
        ProducerStep(r, m, c.item);
        var (t, e) := Produce(r, m, c.item);
        (t, events + [e])
      else
        ConsumerStep(r, m);
        var (t, e) := Consume(r, m);
        (t, events + [e])
  }

  /** The values that calls of `try_pop` returned. */
  function Returned(events: seq<Event>): seq<Item> {
    if events == [] then []
    else
      var before, e := Returned(events[..|events| - 1]), events[|events| - 1];
      if e.Popped? then before + [e.item] else before
  }

  lemma InitialInv(r: Config, slots: seq<Item>)
    requires ConfigOk(r) && |slots| == r.size && forall k | 0 <= k < r.size :: |slots[k]| == r.width
    ensures Inv(r, Initial(r, slots))
  {
    assert 0 % r.wrap == 0;
  }

  /** One more choice of the scheduler. */
  lemma RunMore(r: Config, s: State, choices: seq<Choice>, c: Choice)
    requires Inv(r, s) && Sized(r, choices + [c])
    ensures Sized(r, choices) && (c.ProducerMoves? ==> |c.item| == r.width)
    ensures var (m, events) := Run(r, s, choices);
      var (t, e) := if c.ProducerMoves? then Produce(r, m, c.item) else Consume(r, m);
      Run(r, s, choices + [c]) == (t, events + [e]) && Inv(r, t) && Atomic(r, m, t, e)
  {
    hide Produce, Consume, Atomic, Shaped, Indices, Unread, ProducerOk, ConsumerOk;
    assert forall x | x in choices :: x in choices + [c];
    assert c in choices + [c];
    assert (choices + [c])[..|choices|] == choices;
    var (m, events) := Run(r, s, choices);
    if c.ProducerMoves? {
      ProducerStep(r, m, c.item);
    } else {
      ConsumerStep(r, m);
    }
  }

  lemma PoppedByStep(r: Config, s: State, c: Choice)
    requires Shaped(r, s)
    ensures var (t, e) := if c.ProducerMoves? then Produce(r, s, c.item) else Consume(r, s);
      t.popped == if e.Popped? then s.popped + [e.item] else s.popped
  {
  }

  lemma {:induction false} ReturnedIsPopped(r: Config, s: State, choices: seq<Choice>)
    requires Inv(r, s) && Sized(r, choices)
    ensures Run(r, s, choices).0.popped == s.popped + Returned(Run(r, s, choices).1)
    decreases |choices|
  {
    if choices != [] {
      var front, c := choices[..|choices| - 1], choices[|choices| - 1];
      assert choices == front + [c];
      hide Produce, Consume, Atomic, Indices, Unread, ProducerOk, ConsumerOk;
      RunMore(r, s, front, c);
      ReturnedIsPopped(r, s, front);
      var (m, events) := Run(r, s, front);
      hide Run, Shaped;
      PoppedByStep(r, m, c);
      var e := if c.ProducerMoves? then Produce(r, m, c.item).1 else Consume(r, m).1;
      assert (events + [e])[..|events|] == events;
    }
  }

  /**
   Every interleaving, with indices that wrap: what `try_pop` returned is a prefix of what was pushed, every
   unread slot still holds its whole item, and never more than the ring holds is unread.
   */
  lemma EveryInterleaving(r: Config, slots: seq<Item>, choices: seq<Choice>)
    requires ConfigOk(r) && |slots| == r.size && forall k | 0 <= k < r.size :: |slots[k]| == r.width
    requires Sized(r, choices)
    ensures Inv(r, Initial(r, slots))
    ensures var (t, events) := Run(r, Initial(r, slots), choices);
      && |Returned(events)| <= |t.pushed| && Returned(events) == t.pushed[..|Returned(events)|]
      && |t.pushed| - |Returned(events)| <= r.size
      && forall i | |Returned(events)| <= i < |t.pushed| :: t.slots[i % r.size] == t.pushed[i]
  {
    InitialInv(r, slots);
    var s := Initial(r, slots);
    ReturnedIsPopped(r, s, choices);
    assert s.popped == [];
    hide Run, Returned;
  }

  /** The answers are true: each is an atomic step of the bounded queue at the point where it was given. */
  lemma EveryAnswerTrue(r: Config, s: State, choices: seq<Choice>, k: nat)
    requires Inv(r, s) && Sized(r, choices) && k < |choices|
    ensures Sized(r, choices[..k]) && Sized(r, choices[..k + 1])
    ensures var (m, before) := Run(r, s, choices[..k]);
      var (t, after) := Run(r, s, choices[..k + 1]);
      |after| == |before| + 1 && after[..|before|] == before && Atomic(r, m, t, after[|before|])
  {
    assert choices[..k + 1] == choices[..k] + [choices[k]];
    assert forall x | x in choices[..k + 1] :: x in choices;
    hide Produce, Consume, Atomic, Inv;
    RunMore(r, s, choices[..k], choices[k]);
    hide Run;
  }

  /** The point of a schedule where the consumer loaded the index it now holds. */
  ghost predicate LoadedAt(r: Config, s: State, choices: seq<Choice>, j: nat, seen: nat, taken: nat)
    requires Inv(r, s) && Sized(r, choices)
  {
    && j < |choices| && Sized(r, choices[..j])
    && var m := Run(r, s, choices[..j]).0;
      m.consumer.Waiting? && choices[j].ConsumerMoves? && |m.pushed| == seen && |m.popped| == taken
  }

  /** "Empty" was true when the producer's index was loaded: whatever was pushed had then been popped. */
  lemma {:induction false} EmptyWhenLoaded(r: Config, s: State, choices: seq<Choice>)
    requires Inv(r, s) && Sized(r, choices) && s.consumer.Waiting?
    ensures var t := Run(r, s, choices).0;
      t.consumer.LoadedIndex? ==> exists j: nat :: LoadedAt(r, s, choices, j, t.consumer.seen, |t.popped|)
    decreases |choices|
  {
    if choices != [] {
      var n := |choices| - 1;
      var front, c := choices[..n], choices[n];
      assert choices == front + [c];
      hide Atomic, Inv;
      RunMore(r, s, front, c);
      EmptyWhenLoaded(r, s, front);
      var m, t := Run(r, s, front).0, Run(r, s, choices).0;
      hide Run;
      LoadStep(r, m, c);
      if t.consumer.LoadedIndex? {
        if c.ConsumerMoves? {
          assert LoadedAt(r, s, choices, n, t.consumer.seen, |t.popped|);
        } else {
          var j: nat :| LoadedAt(r, s, front, j, m.consumer.seen, |m.popped|);
          assert front[..j] == choices[..j];
          assert LoadedAt(r, s, choices, j, t.consumer.seen, |t.popped|);
        }
      }
    }
  }

  lemma LoadStep(r: Config, m: State, c: Choice)
    requires Inv(r, m)
    ensures var t := if c.ProducerMoves? then Produce(r, m, c.item).0 else Consume(r, m).0;
      && (c.ProducerMoves? ==> t.consumer == m.consumer && t.popped == m.popped)
      && (c.ConsumerMoves? && t.consumer.LoadedIndex? ==>
            m.consumer.Waiting? && t.consumer.seen == |m.pushed| && t.popped == m.popped)
  {
  }
}
