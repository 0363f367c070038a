/** The replica against the exchange, over every stream the network may deliver. */
module ReplicaSafety {
  import opened Types
  import opened Sums
  import opened BookModel
  import opened Positions
  import opened EngineModel
  import opened Exposure
  import opened DeltaStream
  import opened ReplicaModel

  /** What reaches a replica: a datagram, or the rows of one snapshot transfer. */
  datatype Input = Datagram(m: Message) | Transfer(rows: seq<Message>)

  ghost function Step(r: Replica, capacity: nat, x: Input): Replica {
    match x
    case Datagram(m) => Consume(r, capacity, m)
    case Transfer(rows) => Restore(r, capacity, rows)
  }

  ghost function Feed(r: Replica, capacity: nat, inputs: seq<Input>): Replica
    decreases |inputs|
  {
    if inputs == [] then r else Feed(Step(r, capacity, inputs[0]), capacity, inputs[1..])
  }

  /** The delta logs of all incarnations of the exchange, by epoch. */
  type Logs = map<nat, seq<Message>>

  ghost predicate Faithful(log: seq<Message>, epoch: nat, capacity: nat) {
    Numbered(log, 0, epoch) && Replay(map[], capacity, log).Some?
  }

  ghost predicate GenuineLogs(logs: Logs, capacity: nat) {
    forall e | e in logs :: Faithful(logs[e], e, capacity)
  }

  /** The books after the first `n` deltas of an epoch. */
  ghost function BooksAt(log: seq<Message>, capacity: nat, n: nat): Option<Shelf> {
    if n <= |log| then Replay(map[], capacity, log[..n]) else None
  }

  lemma PrefixReplays(log: seq<Message>, capacity: nat, n: nat)
    requires Replay(map[], capacity, log).Some? && n <= |log|
    ensures BooksAt(log, capacity, n).Some?
  {
    assert log == log[..n] + log[n..];
    ReplayAppend(map[], capacity, log[..n], log[n..]);
  }

  /** Rows are the complete snapshot of an epoch after some number of its deltas. */
  ghost predicate FullSnapshot(logs: Logs, capacity: nat, rows: seq<Message>, epoch: nat, n: nat, books: Shelf) {
    && epoch in logs && epoch != 0
    && BooksAt(logs[epoch], capacity, n).Some?
    && Alike(books, BooksAt(logs[epoch], capacity, n).value)
    && Listable(books, capacity)
    && (forall i | i in books :: Uncrossed(books[i]))
    && rows == SnapshotOf(books, epoch, n)
  }

  function SnapshotOf(books: Shelf, epoch: nat, n: nat): seq<Message> {
    var keys := SortedKeys(books.Keys);
    Wrapped(Rows(keys, books, epoch, n), epoch, n, CountOrders(keys, books))
  }

  ghost predicate Lost(whole: seq<Message>, rows: seq<Message>) {
    exists x :: x in whole && x !in rows
  }

  ghost predicate Repeated(rows: seq<Message>) {
    exists i, j :: 0 <= i < j < |rows| && rows[i] == rows[j]
  }

  /** Rows of one snapshot, of which some were lost or repeated, or both. */
  ghost predicate Mangled(whole: seq<Message>, rows: seq<Message>) {
    (forall k | 0 <= k < |rows| :: rows[k] in whole) && (|rows| != |whole| || Lost(whole, rows) || Repeated(rows))
  }

  /**
   A genuine input: any delta of a known epoch is one that was published (repeated
   and reordered as the network likes), any other datagram is arbitrary, and a
   transfer is a published snapshot, whole or with rows lost or repeated.
   */
  ghost predicate Genuine(logs: Logs, capacity: nat, x: Input) {
    match x
    case Datagram(m) =>
      m.kind == Delta && m.epoch in logs ==>
        0 < m.sequence <= |logs[m.epoch]| && m == logs[m.epoch][m.sequence - 1]
    case Transfer(rows) =>
      exists epoch, n, books, whole ::
        FullSnapshot(logs, capacity, whole, epoch, n, books) && (rows == whole || Mangled(whole, rows))
  }

  /** Synchronised means equal to what was published up to that point. */
  ghost predicate Safe(logs: Logs, capacity: nat, r: Replica) {
    r.synchronized ==>
      && r.epoch in logs
      && BooksAt(logs[r.epoch], capacity, r.sequence).Some?
      && Alike(r.books, BooksAt(logs[r.epoch], capacity, r.sequence).value)
  }

  lemma ConsumeSafe(logs: Logs, capacity: nat, r: Replica, m: Message)
    requires GenuineLogs(logs, capacity) && Safe(logs, capacity, r) && Genuine(logs, capacity, Datagram(m))
    ensures Safe(logs, capacity, Consume(r, capacity, m))
  {
    hide ApplyDelta, Alike;
    if r.synchronized && m.epoch == r.epoch && m.kind == Delta && m.sequence == r.sequence + 1 {
      var log := logs[r.epoch];
      var n := r.sequence;
      assert Faithful(log, r.epoch, capacity);
      PrefixReplays(log, capacity, n + 1);
      assert log[..n + 1] == log[..n] + [m];
      ReplayAppend(map[], capacity, log[..n], [m]);
      var books := BooksAt(log, capacity, n).value;
      ReplayOne(books, capacity, m);
      ApplyAlike(r.books, books, capacity, m);
    }
  }

  /** Rows that load are orders under different numbers. */
  lemma {:induction false} LoadedRows(books: Shelf, capacity: nat, ids: set<OrderId>, rows: seq<Message>)
    requires Load(books, capacity, ids, rows).Some?
    ensures forall k | 0 <= k < |rows| :: rows[k].kind == SnapshotOrder && rows[k].exchangeId !in ids
    ensures forall i, j | 0 <= i < j < |rows| :: rows[i].exchangeId != rows[j].exchangeId
    decreases |rows|
  {
    if rows != [] {
      var rest := rows[1..];
      LoadedRows(PlaceRow(books, capacity, rows[0]), capacity, ids + {rows[0].exchangeId}, rest);
      hide Load, BadRow, PlaceRow;
      assert forall k | 0 < k < |rows| :: rows[k] == rest[k - 1];
    }
  }

  /** An accepted snapshot repeats no row. */
  lemma AcceptedUnrepeated(capacity: nat, rows: seq<Message>)
    requires ReplicaModel.Accepted(capacity, rows).Some?
    ensures !Repeated(rows)
  {
    var body := rows[1..|rows| - 1];
    LoadedRows(map[], capacity, {}, body);
    hide Load;
    assert forall k | 0 < k < |rows| - 1 :: rows[k] == body[k - 1];
  }

  ghost function Elements(s: seq<Message>): set<Message> {
    set x | x in s
  }

  lemma {:induction false} ElementsCount(s: seq<Message>)
    ensures |Elements(s)| <= |s| && (!Repeated(s) ==> |Elements(s)| == |s|)
    decreases |s|
  {
    if s == [] {
      assert Elements(s) == {};
    } else {
      var rest := s[1..];
      ElementsCount(rest);
      assert Elements(s) == Elements(rest) + {s[0]};
      if !Repeated(s) {
        assert !Repeated(rest) by {
          assert forall i | 0 <= i < |rest| :: rest[i] == s[i + 1];
        }
        assert s[0] !in rest;
      }
    }
  }

  /** As many rows as there were, none of them repeated: then none is lost. */
  lemma NoneLost(whole: seq<Message>, rows: seq<Message>)
    requires |rows| == |whole| && !Repeated(rows) && forall k | 0 <= k < |rows| :: rows[k] in whole
    ensures !Lost(whole, rows)
  {
    ElementsCount(whole);
    ElementsCount(rows);
    hide Repeated;
    assert Elements(rows) <= Elements(whole);
    SubsetOfSameSize(Elements(rows), Elements(whole));
    forall x | x in whole ensures x in rows {
      assert x in Elements(whole);
    }
  }

  lemma SubsetOfSameSize(a: set<Message>, b: set<Message>)
    requires a <= b && |a| >= |b|
    ensures a == b
  {
    assert |b - a| == |b| - |a|;
  }

  /** A snapshot with rows lost or repeated, even as many as were sent, is refused. */
  lemma MangledRefused(capacity: nat, r: Replica, books: Shelf, epoch: nat, n: nat, rows: seq<Message>)
    requires Mangled(SnapshotOf(books, epoch, n), rows)
    ensures !Restore(r, capacity, rows).synchronized
  {
    hide SnapshotOf, Load, Lost, Repeated;
    BeginIsFirst(books, epoch, n);
    var whole := SnapshotOf(books, epoch, n);
    if |rows| == |whole| && !Repeated(rows) {
      NoneLost(whole, rows);
    }
    if ReplicaModel.Accepted(capacity, rows).Some? {
      AcceptedUnrepeated(capacity, rows);
    }
  }

  /** Only the first row of a snapshot is its beginning, and it states how many follow. */
  lemma BeginIsFirst(books: Shelf, epoch: nat, n: nat)
    ensures var whole := SnapshotOf(books, epoch, n);
            && |whole| >= 2 && whole[0].quantity == |whole| - 2
            && forall m | m in whole && m.kind == SnapshotBegin :: m == whole[0]
  {
    hide Rows, SortedKeys, CountOrders;
    var keys := SortedKeys(books.Keys);
    RowsCount(keys, books, epoch, n);
    RowsMarked(keys, books, epoch, n);
    var body := Rows(keys, books, epoch, n);
    var whole := SnapshotOf(books, epoch, n);
    forall k | 0 < k < |whole| ensures whole[k].kind != SnapshotBegin {
      if k < |whole| - 1 {
        assert whole[k] == body[k - 1];
      }
    }
  }

  lemma RestoreSafe(logs: Logs, capacity: nat, r: Replica, rows: seq<Message>)
    requires Genuine(logs, capacity, Transfer(rows))
    ensures Safe(logs, capacity, Restore(r, capacity, rows))
  {
    hide Restore, Replay, Listable, SnapshotOf, Mangled;
    var epoch, n, books, whole :|
      FullSnapshot(logs, capacity, whole, epoch, n, books) && (rows == whole || Mangled(whole, rows));
    if rows == whole {
      RestoreSnapshot(r, capacity, books, epoch, n);
    } else {
      MangledRefused(capacity, r, books, epoch, n, rows);
    }
  }

  lemma RestoreSnapshot(r: Replica, capacity: nat, books: Shelf, epoch: nat, n: nat)
    requires Listable(books, capacity) && epoch != 0
    requires forall i | i in books :: Uncrossed(books[i])
    ensures var r' := Restore(r, capacity, SnapshotOf(books, epoch, n));
            r'.synchronized && r'.epoch == epoch && r'.sequence == n && Alike(r'.books, books)
  {
    RestoreRebuilds(r, capacity, books, epoch, n);
  }

  /**
   Whatever is lost, repeated, reordered or mixed in from other epochs: whenever the
   replica is synchronised at sequence k, its books are the replay of the first k deltas.
   */
  lemma {:induction false} SynchronizedMeansEqual(logs: Logs, capacity: nat, r: Replica, inputs: seq<Input>)
    requires GenuineLogs(logs, capacity) && Safe(logs, capacity, r)
    requires forall x | x in inputs :: Genuine(logs, capacity, x)
    ensures Safe(logs, capacity, Feed(r, capacity, inputs))
    decreases |inputs|
  {
    hide Safe, Genuine, GenuineLogs, Consume, Restore;
    if inputs != [] {
      var x := inputs[0];
      assert x in inputs;
      match x {
        case Datagram(m) => ConsumeSafe(logs, capacity, r, m);
        case Transfer(rows) => RestoreSafe(logs, capacity, r, rows);
      }
      SynchronizedMeansEqual(logs, capacity, Step(r, capacity, x), inputs[1..]);
    }
  }

  /** An unbroken feed keeps a synchronised replica synchronised, up to the last delta. */
  lemma {:induction false} UnbrokenFeedKeepsUp(log: seq<Message>, epoch: nat, capacity: nat, r: Replica, n: nat)
    requires Faithful(log, epoch, capacity)
    requires r.synchronized && r.epoch == epoch && r.sequence == n <= |log|
    requires BooksAt(log, capacity, n).Some? && Alike(r.books, BooksAt(log, capacity, n).value)
    ensures var r' := Feed(r, capacity, AsInputs(log[n..]));
            && r'.synchronized && r'.epoch == epoch && r'.sequence == |log|
            && Alike(r'.books, Replay(map[], capacity, log).value)
    decreases |log| - n
  {
    hide ApplyDelta, Alike, Consume;
    if n == |log| {
      assert log[n..] == [] && log[..n] == log;
    } else {
      var m := log[n];
      PrefixReplays(log, capacity, n + 1);
      assert log[..n + 1] == log[..n] + [m];
      ReplayAppend(map[], capacity, log[..n], [m]);
      var books := BooksAt(log, capacity, n).value;
      ReplayOne(books, capacity, m);
      ApplyAlike(r.books, books, capacity, m);
      ConsumeNext(r, capacity, m);
      assert AsInputs(log[n..]) == [Datagram(m)] + AsInputs(log[n + 1..]);
      assert ([Datagram(m)] + AsInputs(log[n + 1..]))[1..] == AsInputs(log[n + 1..]);
      UnbrokenFeedKeepsUp(log, epoch, capacity, Consume(r, capacity, m), n + 1);
    }
  }

  lemma ConsumeNext(r: Replica, capacity: nat, m: Message)
    requires r.synchronized && m.epoch == r.epoch && m.kind == Delta && m.sequence == r.sequence + 1
    requires ApplyDelta(r.books, capacity, m).1 == Ok
    ensures Consume(r, capacity, m) == r.(books := ApplyDelta(r.books, capacity, m).0, sequence := m.sequence)
  {
    hide ApplyDelta;
  }

  function AsInputs(deltas: seq<Message>): seq<Input> {
    seq(|deltas|, k requires 0 <= k < |deltas| => Datagram(deltas[k]))
  }

  // ---- The engine as the publisher ----------------------------------------

  ghost function AllIds(keys: seq<InstrumentId>, books: Shelf): set<OrderId> {
    if keys == [] then {} else BookIds(BookAt(books, keys[0])) + AllIds(keys[1..], books)
  }

  lemma {:induction false} AllIdsMember(keys: seq<InstrumentId>, books: Shelf, id: OrderId)
    ensures id in AllIds(keys, books) <==> exists k :: k in keys && id in BookIds(BookAt(books, k))
    decreases |keys|
  {
    if keys != [] {
      AllIdsMember(keys[1..], books, id);
      assert forall k :: k in keys <==> k == keys[0] || k in keys[1..];
    }
  }

  /** Consistent books that share no order. */
  ghost predicate Apart(books: Shelf) {
    && (forall i | i in books :: Consistent(books[i]))
    && (forall i, j | i in books && j in books && i != j :: BookIds(books[i]) !! BookIds(books[j]))
  }

  lemma {:induction false} CountIsIds(keys: seq<InstrumentId>, books: Shelf)
    requires Apart(books) && Increasing(keys) && forall k | k in keys :: k in books
    ensures |AllIds(keys, books)| == CountOrders(keys, books)
    decreases |keys|
  {
    if keys != [] {
      var i := keys[0];
      assert i in keys;
      CountIsIds(keys[1..], books);
      var b := books[i];
      SidesApart(b);
      DistinctCount(b.bids);
      DistinctCount(b.asks);
      forall id | id in BookIds(b) ensures id !in AllIds(keys[1..], books) {
        AllIdsMember(keys[1..], books, id);
        assert forall k | k in keys[1..] :: k in keys && k != i;
      }
      hide Apart;
      assert BookIds(b) !! AllIds(keys[1..], books);
    }
  }

  lemma EngineListable(s: Engine)
    requires Core(s)
    ensures Listable(s.books, s.capacity)
    ensures forall i | i in s.books :: Uncrossed(s.books[i])
  {
    hide Agreement, Indexed, Issued, HasAccounts, Balanced, AllSound, Consistent, BookIds;
    var books := s.books;
    forall i | i in books ensures i != 0 && 0 !in BookIds(books[i]) {
      if 0 in BookIds(books[i]) {
        IdInQueue(s, i, 0);
      }
    }
    forall i, j | i in books && j in books && i != j ensures BookIds(books[i]) !! BookIds(books[j]) {
      forall id | id in BookIds(books[i]) ensures id !in BookIds(books[j]) {
        IdInQueue(s, i, id);
        if id in BookIds(books[j]) {
          IdInQueue(s, j, id);
        }
      }
    }
  }

  lemma IdInQueue(s: Engine, i: InstrumentId, id: OrderId)
    requires Agreement(s.books, s.resting) && Issued(s.resting, s.clients, s.nextOrder)
    requires i in s.books && id in BookIds(s.books[i])
    ensures id in s.resting && s.resting[id].instrumentId == i && id != 0
  {
    var b := s.books[i];
    if id in EntryIds(b.bids) {
      var e :| e in b.bids && e.id == id;
      assert e in b.Queue(Bid);
    } else {
      var e :| e in b.asks && e.id == id;
      assert e in b.Queue(Ask);
    }
  }

  /** The owner table holds exactly as many orders as the books together. */
  lemma OrderCount(s: Engine)
    requires Core(s)
    ensures CountOrders(SortedKeys(s.books.Keys), s.books) == |s.resting|
  {
    hide Core, SortedKeys, CountOrders, Consistent, BookIds;
    EngineListable(s);
    var keys := SortedKeys(s.books.Keys);
    CountIsIds(keys, s.books);
    IdsAreResting(s, keys);
  }

  lemma IdsAreResting(s: Engine, keys: seq<InstrumentId>)
    requires Core(s) && forall k :: k in keys <==> k in s.books
    ensures AllIds(keys, s.books) == s.resting.Keys
  {
    hide BooksOk, Agreement, Issued, Indexed, HasAccounts, Balanced, AllSound, AllIds, BookIds;
    forall id | id in AllIds(keys, s.books) ensures id in s.resting {
      AllIdsMember(keys, s.books, id);
      var k :| k in keys && id in BookIds(BookAt(s.books, k));
      IdInQueue(s, k, id);
    }
    forall id | id in s.resting ensures id in AllIds(keys, s.books) {
      AllIdsMember(keys, s.books, id);
      RestingListed(s, id);
      var k := s.resting[id].instrumentId;
      assert k in keys && id in BookIds(BookAt(s.books, k));
    }
  }

  lemma RestingListed(s: Engine, id: OrderId)
    requires Agreement(s.books, s.resting) && id in s.resting
    ensures s.resting[id].instrumentId in s.books && id in BookIds(s.books[s.resting[id].instrumentId])
  {
    var m := s.resting[id];
    assert Booked(s.books, id, m);
    var e := Entry(id, m.price, m.quantity);
    assert e.id in EntryIds(s.books[m.instrumentId].Queue(m.side));
  }

  lemma SnapshotIsWhole(s: Engine)
    requires Core(s)
    ensures EngineSnapshot(s) == SnapshotOf(s.books, s.epoch, s.sequence)
  {
    OrderCount(s);
  }

  /** The runs of all incarnations of an exchange, by epoch, and the logs they publish from. */
  ghost function LogsOf(instruments: map<InstrumentId, Rules>, capacity: nat, runs: map<nat, seq<Message>>): Logs
    requires ConfigOk(instruments)
  {
    map e | e in runs :: FreshInv(instruments, capacity, e); Log(Fresh(instruments, capacity, e), runs[e])
  }

  lemma LogsOfRunsGenuine(instruments: map<InstrumentId, Rules>, capacity: nat, runs: map<nat, seq<Message>>)
    requires ConfigOk(instruments)
    ensures GenuineLogs(LogsOf(instruments, capacity, runs), capacity)
  {
    var logs := LogsOf(instruments, capacity, runs);
    hide Core, Bounded, Replay, Log, After, Alike;
    forall e | e in logs ensures Faithful(logs[e], e, capacity) {
      FreshInv(instruments, capacity, e);
      FreshAlike(instruments, capacity, e);
      LogIsFaithful(map[], Fresh(instruments, capacity, e), runs[e]);
    }
  }

  /**
   For every family of runs, one for each incarnation of the exchange, and every command boundary of one of
   them: the engine's snapshot there is a genuine transfer, and a replica that was fed any genuine inputs of
   any of the epochs and is synchronised at that engine's epoch and sequence number lists the very rows the
   engine lists.
   */
  lemma ReplicaMirrorsEngine(instruments: map<InstrumentId, Rules>, capacity: nat, epoch: nat,
                             runs: map<nat, seq<Message>>, before: seq<Message>, after: seq<Message>,
                             inputs: seq<Input>)
    requires ConfigOk(instruments) && epoch != 0 && epoch in runs && runs[epoch] == before + after
    ensures Inv(Fresh(instruments, capacity, epoch))
    ensures var s := After(Fresh(instruments, capacity, epoch), before);
            var logs := LogsOf(instruments, capacity, runs);
            && Genuine(logs, capacity, Transfer(EngineSnapshot(s)))
            && var r := Feed(BLANK_REPLICA, capacity, inputs);
               ((forall x | x in inputs :: Genuine(logs, capacity, x))
                && r.synchronized && r.epoch == s.epoch && r.sequence == s.sequence) ==>
                 Alike(r.books, s.books) && ReplicaSnapshot(r) == EngineSnapshot(s)
  {
    FreshInv(instruments, capacity, epoch);
    FreshAlike(instruments, capacity, epoch);
    LogsOfRunsGenuine(instruments, capacity, runs);
    var logs := LogsOf(instruments, capacity, runs);
    assert logs[epoch] == Log(Fresh(instruments, capacity, epoch), before + after);
    hide LogsOf, Inv, Log, After, Genuine, GenuineLogs, EngineSnapshot, ReplicaSnapshot, Feed, Alike, Fresh;
    MirrorFrom(Fresh(instruments, capacity, epoch), logs, before, after, inputs);
  }

  lemma MirrorFrom(s0: Engine, logs: Logs, before: seq<Message>, after: seq<Message>, inputs: seq<Input>)
    requires Inv(s0) && s0.sequence == 0 && s0.epoch != 0 && Alike(map[], s0.books)
    requires GenuineLogs(logs, s0.capacity) && s0.epoch in logs && logs[s0.epoch] == Log(s0, before + after)
    ensures var s := After(s0, before);
            && Genuine(logs, s0.capacity, Transfer(EngineSnapshot(s)))
            && var r := Feed(BLANK_REPLICA, s0.capacity, inputs);
               ((forall x | x in inputs :: Genuine(logs, s0.capacity, x))
                && r.synchronized && r.epoch == s.epoch && r.sequence == s.sequence) ==>
                 Alike(r.books, s.books) && ReplicaSnapshot(r) == EngineSnapshot(s)
  {
    hide Core, Bounded, Genuine, GenuineLogs, Alike, Feed, EngineSnapshot, ReplicaSnapshot, Replay, After, Log;
    LogIsFaithful(map[], s0, before);
    LogSplit(s0, before, after);
    AfterConfig(s0, before);
    var s := After(s0, before);
    var log := logs[s0.epoch];
    assert log[..|Log(s0, before)|] == Log(s0, before);
    EngineSnapshotGenuine(logs, s);
    if forall x | x in inputs :: Genuine(logs, s0.capacity, x) {
      SynchronizedMeansEqual(logs, s0.capacity, BLANK_REPLICA, inputs);
      var r := Feed(BLANK_REPLICA, s0.capacity, inputs);
      if r.synchronized && r.epoch == s.epoch && r.sequence == s.sequence {
        AlikeChain(r.books, BooksAt(log, s0.capacity, s.sequence).value, s.books);
        MirroredRows(r, s);
      }
    }
  }

  lemma FreshAlike(instruments: map<InstrumentId, Rules>, capacity: nat, epoch: nat)
    ensures Alike(map[], Fresh(instruments, capacity, epoch).books)
    ensures Fresh(instruments, capacity, epoch).sequence == 0
    ensures Fresh(instruments, capacity, epoch).capacity == capacity
    ensures Fresh(instruments, capacity, epoch).epoch == epoch
  {
  }

  lemma AlikeChain(a: Shelf, b: Shelf, c: Shelf)
    requires Alike(a, b) && Alike(b, c)
    ensures Alike(a, c)
  {
    forall i: InstrumentId ensures BookAt(a, i) == BookAt(c, i) {
      assert BookAt(a, i) == BookAt(b, i);
    }
  }

  lemma EngineSnapshotGenuine(logs: Logs, s: Engine)
    requires Core(s) && s.epoch != 0 && s.epoch in logs && BooksAt(logs[s.epoch], s.capacity, s.sequence).Some?
    requires Alike(BooksAt(logs[s.epoch], s.capacity, s.sequence).value, s.books)
    ensures Genuine(logs, s.capacity, Transfer(EngineSnapshot(s)))
  {
    hide Core, EngineSnapshot, SnapshotOf, Listable, BooksAt;
    EngineListable(s);
    SnapshotIsWhole(s);
    assert FullSnapshot(logs, s.capacity, EngineSnapshot(s), s.epoch, s.sequence, s.books);
  }

  lemma MirroredRows(r: Replica, s: Engine)
    requires Core(s) && Alike(r.books, s.books) && r.epoch == s.epoch && r.sequence == s.sequence
    ensures ReplicaSnapshot(r) == EngineSnapshot(s)
  {
    hide Core, Rows, SortedKeys, CountOrders, Alike;
    SameRows(r.books, s.books, s.epoch, s.sequence);
    RowsCount(SortedKeys(r.books.Keys), r.books, s.epoch, s.sequence);
    RowsCount(SortedKeys(s.books.Keys), s.books, s.epoch, s.sequence);
    OrderCount(s);
  }
}
