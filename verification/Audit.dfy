/** The engine's own consistency audit, and why it never fails. */
module AuditModel {
  import opened Types
  import opened Sums
  import opened BookModel
  import opened Positions
  import opened EngineModel
  import opened AgreementLemmas
  import opened Exposure
  import opened ReplicaModel
  import opened ReplicaSafety
  import opened DeltaStream
  import MarketReplicas

  /** A book entry agrees with its owner record and with the client index. */
  predicate EntryAudited(s: Engine, i: InstrumentId, side: Side, e: Entry) {
    && e.id in s.resting && Describes(s.resting[e.id], i, side, e)
    && OwnerKey(s.resting[e.id]) in s.byClient && s.byClient[OwnerKey(s.resting[e.id])] == e.id
  }

  /** What the audit checks: books, owners, index, counts and conservation. */
  ghost predicate Audit(s: Engine) {
    && (forall i | i in s.books :: Consistent(s.books[i]) && Uncrossed(s.books[i]))
    && (forall i, side, e | i in s.books && e in s.books[i].Queue(side) :: EntryAudited(s, i, side, e))
    && CountOrders(SortedKeys(s.books.Keys), s.books) == |s.resting|
    && |s.resting| == |s.byClient|
    && Balanced(s.positions)
  }

  // ---- The audit, computed ------------------------------------------------

  /** Compares the entries of one side with their owners. */
  method CheckQueue(s: Engine, i: InstrumentId, side: Side, q: seq<Entry>) returns (ok: bool)
    ensures ok <==> forall e | e in q :: EntryAudited(s, i, side, e)
  {
    for k := 0 to |q|
      invariant forall j | 0 <= j < k :: EntryAudited(s, i, side, q[j])
    {
      if !EntryAudited(s, i, side, q[k]) {
        assert q[k] in q;
        return false;
      }
    }
    return true;
  }

  ghost predicate BookAudited(s: Engine, i: InstrumentId)
    requires i in s.books
  {
    && Consistent(s.books[i]) && Uncrossed(s.books[i])
    && (forall e | e in s.books[i].bids :: EntryAudited(s, i, Bid, e))
    && (forall e | e in s.books[i].asks :: EntryAudited(s, i, Ask, e))
  }

  method CheckBooks(s: Engine) returns (ok: bool)
    ensures ok <==> forall i | i in s.books :: BookAudited(s, i)
  {
    hide Consistent, EntryAudited;
    var todo := s.books.Keys;
    while todo != {}
      invariant todo <= s.books.Keys
      invariant forall i | i in s.books.Keys - todo :: BookAudited(s, i)
      decreases todo
    {
      var i :| i in todo;
      var consistent := CheckBook(s.books[i]);
      var bids := CheckQueue(s, i, Bid, s.books[i].bids);
      var asks := CheckQueue(s, i, Ask, s.books[i].asks);
      if !consistent || !Uncrossed(s.books[i]) || !bids || !asks {
        assert !BookAudited(s, i);
        return false;
      }
      todo := todo - {i};
    }
    return true;
  }

  /** The sums over the holdings counted so far. */
  ghost predicate Summed(h: Holdings, quantities: map<InstrumentId, int>, cash: map<InstrumentId, int>) {
    && quantities.Keys == cash.Keys
    && forall i: InstrumentId ::
      && (if i in quantities then quantities[i] else 0) == Total(Quantities(h, i))
      && (if i in cash then cash[i] else 0) == Total(Cash(h, i))
  }

  lemma SumOne(h: Holdings, k: (ClientId, InstrumentId), p: Position, i: InstrumentId)
    requires k !in h
    ensures Total(Quantities(h[k := p], i)) == Total(Quantities(h, i)) + if k.1 == i then p.quantity else 0
    ensures Total(Cash(h[k := p], i)) == Total(Cash(h, i)) + if k.1 == i then p.cash else 0
  {
    if k.1 == i {
      TotalInsert(Quantities(h, i), k, p.quantity);
      TotalInsert(Cash(h, i), k, p.cash);
      assert Quantities(h[k := p], i) == Quantities(h, i)[k := p.quantity];
      assert Cash(h[k := p], i) == Cash(h, i)[k := p.cash];
    } else {
      assert Quantities(h[k := p], i) == Quantities(h, i);
      assert Cash(h[k := p], i) == Cash(h, i);
    }
  }

  lemma SummedNext(h: Holdings, k: (ClientId, InstrumentId), p: Position,
                   quantities: map<InstrumentId, int>, cash: map<InstrumentId, int>)
    requires k !in h && Summed(h, quantities, cash)
    ensures var q, c := if k.1 in quantities then quantities[k.1] else 0, if k.1 in cash then cash[k.1] else 0;
      Summed(h[k := p], quantities[k.1 := q + p.quantity], cash[k.1 := c + p.cash])
  {
    hide Total, Quantities, Cash;
    forall i: InstrumentId
      ensures Total(Quantities(h[k := p], i)) == Total(Quantities(h, i)) + if k.1 == i then p.quantity else 0
      ensures Total(Cash(h[k := p], i)) == Total(Cash(h, i)) + if k.1 == i then p.cash else 0
    {
      SumOne(h, k, p, i);
    }
  }

  /** Adds positions and cash up per instrument. */
  method CheckPositions(h: Holdings) returns (ok: bool)
    ensures ok <==> Balanced(h)
  {
    hide Total, Quantities, Cash, Summed;
    var quantities, cash: map<InstrumentId, int> := map[], map[];
    var todo := h.Keys;
    ghost var seen: Holdings := map[];
    NothingSummed();
    while todo != {}
      invariant todo <= h.Keys && seen == h - todo && Summed(seen, quantities, cash)
      decreases todo
    {
      var k :| k in todo;
      SummedNext(seen, k, h[k], quantities, cash);
      quantities := quantities[k.1 := (if k.1 in quantities then quantities[k.1] else 0) + h[k].quantity];
      cash := cash[k.1 := (if k.1 in cash then cash[k.1] else 0) + h[k].cash];
      seen := seen[k := h[k]];
      todo := todo - {k};
      assert seen == h - todo;
    }
    assert seen == h;
    SummedBalances(h, quantities, cash);
    ok := forall i | i in quantities :: quantities[i] == 0 && (i in cash ==> cash[i] == 0);
  }

  lemma NothingSummed()
    ensures Summed(map[], map[], map[])
  {
    forall i: InstrumentId ensures Total(Quantities(map[], i)) == 0 && Total(Cash(map[], i)) == 0 {
      assert Quantities(map[], i) == map[] && Cash(map[], i) == map[];
    }
  }

  lemma SummedBalances(h: Holdings, quantities: map<InstrumentId, int>, cash: map<InstrumentId, int>)
    requires Summed(h, quantities, cash)
    ensures quantities.Keys == cash.Keys
    ensures Balanced(h) <==> forall i | i in quantities :: quantities[i] == 0 && cash[i] == 0
  {
    hide Total, Quantities, Cash;
    if Balanced(h) {
      forall i | i in quantities ensures quantities[i] == 0 && cash[i] == 0 {
        assert Total(Quantities(h, i)) == 0 && Total(Cash(h, i)) == 0;
      }
    }
  }

  /** The engine's audit: true exactly for the states `Audit` describes. */
  method ValidateInvariants(s: Engine) returns (ok: bool)
    ensures ok <==> Audit(s)
  {
    hide Balanced, CountOrders, SortedKeys, Consistent, Uncrossed, EntryAudited;
    var books := CheckBooks(s);
    AuditedSides(s);
    if !books {
      return false;
    }
    var count := MarketReplicas.CountAll(SortedKeys(s.books.Keys), s.books);
    if count != |s.resting| || count != |s.byClient| {
      return false;
    }
    ok := CheckPositions(s.positions);
  }

  lemma AuditedSides(s: Engine)
    ensures (forall i | i in s.books :: BookAudited(s, i))
       <==> (forall i | i in s.books :: Consistent(s.books[i]) && Uncrossed(s.books[i]))
            && (forall i, side, e | i in s.books && e in s.books[i].Queue(side) :: EntryAudited(s, i, side, e))
  {
    hide Consistent, Uncrossed, EntryAudited;
    if forall i | i in s.books :: BookAudited(s, i) {
      forall i, side, e | i in s.books && e in s.books[i].Queue(side) ensures EntryAudited(s, i, side, e) {
        assert BookAudited(s, i);
      }
    }
    if (forall i, side, e | i in s.books && e in s.books[i].Queue(side) :: EntryAudited(s, i, side, e)) {
      forall i, e | i in s.books && e in s.books[i].bids ensures EntryAudited(s, i, Bid, e) {
        assert e in s.books[i].Queue(Bid);
      }
      forall i, e | i in s.books && e in s.books[i].asks ensures EntryAudited(s, i, Ask, e) {
        assert e in s.books[i].Queue(Ask);
      }
    }
  }

  // ---- Why it misses nothing ----------------------------------------------

  /** An audited entry stands in the book and on the side of its owner record. */
  lemma EntryOf(s: Engine, i: InstrumentId, id: OrderId) returns (side: Side, e: Entry)
    requires Audit(s) && i in s.books && id in BookIds(s.books[i])
    ensures e in s.books[i].Queue(side) && e.id == id && EntryAudited(s, i, side, e)
  {
    hide Consistent, Uncrossed, CountOrders, SortedKeys, Balanced, EntryAudited;
    side := if id in EntryIds(s.books[i].bids) then Bid else Ask;
    e :| e in s.books[i].Queue(side) && e.id == id;
  }

  lemma AuditedApart(s: Engine)
    requires Audit(s)
    ensures Apart(s.books)
  {
    hide BookIds, CountOrders, SortedKeys, Balanced, Uncrossed, Consistent;
    forall i, j, id | i in s.books && j in s.books && i != j && id in BookIds(s.books[i])
      ensures id !in BookIds(s.books[j])
    {
      var side, e := EntryOf(s, i, id);
      assert s.resting[id].instrumentId == i;
      if id in BookIds(s.books[j]) {
        var other, f := EntryOf(s, j, id);
      }
    }
  }

  /** As many orders in the books as owner records means that every owner record has its order. */
  lemma EveryRecordStands(s: Engine, id: OrderId) returns (i: InstrumentId)
    requires Audit(s) && id in s.resting
    ensures i in s.books && id in BookIds(s.books[i])
  {
    hide BookIds, CountOrders, SortedKeys, Balanced, Uncrossed, Consistent, AllIds, Apart;
    var keys := SortedKeys(s.books.Keys);
    AuditedApart(s);
    CountIsIds(keys, s.books);
    forall x | x in AllIds(keys, s.books) ensures x in s.resting {
      AllIdsMember(keys, s.books, x);
      var k :| k in keys && x in BookIds(BookAt(s.books, k));
      var side, e := EntryOf(s, k, x);
    }
    Within(AllIds(keys, s.books), s.resting.Keys);
    AllIdsMember(keys, s.books, id);
    i :| i in keys && id in BookIds(BookAt(s.books, i));
  }

  ghost function OwnerKeys(resting: map<OrderId, Message>): set<Key> {
    set id | id in resting :: OwnerKey(resting[id])
  }

  lemma {:induction false} OwnerKeysCount(resting: map<OrderId, Message>, byClient: map<Key, OrderId>)
    requires forall id | id in resting :: OwnerKey(resting[id]) in byClient && byClient[OwnerKey(resting[id])] == id
    ensures |OwnerKeys(resting)| == |resting|
    decreases |resting|
  {
    if resting == map[] {
      assert OwnerKeys(resting) == {};
    } else {
      var id := Pick(resting.Keys);
      var rest := resting - {id};
      assert rest.Keys == resting.Keys - {id};
      OwnerKeysCount(rest, byClient);
      assert forall x | x in rest :: rest[x] == resting[x];
      assert forall x | x in resting :: x == id || x in rest;
      forall k | k in OwnerKeys(resting) ensures k in OwnerKeys(rest) + {OwnerKey(resting[id])} {
        var x :| x in resting && OwnerKey(resting[x]) == k;
        assert x == id || OwnerKey(rest[x]) in OwnerKeys(rest);
      }
      assert OwnerKeys(resting) == OwnerKeys(rest) + {OwnerKey(resting[id])};
      assert OwnerKey(resting[id]) !in OwnerKeys(rest);
    }
  }

  lemma RecordStands(s: Engine, id: OrderId)
    requires Audit(s) && id in s.resting
    ensures EngineModel.Booked(s.books, id, s.resting[id])
    ensures OwnerKey(s.resting[id]) in s.byClient && s.byClient[OwnerKey(s.resting[id])] == id
  {
    hide BookIds, CountOrders, SortedKeys, Balanced, Uncrossed, Consistent, Audit;
    var i := EveryRecordStands(s, id);
    var side, e := EntryOf(s, i, id);
    assert e == Entry(id, s.resting[id].price, s.resting[id].quantity);
  }

  lemma IndexIsInverse(resting: map<OrderId, Message>, byClient: map<Key, OrderId>)
    requires |resting| == |byClient|
    requires forall id | id in resting :: OwnerKey(resting[id]) in byClient && byClient[OwnerKey(resting[id])] == id
    ensures Indexed(resting, byClient)
  {
    OwnerKeysCount(resting, byClient);
    assert OwnerKeys(resting) <= byClient.Keys;
    Within(OwnerKeys(resting), byClient.Keys);
    forall k | k in byClient ensures byClient[k] in resting && OwnerKey(resting[byClient[k]]) == k {
      assert k in OwnerKeys(resting);
    }
  }

  /** Books, owner records and client index that pass the audit tell one story: nothing is missing, doubled or misplaced. */
  lemma AuditMeansAgreement(s: Engine)
    requires Audit(s)
    ensures Agreement(s.books, s.resting) && Indexed(s.resting, s.byClient)
  {
    hide CountOrders, SortedKeys, Balanced, Uncrossed, Consistent, Indexed;
    forall id | id in s.resting
      ensures EngineModel.Booked(s.books, id, s.resting[id])
      ensures OwnerKey(s.resting[id]) in s.byClient && s.byClient[OwnerKey(s.resting[id])] == id
    {
      RecordStands(s, id);
    }
    IndexIsInverse(s.resting, s.byClient);
  }

  // ---- Why it never fails -------------------------------------------------

  /** The index and the owner table have the same size, being inverse to each other. */
  lemma {:induction false} IndexSize(resting: map<OrderId, Message>, byClient: map<Key, OrderId>)
    requires Indexed(resting, byClient)
    ensures |resting| == |byClient|
    decreases |resting|
  {
    if resting == map[] {
      assert byClient.Keys == {};
    } else {
      var id := Pick(resting.Keys);
      var k := OwnerKey(resting[id]);
      IndexedRemove(resting, byClient, id);
      assert (resting - {id}).Keys == resting.Keys - {id};
      assert (byClient - {k}).Keys == byClient.Keys - {k};
      IndexSize(resting - {id}, byClient - {k});
    }
  }

  /** Every state the engine can reach passes its own audit. */
  lemma InvPassesAudit(s: Engine)
    requires Inv(s)
    ensures Audit(s)
  {
    hide Balanced, AllSound, Bounded, CountOrders, SortedKeys, Consistent, Uncrossed;
    OrderCount(s);
    IndexSize(s.resting, s.byClient);
  }

  lemma ReachablePassesAudit(instruments: map<InstrumentId, Rules>, capacity: nat, epoch: nat, commands: seq<Message>)
    requires ConfigOk(instruments)
    ensures Inv(Fresh(instruments, capacity, epoch))
    ensures Audit(After(Fresh(instruments, capacity, epoch), commands))
  {
    FreshInv(instruments, capacity, epoch);
    hide Core, Bounded, Audit;
    InvPassesAudit(After(Fresh(instruments, capacity, epoch), commands));
  }

  /** At every mark, in every reachable state, the profits of an instrument's clients cancel. */
  lemma ReachableZeroSum(instruments: map<InstrumentId, Rules>, capacity: nat, epoch: nat, commands: seq<Message>,
                         i: InstrumentId, mark: real)
    requires ConfigOk(instruments)
    ensures Inv(Fresh(instruments, capacity, epoch))
    ensures var s := After(Fresh(instruments, capacity, epoch), commands);
            && TotalPnl(InInstrument(s.positions, i), mark) == 0.0
            && AllSound(s.positions)
  {
    FreshInv(instruments, capacity, epoch);
    hide Bounded, TotalPnl, Balanced, AllSound;
    ZeroSum(After(Fresh(instruments, capacity, epoch), commands).positions, i, mark);
  }
}
