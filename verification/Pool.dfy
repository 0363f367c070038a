/**
 The fixed-slot pool: a stack of free slot offsets and a bitmap of slots in use, carved out
 of one block of bytes on the first allocation.

 Addresses are integers and the block starts at `storage`. Whatever sequence of calls is
 made, double, misaligned and wrong-size frees included, the stack and the bitmap describe
 one partition of the slots, so live slots are distinct, inside the block and disjoint.
 */
module Pool {
  import opened Types
  import opened Arithmetic

  // ---- Slots --------------------------------------------------------------

  /** Where slot `i` starts, as an offset into the block. */
  function Start(first: nat, size: nat, i: nat): nat {
    first + i * size
  }

  function IndexOf(first: nat, size: nat, start: nat): nat
    requires size > 0 && start >= first
  {
    (start - first) / size
  }

  lemma IndexOfStart(first: nat, size: nat, i: nat)
    requires size > 0
    ensures IndexOf(first, size, Start(first, size, i)) == i
  {
    Quotient(i * size, i, 0, size);
  }

  /** Different slots do not overlap. */
  lemma SlotsDisjoint(first: nat, size: nat, i: nat, j: nat)
    requires i < j && size > 0
    ensures Start(first, size, i) + size <= Start(first, size, j)
  {
    Multiples(j - i, size);
    assert (j - i) * size == j * size - i * size;
  }

  // ---- The stack and the bitmap -------------------------------------------

  function CountFree(used: seq<bool>): (r: nat)
    ensures r <= |used|
  {
    if used == [] then 0 else CountFree(used[1..]) + if used[0] then 0 else 1
  }

  lemma {:induction false} CountFreeUpdate(used: seq<bool>, i: nat, b: bool)
    requires i < |used|
    ensures CountFree(used[i := b]) == CountFree(used) + (if used[i] then 1 else 0) - (if b then 1 else 0)
  {
    if i > 0 {
      CountFreeUpdate(used[1..], i - 1, b);
      assert used[i := b][1..] == used[1..][i - 1 := b];
    } else {
      assert used[i := b][1..] == used[1..];
    }
  }

  /** The slots on the free stack are free, each once, and they are all the free slots. */
  ghost predicate Partition(stack: seq<nat>, free: nat, used: seq<bool>, first: nat, size: nat)
    requires size > 0
  {
    && |stack| == |used| && free <= |stack| && free == CountFree(used)
    && (forall k | 0 <= k < free :: FreeEntry(stack[k], used, first, size))
    && (forall k, l | 0 <= k < l < free :: stack[k] != stack[l])
  }

  ghost predicate FreeEntry(start: nat, used: seq<bool>, first: nat, size: nat)
    requires size > 0
  {
    && start >= first && IndexOf(first, size, start) < |used| && !used[IndexOf(first, size, start)]
    && start == Start(first, size, IndexOf(first, size, start))
  }

  lemma TakeKeeps(stack: seq<nat>, free: nat, used: seq<bool>, first: nat, size: nat)
    requires size > 0 && Partition(stack, free, used, first, size) && free > 0
    ensures FreeEntry(stack[free - 1], used, first, size)
    ensures var i := IndexOf(first, size, stack[free - 1]);
      Partition(stack, free - 1, used[i := true], first, size)
  {
    assert FreeEntry(stack[free - 1], used, first, size);
    var i := IndexOf(first, size, stack[free - 1]);
    CountFreeUpdate(used, i, true);
    hide IndexOf, Start, CountFree;
    forall k | 0 <= k < free - 1 ensures FreeEntry(stack[k], used[i := true], first, size) {
      assert FreeEntry(stack[k], used, first, size);
      assert stack[k] != stack[free - 1];
    }
  }

  lemma GiveKeeps(stack: seq<nat>, free: nat, used: seq<bool>, first: nat, size: nat, i: nat)
    requires size > 0 && Partition(stack, free, used, first, size) && i < |used| && used[i]
    ensures free < |stack|
    ensures Partition(stack[free := Start(first, size, i)], free + 1, used[i := false], first, size)
  {
    CountFreeUpdate(used, i, false);
    IndexOfStart(first, size, i);
    hide IndexOf, Start, CountFree;
    var start := Start(first, size, i);
    forall k | 0 <= k < free
      ensures FreeEntry(stack[k], used[i := false], first, size) && stack[k] != start
    {
      assert FreeEntry(stack[k], used, first, size);
    }
    assert start >= first by { StartAfter(first, size, i); }
  }

  lemma StartAfter(first: nat, size: nat, i: nat)
    ensures Start(first, size, i) >= first
  {
  }

  /** The offsets of the slots in use. */
  ghost function LiveStarts(used: seq<bool>, first: nat, size: nat): set<nat> {
    set i | 0 <= i < |used| && used[i] :: Start(first, size, i)
  }

  lemma {:induction false} LiveCount(used: seq<bool>, first: nat, size: nat)
    requires size > 0
    ensures |LiveStarts(used, first, size)| + CountFree(used) == |used|
  {
    if used != [] {
      var rest := LiveStarts(used[1..], first + size, size);
      LiveCount(used[1..], first + size, size);
      LiveSplit(used, first, size);
      hide LiveStarts;
      if used[0] {
        assert |{first} + rest| == 1 + |rest|;
      }
    }
  }

  lemma LiveSplit(used: seq<bool>, first: nat, size: nat)
    requires used != [] && size > 0
    ensures first !in LiveStarts(used[1..], first + size, size)
    ensures LiveStarts(used, first, size)
         == (if used[0] then {first} else {}) + LiveStarts(used[1..], first + size, size)
  {
    var rest, next := used[1..], first + size;
    forall i: nat | i < |rest| ensures Start(next, size, i) == Start(first, size, i + 1) > first {
      assert (i + 1) * size == i * size + size;
    }
    assert Start(first, size, 0) == first;
    forall x | x in LiveStarts(used, first, size)
      ensures x in (if used[0] then {first} else {}) + LiveStarts(rest, first + size, size)
    {
      var i :| 0 <= i < |used| && used[i] && x == Start(first, size, i);
      if i > 0 {
        assert rest[i - 1] && x == Start(first + size, size, i - 1);
      }
    }
    forall x | x in LiveStarts(rest, first + size, size) ensures x in LiveStarts(used, first, size) && x > first {
      var i :| 0 <= i < |rest| && rest[i] && x == Start(first + size, size, i);
      assert used[i + 1] && x == Start(first, size, i + 1);
    }
  }

  lemma LiveAfterTake(used: seq<bool>, first: nat, size: nat, i: nat)
    requires i < |used| && !used[i] && size > 0
    ensures Start(first, size, i) !in LiveStarts(used, first, size)
    ensures LiveStarts(used[i := true], first, size) == LiveStarts(used, first, size) + {Start(first, size, i)}
  {
    StartsDiffer(first, size);
    hide Start;
    assert forall j | 0 <= j < |used| && j != i :: used[i := true][j] == used[j];
    assert used[i := true][i];
  }

  lemma LiveAfterGive(used: seq<bool>, first: nat, size: nat, i: nat)
    requires i < |used| && used[i] && size > 0
    ensures Start(first, size, i) in LiveStarts(used, first, size)
    ensures LiveStarts(used[i := false], first, size) == LiveStarts(used, first, size) - {Start(first, size, i)}
  {
    StartsDiffer(first, size);
    hide Start;
    assert forall j | 0 <= j < |used| && j != i :: used[i := false][j] == used[j];
  }

  lemma StartsDiffer(first: nat, size: nat)
    requires size > 0
    ensures forall i: nat, j: nat | i != j :: Start(first, size, i) != Start(first, size, j)
  {
    forall i: nat, j: nat | i != j ensures Start(first, size, i) != Start(first, size, j) {
      IndexOfStart(first, size, i);
      IndexOfStart(first, size, j);
    }
  }

  // ---- Alignment ----------------------------------------------------------

  /** The smallest step forward to a multiple of `alignment`. */
  function Padding(at: nat, alignment: nat): (r: nat)
    requires alignment > 0
    ensures r < alignment
  {
    if at % alignment == 0 then 0 else alignment - at % alignment
  }

  lemma PaddingAligns(at: nat, alignment: nat)
    requires alignment > 0
    ensures (at + Padding(at, alignment)) % alignment == 0
  {
    var q := at / alignment;
    if at % alignment != 0 {
      assert at + Padding(at, alignment) == (q + 1) * alignment;
      Quotient(at + Padding(at, alignment), q + 1, 0, alignment);
    }
  }

  /** `std::align`: room for `size` bytes at an aligned address, or nothing. */
  function Align(at: nat, alignment: nat, size: nat, space: nat): Option<nat>
    requires alignment > 0
  {
    var pad := Padding(at, alignment);
    if pad + size <= space then Some(pad) else None
  }

  /** Every slot is aligned exactly when the slot size is a multiple of the alignment, or there is one slot. */
  lemma SlotsAligned(storage: nat, first: nat, size: nat, alignment: nat, count: nat)
    requires alignment > 0 && count > 0 && (storage + first) % alignment == 0
    ensures (forall i: nat | i < count :: (storage + Start(first, size, i)) % alignment == 0)
       <==> count == 1 || size % alignment == 0
  {
    var a := storage + first;
    if count == 1 || size % alignment == 0 {
      forall i: nat | i < count ensures (storage + Start(first, size, i)) % alignment == 0 {
        if i > 0 {
          var q, p := a / alignment, size / alignment;
          MultipleSum(a, size, q, p, i, alignment);
        }
      }
    } else {
      var q := a / alignment;
      assert storage + Start(first, size, 1) == a + size;
      var p, r := size / alignment, size % alignment;
      assert a + size == (q + p) * alignment + r;
      Quotient(a + size, q + p, r, alignment);
    }
  }

  lemma MultipleSum(a: nat, size: nat, q: nat, p: nat, i: nat, d: nat)
    requires d > 0 && a == q * d && size == p * d
    ensures (a + i * size) % d == 0
  {
    assert a + i * size == (q + i * p) * d;
    Quotient(a + i * size, q + i * p, 0, d);
  }

  // ---- The pool -----------------------------------------------------------

  /** A pointer, the null pointer, or `std::bad_alloc`. */
  datatype Grant = Pointer(address: nat) | Null | BadAlloc

  class FixedSlotPool {
    const storage: nat
    const capacityBytes: nat
    var firstInit: bool
    var freeSlots: seq<nat>
    var inUses: seq<bool>
    var freeCount: nat
    var slotSize: nat
    var slotAlignment: nat
    var firstValidStart: nat
    var lastValidStart: nat

    ghost predicate Valid()
      reads this
    {
      if storage == 0 then false
      else if !firstInit then freeSlots == [] && inUses == [] && freeCount == 0 && slotSize == 0
      else
        && slotSize > 0 && slotAlignment > 0 && |inUses| > 0
        && (storage + firstValidStart) % slotAlignment == 0
        && Start(firstValidStart, slotSize, |inUses|) <= capacityBytes
        && lastValidStart == Start(firstValidStart, slotSize, |inUses| - 1)
        && Partition(freeSlots, freeCount, inUses, firstValidStart, slotSize)
    }

    /** The addresses handed out and not yet returned. */
    ghost function Live(): set<nat>
      reads this
    {
      LiveStarts(inUses, storage + firstValidStart, slotSize)
    }

    constructor (storage: nat, capacityBytes: nat)
      requires storage > 0 && capacityBytes > 0
      ensures Valid() && !firstInit && Live() == {} && this.storage == storage && this.capacityBytes == capacityBytes
    {
      this.storage, this.capacityBytes := storage, capacityBytes;
      firstInit, freeSlots, inUses, freeCount, slotSize := false, [], [], 0, 0;
      slotAlignment, firstValidStart, lastValidStart := 0, 0, 0;
    }

    /** Carves the block into slots. `memory` says whether the two vectors could be reserved. */
    method Carve(bytes: nat, alignment: nat, memory: bool) returns (ok: bool)
      requires Valid() && !firstInit && bytes > 0 && alignment > 0
      modifies this
      ensures Valid() && Live() == old(Live())
      ensures ok == firstInit == (memory && Align(storage, alignment, bytes, capacityBytes).Some?)
      ensures ok ==> slotSize == bytes && slotAlignment == alignment && freeCount == |inUses|
                     && firstValidStart == Padding(storage, alignment)
                     && |inUses| == (capacityBytes - firstValidStart) / bytes
    {
      var pad := Align(storage, alignment, bytes, capacityBytes);
      if pad.None? || !memory {
        return false;
      }
      var count := (capacityBytes - pad.value) / bytes;
      CarvingFits(capacityBytes - pad.value, bytes);
      PaddingAligns(storage, alignment);
      freeCount := count;
      for i := 0 to count
        invariant |freeSlots| == |inUses| == i
        invariant forall k | 0 <= k < i :: freeSlots[k] == Start(pad.value, bytes, k) && !inUses[k]
        invariant freeCount == count && !firstInit
      {
        freeSlots := freeSlots + [pad.value + i * bytes];
        inUses := inUses + [false];
      }
      slotSize := bytes;
      slotAlignment := alignment;
      lastValidStart := freeSlots[count - 1];
      firstValidStart := pad.value;
      firstInit := true;
      AllFree(freeSlots, inUses, firstValidStart, slotSize);
      NoneLive(inUses, storage + firstValidStart, slotSize);
      ok := true;
    }

    /** The block is carved as it was. */
    predicate SameSlots(size: nat, alignment: nat, first: nat, count: nat)
      reads this
    {
      slotSize == size && slotAlignment == alignment && firstValidStart == first && |inUses| == count
    }

    /** Free and live slots make up all the slots. */
    lemma CountSlots()
      requires Valid()
      ensures freeCount + |Live()| == |inUses|
    {
      if firstInit {
        LiveCount(inUses, storage + firstValidStart, slotSize);
      }
    }

    /** What a request needs once the block is carved. */
    predicate Serves(bytes: nat, alignment: nat)
      reads this
    {
      freeCount > 0 && slotSize == bytes && slotAlignment == alignment
    }

    /** Pops one slot. */
    method Take(bytes: nat) returns (address: nat)
      requires Valid() && firstInit && freeCount > 0 && bytes == slotSize
      modifies this`freeCount, this`inUses
      ensures Valid()
      ensures address !in old(Live()) && Live() == old(Live()) + {address}
      ensures freeCount == old(freeCount) - 1 && |inUses| == old(|inUses|)
    {
      TakeKeeps(freeSlots, freeCount, inUses, firstValidStart, slotSize);
      freeCount := freeCount - 1;
      var start := freeSlots[freeCount];
      var i := (start - firstValidStart) / bytes;
      LiveAfterTake(inUses, storage + firstValidStart, slotSize, i);
      inUses := inUses[i := true];
      address := storage + start;
    }

    /**
     One slot or none. Null is returned exactly for a request of no bytes, for a first request that cannot be
     carved, for a request of another shape, and when no slot is free; then no live slot changes.
     */
    method TryAllocate(bytes: nat, alignment: nat, memory: bool) returns (r: Grant)
      requires Valid() && alignment > 0
      modifies this
      ensures Valid() && !r.BadAlloc?
      ensures r.Pointer? ==> firstInit && bytes == slotSize && alignment == slotAlignment
      ensures r.Pointer? ==> r.address !in old(Live()) && Live() == old(Live()) + {r.address}
      ensures r.Null? ==> Live() == old(Live())
      ensures old(firstInit) ==> (r.Pointer? <==> bytes > 0 && old(Serves(bytes, alignment)))
      ensures !old(firstInit) ==>
        (r.Pointer? <==> bytes > 0 && memory && Align(storage, alignment, bytes, capacityBytes).Some?)
      ensures !old(firstInit) ==> firstInit == r.Pointer?
      ensures !old(firstInit) && r.Pointer? ==>
        |inUses| == (capacityBytes - Padding(storage, alignment)) / bytes && freeCount == |inUses| - 1
      ensures old(firstInit) ==> firstInit && SameSlots(old(slotSize), old(slotAlignment), old(firstValidStart), old(|inUses|))
      ensures old(firstInit) ==> freeCount == old(freeCount) - if r.Pointer? then 1 else 0
      ensures freeCount + |Live()| == |inUses|
    {
      CountSlots();
      if bytes == 0 {
        return Null;
      }
      if !firstInit {
        var ok := Carve(bytes, alignment, memory);
        if !ok {
          return Null;
        }
        CountSlots();
      }
      if freeCount == 0 || slotSize != bytes || slotAlignment != alignment {
        return Null;
      }
      var address := Take(bytes);
      CountSlots();
      return Pointer(address);
    }

    /** The same, but a failure of any kind except an empty request is an exception. */
    method Allocate(bytes: nat, alignment: nat, memory: bool) returns (r: Grant)
      requires Valid() && alignment > 0
      modifies this
      ensures Valid() && (r.Null? <==> bytes == 0)
      ensures r.Pointer? ==> firstInit && bytes == slotSize && alignment == slotAlignment
      ensures r.Pointer? ==> r.address !in old(Live()) && Live() == old(Live()) + {r.address}
      ensures !r.Pointer? ==> Live() == old(Live())
      ensures old(firstInit) ==> (r.Pointer? <==> bytes > 0 && old(Serves(bytes, alignment)))
      ensures !old(firstInit) ==>
        (r.Pointer? <==> bytes > 0 && memory && Align(storage, alignment, bytes, capacityBytes).Some?)
      ensures !old(firstInit) ==> firstInit == r.Pointer?
      ensures !old(firstInit) && r.Pointer? ==>
        |inUses| == (capacityBytes - Padding(storage, alignment)) / bytes && freeCount == |inUses| - 1
      ensures old(firstInit) ==> firstInit && SameSlots(old(slotSize), old(slotAlignment), old(firstValidStart), old(|inUses|))
      ensures old(firstInit) ==> freeCount == old(freeCount) - if r.Pointer? then 1 else 0
      ensures freeCount + |Live()| == |inUses|
    {
      r := TryAllocate(bytes, alignment, memory);
      if r.Null? && bytes != 0 {
        r := BadAlloc;
      }
    }

    /** Whether a call that returns a slot has an effect: it names a live, aligned slot under the right size. */
    ghost predicate Returnable(address: nat, bytes: nat)
      requires Valid()
      reads this
    {
      bytes == slotSize && address in Live() && address % slotAlignment == 0
    }

    /** The slot that a pointer and a size name, by the checks of the source in their order. */
    method Named(address: nat, bytes: nat) returns (i: Option<nat>)
      requires Valid()
      ensures i.Some? <==> Returnable(address, bytes)
      ensures i.Some? ==> firstInit && i.value < |inUses| && inUses[i.value]
      ensures i.Some? ==> address == storage + Start(firstValidStart, slotSize, i.value)
    {
      if address == 0 || bytes == 0 || !firstInit || bytes != slotSize {
        return None;
      }
      AlignExact(address, slotAlignment, slotSize);
      assert lastValidStart == Start(firstValidStart, slotSize, |inUses| - 1);
      hide Align, LiveStarts, Partition, Start;
      LiveAddress(address);
      if address in Live() {
        LiveInRange(address);
      }
      var start := address - storage;
      if start > lastValidStart || start < firstValidStart {
        return None;
      }
      var offset := start - firstValidStart;
      if offset % slotSize != 0 {
        return None;
      }
      if Align(address, slotAlignment, slotSize, slotSize).None? {
        return None;
      }
      WithinCarving(firstValidStart, offset, |inUses|, slotSize);
      if !inUses[offset / bytes] {
        return None;
      }
      return Some(offset / bytes);
    }

    /**
     Returns a slot. Any address and any size may be passed: only the address of a live, aligned slot under the
     right size has an effect, and then exactly that slot stops being live.
     */
    method Deallocate(address: nat, bytes: nat)
      requires Valid()
      modifies this`inUses, this`freeSlots, this`freeCount
      ensures Valid()
      ensures Live() == if old(Returnable(address, bytes)) then old(Live()) - {address} else old(Live())
      ensures freeCount == old(freeCount) + if old(Returnable(address, bytes)) then 1 else 0
      ensures |inUses| == old(|inUses|) && freeCount + |Live()| == |inUses|
    {
      var i := Named(address, bytes);
      if i.Some? {
        Give(i.value);
      }
      CountSlots();
    }

    /** Pushes slot `i` back. */
    method Give(i: nat)
      requires Valid() && firstInit && i < |inUses| && inUses[i]
      modifies this`inUses, this`freeSlots, this`freeCount
      ensures Valid() && freeCount == old(freeCount) + 1 && |inUses| == old(|inUses|)
      ensures Live() == old(Live()) - {storage + Start(firstValidStart, slotSize, i)}
    {
      GiveKeeps(freeSlots, freeCount, inUses, firstValidStart, slotSize, i);
      LiveAfterGive(inUses, storage + firstValidStart, slotSize, i);
      inUses := inUses[i := false];
      freeSlots := freeSlots[freeCount := Start(firstValidStart, slotSize, i)];
      freeCount := freeCount + 1;
    }

    /** The offset of an address from the first slot. */
    function OffsetOf(address: nat): int
      reads this
    {
      address - storage - firstValidStart
    }

    /** The live addresses, told from their offsets. */
    lemma LiveAddress(address: nat)
      requires Valid() && firstInit
      ensures address in Live() <==>
        && 0 <= OffsetOf(address) && OffsetOf(address) % slotSize == 0
        && OffsetOf(address) / slotSize < |inUses| && inUses[OffsetOf(address) / slotSize]
    {
      var first := storage + firstValidStart;
      if address in Live() {
        var i :| 0 <= i < |inUses| && inUses[i] && address == Start(first, slotSize, i);
        Quotient(i * slotSize, i, 0, slotSize);
      }
      if 0 <= OffsetOf(address) && OffsetOf(address) % slotSize == 0 {
        assert address == Start(first, slotSize, OffsetOf(address) / slotSize);
      }
    }

    lemma LiveInRange(address: nat)
      requires Valid() && firstInit && address in Live()
      ensures storage + firstValidStart <= address <= storage + lastValidStart
    {
      var first := storage + firstValidStart;
      var i :| 0 <= i < |inUses| && inUses[i] && address == Start(first, slotSize, i);
      StartAfter(first, slotSize, i);
      if i < |inUses| - 1 {
        SlotsDisjoint(first, slotSize, i, |inUses| - 1);
      }
    }

    /** Live slots lie inside the block and never overlap; they are aligned if the slot size is a multiple. */
    lemma LiveSlots(p: nat, q: nat)
      requires Valid() && p in Live() && q in Live()
      ensures storage <= p && p + slotSize <= storage + capacityBytes
      ensures p == q || p + slotSize <= q || q + slotSize <= p
      ensures slotSize % slotAlignment == 0 ==> p % slotAlignment == 0
    {
      var first := storage + firstValidStart;
      var i :| 0 <= i < |inUses| && inUses[i] && p == Start(first, slotSize, i);
      var j :| 0 <= j < |inUses| && inUses[j] && q == Start(first, slotSize, j);
      if i < j {
        SlotsDisjoint(first, slotSize, i, j);
      } else if j < i {
        SlotsDisjoint(first, slotSize, j, i);
      }
      SlotsDisjoint(first, slotSize, i, |inUses|);
      SlotsAligned(storage, firstValidStart, slotSize, slotAlignment, |inUses|);
      assert p == storage + Start(firstValidStart, slotSize, i);
    }

    method Count() returns (r: nat)
      requires Valid()
      ensures r == freeCount * slotSize
    {
      r := freeCount * slotSize;
    }
  }

  /**
   Two slots of twelve bytes under alignment eight: both are handed out, both are returned, and the misaligned
   one stays live, so that the pool is left with one free slot of two.
   */
  method LeakMisalignedSlot() returns (pool: FixedSlotPool)
    ensures fresh(pool) && pool.Valid() && |pool.inUses| == 2
    ensures pool.Live() == {28} && 28 % pool.slotAlignment != 0 && pool.freeCount == 1
  {
    hide LiveStarts, Partition, Start;
    pool := new FixedSlotPool(16, 24);
    assert Padding(16, 8) == 0;
    var a := pool.Allocate(12, 8, true);
    var b := pool.Allocate(12, 8, true);
    pool.LiveSlots(a.address, b.address);
    pool.LiveSlots(b.address, a.address);
    assert pool.Live() == {16, 28};
    pool.Deallocate(a.address, 12);
    pool.Deallocate(b.address, 12);
  }

  /** Only an aligned address is found aligned in the room of a single slot. */
  lemma AlignExact(at: nat, alignment: nat, size: nat)
    requires alignment > 0
    ensures Align(at, alignment, size, size).Some? <==> at % alignment == 0
  {
  }

  lemma WithinCarving(first: nat, offset: nat, count: nat, size: nat)
    requires size > 0 && count > 0 && first + offset <= Start(first, size, count - 1) && offset % size == 0
    ensures offset / size < count && first + offset == Start(first, size, offset / size)
  {
    var i := offset / size;
    assert i * size == offset;
    assert (i - count) * size == i * size - count * size;
    assert (count - 1) * size == count * size - size;
    Multiples(i - count, size);
  }

  lemma CarvingFits(space: nat, bytes: nat)
    requires 0 < bytes <= space
    ensures space / bytes >= 1 && space / bytes * bytes <= space
  {
  }

  lemma {:induction false} NoneUsed(used: seq<bool>)
    requires forall k | 0 <= k < |used| :: !used[k]
    ensures CountFree(used) == |used|
  {
    if used != [] {
      NoneUsed(used[1..]);
    }
  }

  lemma NoneLive(used: seq<bool>, first: nat, size: nat)
    requires forall k | 0 <= k < |used| :: !used[k]
    ensures LiveStarts(used, first, size) == {}
  {
  }

  lemma AllFree(stack: seq<nat>, used: seq<bool>, first: nat, size: nat)
    requires size > 0 && |stack| == |used|
    requires forall k | 0 <= k < |used| :: stack[k] == Start(first, size, k) && !used[k]
    ensures Partition(stack, |stack|, used, first, size)
  {
    NoneUsed(used);
    StartsDiffer(first, size);
    forall k | 0 <= k < |stack| ensures FreeEntry(stack[k], used, first, size) {
      IndexOfStart(first, size, k);
      StartAfter(first, size, k);
    }
    hide Start;
  }
}
