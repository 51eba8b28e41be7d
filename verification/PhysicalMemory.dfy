/**
  MemoryManager: a first-fit allocator over one physical region, with an owner
  for every taken byte and full merging after every change.
 */
module PhysicalMemory {
  import opened Options
  import opened Intervals
  import opened Blocks

  datatype Memory = Memory(free: seq<Owned>, taken: seq<Owned>)

  datatype Fault =
    | NoSuitableBlock     // no block found to free or to transfer
    | WrongOwner          // contract: the block belongs to the given owner
    | SizeTooLarge        // more than the block holds

  datatype Result<T> = Ok(value: T) | Failed(fault: Fault)

  /** Who holds the byte at a: nobody at all, a party, or the free list. */
  ghost predicate IsFree(m: Memory, a: int) {
    OwnerAt(m.free, a).Some?
  }

  ghost predicate HeldBy(m: Memory, a: int, w: Owner) {
    OwnerAt(m.taken, a) == Some(w)
  }

  /** Free and taken blocks tile the region [lo, hi) exactly, and nothing is left to merge. */
  ghost predicate Tiles(m: Memory, lo: nat, hi: nat) {
    && Ordered(m.free) && Merged(m.free) && Ordered(m.taken) && Merged(m.taken)
    && (forall b | b in m.free :: b.tag == Nobody)
    && (forall b | b in m.taken :: b.tag != Nobody)
    && (forall a :: lo <= a < hi ==> (OwnerAt(m.free, a).Some? <==> OwnerAt(m.taken, a).None?))
    && (forall a :: !(lo <= a < hi) ==> OwnerAt(m.free, a).None? && OwnerAt(m.taken, a).None?)
  }

  function TotalSize(m: Memory): nat {
    Total(m.free) + Total(m.taken)
  }

  // ---------------------------------------------------------------------------
  // Operations
  // ---------------------------------------------------------------------------

  function Create(start: nat, size: nat): Memory {
    Memory([Block(start, size, Nobody)], [])
  }

  /** Position of the first free block that is large enough. */
  function FirstFit(free: seq<Owned>, size: nat): (i: nat)
    ensures i <= |free|
    ensures i < |free| ==> free[i].size >= size
    ensures forall j | 0 <= j < i :: free[j].size < size
  {
    if free == [] || free[0].size >= size then 0 else 1 + FirstFit(free[1..], size)
  }

  /** The free list and taken list of an allocation at block i, before merging. */
  function Carve(m: Memory, i: nat, owner: Owner, size: nat): Memory
    requires i < |m.free| && m.free[i].size >= size
  {
    var b := m.free[i];
    var rest := Erase(m.free, i);
    Memory(if b.size != size then Insert(rest, Block(b.start + size, b.size - size, Nobody)) else rest,
           Insert(m.taken, Block(b.start, size, owner)))
  }

  function CoalesceBoth(m: Memory): Memory {
    Memory(Coalesce(m.free), Coalesce(m.taken))
  }

  /** AllocateBlock: the start address of the allocation, or none. */
  function Allocate(m: Memory, owner: Owner, size: nat): (Option<nat>, Memory) {
    var i := FirstFit(m.free, size);
    if i == |m.free| then (None, m)
    else (Some(m.free[i].start), CoalesceBoth(Carve(m, i, owner, size)))
  }

  /** Position of the first block for which the search of DeallocateBlock stops. */
  function Containing(taken: seq<Owned>, start: nat): (i: nat)
    ensures i <= |taken|
    ensures i < |taken| ==> taken[i].Has(start)
    ensures forall j | 0 <= j < i :: !taken[j].Has(start)
  {
    if taken == [] || taken[0].Has(start) then 0 else 1 + Containing(taken[1..], start)
  }

  /** Block i without [start, start + size): what remains of it stays with `owner`. */
  function CutOut(taken: seq<Owned>, i: nat, start: nat, size: nat, owner: Owner): seq<Owned>
    requires i < |taken| && taken[i].start <= start && start + size <= taken[i].End()
  {
    var b := taken[i];
    var rest := Erase(taken, i);
    var rest1 := if b.start < start then Insert(rest, Block(b.start, start - b.start, owner)) else rest;
    if b.End() > start + size then Insert(rest1, Block(start + size, b.End() - start - size, owner)) else rest1
  }

  function Deallocate(m: Memory, owner: Owner, start: nat, size: nat): Result<Memory> {
    var i := Containing(m.taken, start);
    if i == |m.taken| then Failed(NoSuitableBlock)
    else if m.taken[i].tag != owner then Failed(WrongOwner)
    else if m.taken[i].End() < start + size then Failed(SizeTooLarge)
    else Ok(CoalesceBoth(Memory(Insert(m.free, Block(start, size, Nobody)),
                                CutOut(m.taken, i, start, size, owner))))
  }

  /** Position of the first block for which the search of TransferOwnership stops. */
  function Enclosing(taken: seq<Owned>, start: nat, size: nat): (i: nat)
    ensures i <= |taken|
    ensures i < |taken| ==> taken[i].start <= start && start + size <= taken[i].End()
    ensures forall j | 0 <= j < i :: !(taken[j].start <= start && start + size <= taken[j].End())
  {
    if taken == [] || (taken[0].start <= start && start + size <= taken[0].End()) then 0
    else 1 + Enclosing(taken[1..], start, size)
  }

  /** Block i with [start, start + size) handed to the new owner; what remains stays with the old one. */
  function Reassigned(taken: seq<Owned>, i: nat, start: nat, size: nat, owner: Owner, newOwner: Owner): seq<Owned>
    requires i < |taken| && taken[i].start <= start && start + size <= taken[i].End()
  {
    var b := taken[i];
    var moved := Insert(Erase(taken, i), Block(start, size, newOwner));
    var moved1 := if b.start < start then Insert(moved, Block(b.start, start - b.start, owner)) else moved;
    if b.End() > start + size then Insert(moved1, Block(start + size, b.End() - start - size, owner)) else moved1
  }

  function Transfer(m: Memory, owner: Owner, newOwner: Owner, start: nat, size: nat): Result<Memory> {
    var i := Enclosing(m.taken, start, size);
    if i == |m.taken| then Failed(NoSuitableBlock)
    else if m.taken[i].tag != owner then Failed(WrongOwner)
    else Ok(Memory(m.free, Coalesce(Reassigned(m.taken, i, start, size, owner, newOwner))))
  }

  // ---------------------------------------------------------------------------
  // What the operations mean for every byte
  // ---------------------------------------------------------------------------

  /** A run of `size` free bytes starting at a. */
  ghost predicate FreeRun(m: Memory, a: nat, size: nat) {
    forall x | a <= x < a + size :: IsFree(m, x)
  }

  ghost predicate HeldRun(m: Memory, w: Owner, a: nat, size: nat) {
    forall x | a <= x < a + size :: HeldBy(m, x, w)
  }

  /** CoalesceBoth changes the representation only. */
  lemma CoalesceBothExact(m: Memory)
    requires Ordered(m.free) && Ordered(m.taken)
    ensures var m' := CoalesceBoth(m);
            && Ordered(m'.free) && Merged(m'.free) && Ordered(m'.taken) && Merged(m'.taken)
            && (forall a :: OwnerAt(m'.free, a) == OwnerAt(m.free, a))
            && (forall a :: OwnerAt(m'.taken, a) == OwnerAt(m.taken, a))
            && TotalSize(m') == TotalSize(m)
  {
    hide Ordered, Merged, Coalesce;
    CoalesceExact(m.free);
    CoalesceExact(m.taken);
  }

  /** Owners of the blocks are the owners of their bytes. */
  lemma OwnersByByte(bs: seq<Owned>, free: bool)
    requires Ordered(bs)
    requires forall a :: OwnerAt(bs, a).Some? ==> (OwnerAt(bs, a).value == Nobody <==> free)
    ensures forall b | b in bs :: b.tag == Nobody <==> free
  {
    forall b | b in bs
      ensures b.tag == Nobody <==> free
    {
      var i :| 0 <= i < |bs| && bs[i] == b;
      OwnerAtOf(bs, i, b.start);
    }
  }

  /** Cutting [start, start + size) out of the block that has it removes exactly those bytes. */
  lemma CutOutExact(taken: seq<Owned>, i: nat, start: nat, size: nat, owner: Owner)
    requires Ordered(taken) && i < |taken| && size > 0 && taken[i].tag == owner
    requires taken[i].start <= start && start + size <= taken[i].End()
    ensures var r := CutOut(taken, i, start, size, owner);
            && Ordered(r) && ClearOf(r, Block(start, size, owner))
            && (forall a :: OwnerAt(r, a) == if start <= a < start + size then None else OwnerAt(taken, a))
            && Total(r) + size == Total(taken)
  {
    hide Ordered, Erase, Insert, ClearOf, OwnerAt, Total;
    var b := taken[i];
    var rest := Erase(taken, i);
    var left := Block(b.start, start - b.start, owner);
    var mid := Block(start, size, owner);
    var right := Block(start + size, b.End() - start - size, owner);
    OwnersAfterErase(taken, i);
    ErasedIsClear(taken, i, left);
    ErasedIsClear(taken, i, mid);
    ErasedIsClear(taken, i, right);
    var rest1 := if left.size > 0 then Insert(rest, left) else rest;
    WithPart(rest, left, mid);
    WithPart(rest, left, right);
    WithPart(rest1, right, mid);
    forall a
      ensures OwnerAt(CutOut(taken, i, start, size, owner), a)
              == if start <= a < start + size then None else OwnerAt(taken, a)
    {
      if b.Has(a) {
        OwnerAtOf(taken, i, a);
      }
    }
  }

  /** Inserting a part, unless it is empty. */
  lemma WithPart(bs: seq<Owned>, b: Owned, other: Owned)
    requires Ordered(bs) && ClearOf(bs, b) && ClearOf(bs, other)
    requires b.End() <= other.start || other.End() <= b.start
    ensures var r := if b.size > 0 then Insert(bs, b) else bs;
            && Ordered(r) && ClearOf(r, other)
            && (forall a :: OwnerAt(r, a) == if b.Has(a) then Some(b.tag) else OwnerAt(bs, a))
            && Total(r) == Total(bs) + b.size
  {
    if b.size > 0 {
      OwnersAfterInsert(bs, b);
      InsertClear(bs, b, other);
    }
  }

  /** The bytes [start, start + size) now are what `f` and `t` say; no other byte changed. */
  ghost predicate Retiled(m: Memory, m': Memory, start: nat, size: nat, f: Option<Owner>, t: Option<Owner>) {
    && (forall a :: OwnerAt(m'.free, a) == if start <= a < start + size then f else OwnerAt(m.free, a))
    && (forall a :: OwnerAt(m'.taken, a) == if start <= a < start + size then t else OwnerAt(m.taken, a))
  }

  ghost predicate Tidy(m: Memory) {
    Ordered(m.free) && Merged(m.free) && Ordered(m.taken) && Merged(m.taken)
  }

  lemma RetiledTiles(m: Memory, m': Memory, lo: nat, hi: nat, start: nat, size: nat, f: Option<Owner>, t: Option<Owner>)
    requires Tiles(m, lo, hi) && Tidy(m') && Retiled(m, m', start, size, f, t)
    requires lo <= start && start + size <= hi
    requires f.Some? <==> t.None?
    requires (f.Some? ==> f.value == Nobody) && (t.Some? ==> t.value != Nobody)
    ensures Tiles(m', lo, hi)
  {
    FreeIsNobody(m, lo, hi);
    hide Ordered, Merged, OwnerAt;
    OwnersByByte(m'.free, true);
    OwnersByByte(m'.taken, false);
  }

  lemma FreeIsNobody(m: Memory, lo: nat, hi: nat)
    requires Tiles(m, lo, hi)
    ensures forall a :: OwnerAt(m.free, a).Some? ==> OwnerAt(m.free, a).value == Nobody
    ensures forall a :: OwnerAt(m.taken, a).Some? ==> OwnerAt(m.taken, a).value != Nobody
  {
    forall a | OwnerAt(m.free, a).Some?
      ensures OwnerAt(m.free, a).value == Nobody
    {
      var i := OwnerAtWitness(m.free, a);
      assert m.free[i] in m.free;
    }
    forall a | OwnerAt(m.taken, a).Some?
      ensures OwnerAt(m.taken, a).value != Nobody
    {
      var i := OwnerAtWitness(m.taken, a);
      assert m.taken[i] in m.taken;
    }
  }

  /** A freshly created region is one free block. */
  lemma CreateTiles(start: nat, size: nat)
    requires size > 0
    ensures Tiles(Create(start, size), start, start + size) && TotalSize(Create(start, size)) == size
  {
    var m := Create(start, size);
    assert m.free[1..] == [];
    forall a
      ensures OwnerAt(m.free, a) == if start <= a < start + size then Some(Nobody) else None
      ensures OwnerAt(m.taken, a) == None
    {
      OwnerAtFirst(m.free, a);
      OwnerAtFirst(m.free[1..], a);
      OwnerAtFirst(m.taken, a);
    }
  }

  // ---------------------------------------------------------------------------
  // Allocation
  // ---------------------------------------------------------------------------

  lemma CarveExact(m: Memory, i: nat, owner: Owner, size: nat, lo: nat, hi: nat)
    requires Tiles(m, lo, hi) && i < |m.free| && m.free[i].size >= size > 0
    ensures var m' := Carve(m, i, owner, size);
            && Ordered(m'.free) && Ordered(m'.taken)
            && Retiled(m, m', m.free[i].start, size, None, Some(owner))
            && TotalSize(m') == TotalSize(m)
            && lo <= m.free[i].start && m.free[i].End() <= hi
  {
    hide Tiles, OwnerAt, Insert, Erase, ClearOf, Total, Ordered;
    var b := m.free[i];
    FreeBlockInside(m, i, lo, hi);
    var c := Block(b.start, size, owner);
    UnownedIsClear(m.taken, c);
    OwnersAfterInsert(m.taken, c);
    CutOutExact(m.free, i, b.start, size, Nobody);
  }

  /** A free block lies in the region, and its bytes are nobody's. */
  lemma FreeBlockInside(m: Memory, i: nat, lo: nat, hi: nat)
    requires Tiles(m, lo, hi) && i < |m.free|
    ensures Ordered(m.free) && Ordered(m.taken) && lo <= m.free[i].start && m.free[i].End() <= hi
    ensures m.free[i].tag == Nobody
    ensures forall a | m.free[i].Has(a) :: OwnerAt(m.taken, a) == None
  {
    var b := m.free[i];
    assert b in m.free;
    forall a | b.Has(a)
      ensures lo <= a < hi && OwnerAt(m.taken, a) == None
    {
      OwnerAtOf(m.free, i, a);
    }
    assert b.Has(b.start) && b.Has(b.End() - 1);
  }

  /** A free run lies within one free block. */
  lemma FreeRunBlock(m: Memory, lo: nat, hi: nat, a: nat, size: nat) returns (j: nat)
    requires Tiles(m, lo, hi) && size > 0 && FreeRun(m, a, size)
    ensures j < |m.free| && m.free[j].start <= a && a + size <= m.free[j].End()
  {
    FreeIsNobody(m, lo, hi);
    forall x | a <= x < a + size
      ensures OwnerAt(m.free, x) == Some(Nobody)
    {
      assert IsFree(m, x);
    }
    j := RunInOneBlock(m.free, a, a + size, Nobody);
  }

  /** Allocation hands out the lowest run of free bytes that is long enough, and nothing else
      changes hands; it fails exactly when there is no such run. */
  lemma AllocateExact(m: Memory, owner: Owner, size: nat, lo: nat, hi: nat)
    requires Tiles(m, lo, hi) && size > 0 && owner != Nobody
    ensures var (r, m') := Allocate(m, owner, size);
            && (r.None? ==> m' == m && forall a: nat :: !FreeRun(m, a, size))
            && (r.Some? ==>
                  && FreeRun(m, r.value, size) && (forall a: nat | a < r.value :: !FreeRun(m, a, size))
                  && Tiles(m', lo, hi) && TotalSize(m') == TotalSize(m)
                  && Retiled(m, m', r.value, size, None, Some(owner)))
  {
    var i := FirstFit(m.free, size);
    forall a: nat | FreeRun(m, a, size)
      ensures i < |m.free| && m.free[i].start <= a
    {
      var j := FreeRunBlock(m, lo, hi, a, size);
      FitBefore(m.free, i, j);
    }
    if i < |m.free| {
      FitsFree(m, i, size);
      CarveExact(m, i, owner, size, lo, hi);
      var m1 := Carve(m, i, owner, size);
      hide FirstFit, Carve, OwnerAt, Ordered, Merged, FreeRun;
      CoalesceBothExact(m1);
      RetiledTiles(m, CoalesceBoth(m1), lo, hi, m.free[i].start, size, None, Some(owner));
    }
  }

  lemma FitBefore(free: seq<Owned>, i: nat, j: nat)
    requires Ordered(free) && i <= j < |free|
    ensures free[i].start <= free[j].start
  {
    assert i < j ==> free[i].End() <= free[j].start;
  }

  lemma FitsFree(m: Memory, i: nat, size: nat)
    requires Ordered(m.free) && i < |m.free| && m.free[i].size >= size
    ensures FreeRun(m, m.free[i].start, size)
  {
    forall x | m.free[i].start <= x < m.free[i].start + size
      ensures IsFree(m, x)
    {
      OwnerAtOf(m.free, i, x);
    }
  }

  // ---------------------------------------------------------------------------
  // Deallocation and transfer
  // ---------------------------------------------------------------------------

  /** Bytes held by one owner in a row are inside the block that the search finds. */
  lemma HeldRunBlock(m: Memory, lo: nat, hi: nat, owner: Owner, start: nat, size: nat) returns (j: nat)
    requires Tiles(m, lo, hi) && size > 0 && HeldRun(m, owner, start, size)
    ensures j < |m.taken| && m.taken[j].start <= start && start + size <= m.taken[j].End() && m.taken[j].tag == owner
    ensures Containing(m.taken, start) == j && Enclosing(m.taken, start, size) == j
  {
    forall x | start <= x < start + size
      ensures OwnerAt(m.taken, x) == Some(owner)
    {
      assert HeldBy(m, x, owner);
    }
    j := RunInOneBlock(m.taken, start, start + size, owner);
    OnlyBlock(m.taken, Containing(m.taken, start), j, start);
    OnlyBlock(m.taken, Enclosing(m.taken, start, size), j, start);
  }

  lemma OnlyBlock(bs: seq<Owned>, i: nat, j: nat, a: int)
    requires Ordered(bs) && i <= j < |bs| && bs[j].Has(a) && bs[i].Has(a)
    ensures i == j
  {
  }

  lemma BlockHeld(m: Memory, i: nat, lo: nat, hi: nat)
    requires Tiles(m, lo, hi) && i < |m.taken|
    ensures Ordered(m.free) && Ordered(m.taken) && lo <= m.taken[i].start && m.taken[i].End() <= hi
    ensures forall a | m.taken[i].Has(a) :: OwnerAt(m.taken, a) == Some(m.taken[i].tag) && OwnerAt(m.free, a) == None
  {
    var b := m.taken[i];
    forall a | b.Has(a)
      ensures lo <= a < hi && OwnerAt(m.taken, a) == Some(b.tag) && OwnerAt(m.free, a) == None
    {
      OwnerAtOf(m.taken, i, a);
    }
    assert b.Has(b.start) && b.Has(b.End() - 1);
  }

  /** Freeing succeeds exactly on runs that the given owner holds, and frees exactly those bytes. */
  lemma DeallocateExact(m: Memory, owner: Owner, start: nat, size: nat, lo: nat, hi: nat)
    requires Tiles(m, lo, hi) && size > 0
    ensures Deallocate(m, owner, start, size).Ok? <==> HeldRun(m, owner, start, size)
    ensures Deallocate(m, owner, start, size).Ok? ==>
              var m' := Deallocate(m, owner, start, size).value;
              && Tiles(m', lo, hi) && TotalSize(m') == TotalSize(m)
              && Retiled(m, m', start, size, Some(Nobody), None)
  {
    if HeldRun(m, owner, start, size) {
      var j := HeldRunBlock(m, lo, hi, owner, start, size);
    }
    if Deallocate(m, owner, start, size).Ok? {
      FoundBlockFreed(m, owner, start, size, lo, hi);
    }
  }

  lemma FoundBlockFreed(m: Memory, owner: Owner, start: nat, size: nat, lo: nat, hi: nat)
    requires Tiles(m, lo, hi) && size > 0 && Deallocate(m, owner, start, size).Ok?
    ensures HeldRun(m, owner, start, size)
    ensures var m' := Deallocate(m, owner, start, size).value;
            && Tiles(m', lo, hi) && TotalSize(m') == TotalSize(m)
            && Retiled(m, m', start, size, Some(Nobody), None)
  {
    hide Tiles, OwnerAt, Ordered, Merged, Insert, ClearOf, CutOut, Total, CoalesceBoth;
    var i := Containing(m.taken, start);
    BlockHeld(m, i, lo, hi);
    var b := Block(start, size, Nobody);
    CutOutExact(m.taken, i, start, size, owner);
    UnownedIsClear(m.free, b);
    OwnersAfterInsert(m.free, b);
    var m1 := Memory(Insert(m.free, b), CutOut(m.taken, i, start, size, owner));
    CoalesceBothExact(m1);
    assert Retiled(m, CoalesceBoth(m1), start, size, Some(Nobody), None);
    RetiledTiles(m, CoalesceBoth(m1), lo, hi, start, size, Some(Nobody), None);
  }

  /** Transferring succeeds exactly on runs that the old owner holds, and moves exactly those bytes. */
  lemma TransferExact(m: Memory, owner: Owner, newOwner: Owner, start: nat, size: nat, lo: nat, hi: nat)
    requires Tiles(m, lo, hi) && size > 0 && newOwner != Nobody
    ensures Transfer(m, owner, newOwner, start, size).Ok? <==> HeldRun(m, owner, start, size)
    ensures Transfer(m, owner, newOwner, start, size).Ok? ==>
              var m' := Transfer(m, owner, newOwner, start, size).value;
              && Tiles(m', lo, hi) && TotalSize(m') == TotalSize(m)
              && Retiled(m, m', start, size, None, Some(newOwner))
  {
    if HeldRun(m, owner, start, size) {
      var j := HeldRunBlock(m, lo, hi, owner, start, size);
    }
    if Transfer(m, owner, newOwner, start, size).Ok? {
      FoundBlockMoved(m, owner, newOwner, start, size, lo, hi);
    }
  }

  lemma TilesMerged(m: Memory, lo: nat, hi: nat)
    requires Tiles(m, lo, hi)
    ensures Merged(m.free)
  {
  }

  /** Cutting a range out of its block and putting it back under another owner. */
  lemma Replaced(taken: seq<Owned>, i: nat, start: nat, size: nat, owner: Owner, newOwner: Owner)
    requires Ordered(taken) && i < |taken| && size > 0 && taken[i].tag == owner
    requires taken[i].start <= start && start + size <= taken[i].End()
    ensures var r := Coalesce(Reassigned(taken, i, start, size, owner, newOwner));
            && Ordered(r) && Merged(r) && Total(r) == Total(taken)
            && forall a :: OwnerAt(r, a) == if start <= a < start + size then Some(newOwner) else OwnerAt(taken, a)
  {
    CutOutExact(taken, i, start, size, owner);
    ReassignedIs(taken, i, start, size, owner, newOwner);
    var cut := CutOut(taken, i, start, size, owner);
    var b := Block(start, size, newOwner);
    assert ClearOf(cut, b);
    hide OwnerAt, Ordered, Merged, Insert, CutOut, Total, Coalesce, ClearOf, Reassigned;
    OwnersAfterInsert(cut, b);
    CoalesceExact(Insert(cut, b));
  }

  /** With bytes to move, it does not matter that the new block goes in before the remainders. */
  lemma ReassignedIs(taken: seq<Owned>, i: nat, start: nat, size: nat, owner: Owner, newOwner: Owner)
    requires i < |taken| && taken[i].start <= start && start + size <= taken[i].End() && size > 0
    ensures Reassigned(taken, i, start, size, owner, newOwner)
            == Insert(CutOut(taken, i, start, size, owner), Block(start, size, newOwner))
  {
    hide Insert, Erase;
    var b := taken[i];
    var rest := Erase(taken, i);
    var new0 := Block(start, size, newOwner);
    var left := Block(b.start, start - b.start, owner);
    var right := Block(start + size, b.End() - start - size, owner);
    if b.start < start {
      InsertCommutes(rest, new0, left);
      InsertCommutes(Insert(rest, left), new0, right);
    } else {
      InsertCommutes(rest, new0, right);
    }
  }

  lemma FoundBlockMoved(m: Memory, owner: Owner, newOwner: Owner, start: nat, size: nat, lo: nat, hi: nat)
    requires Tiles(m, lo, hi) && size > 0 && newOwner != Nobody && Transfer(m, owner, newOwner, start, size).Ok?
    ensures HeldRun(m, owner, start, size)
    ensures var m' := Transfer(m, owner, newOwner, start, size).value;
            && Tiles(m', lo, hi) && TotalSize(m') == TotalSize(m)
            && Retiled(m, m', start, size, None, Some(newOwner))
  {
    hide Tiles, OwnerAt, Ordered, Merged, Reassigned, Total, Coalesce, ClearOf;
    var i := Enclosing(m.taken, start, size);
    BlockHeld(m, i, lo, hi);
    Replaced(m.taken, i, start, size, owner, newOwner);
    var m' := Memory(m.free, Coalesce(Reassigned(m.taken, i, start, size, owner, newOwner)));
    assert Merged(m.free) by { TilesMerged(m, lo, hi); }
    assert Retiled(m, m', start, size, None, Some(newOwner));
    RetiledTiles(m, m', lo, hi, start, size, None, Some(newOwner));
  }

  lemma AllocateTiles(m: Memory, owner: Owner, size: nat, lo: nat, hi: nat)
    requires Tiles(m, lo, hi) && size > 0 && owner != Nobody
    ensures Tiles(Allocate(m, owner, size).1, lo, hi)
  {
    hide Tiles, Allocate;
    AllocateExact(m, owner, size, lo, hi);
  }

  lemma DeallocateTiles(m: Memory, owner: Owner, start: nat, size: nat, lo: nat, hi: nat)
    requires Tiles(m, lo, hi) && size > 0
    ensures Deallocate(m, owner, start, size).Ok? ==> Tiles(Deallocate(m, owner, start, size).value, lo, hi)
  {
    hide Tiles, Deallocate;
    DeallocateExact(m, owner, start, size, lo, hi);
  }

  lemma TransferTiles(m: Memory, owner: Owner, newOwner: Owner, start: nat, size: nat, lo: nat, hi: nat)
    requires Tiles(m, lo, hi) && size > 0 && newOwner != Nobody
    ensures Transfer(m, owner, newOwner, start, size).Ok? ==> Tiles(Transfer(m, owner, newOwner, start, size).value, lo, hi)
  {
    hide Tiles, Transfer;
    TransferExact(m, owner, newOwner, start, size, lo, hi);
  }

  // ---------------------------------------------------------------------------
  // Sequences of operations
  // ---------------------------------------------------------------------------

  datatype Op =
    | Take(owner: Owner, size: nat)
    | Give(owner: Owner, start: nat, size: nat)
    | Move(owner: Owner, newOwner: Owner, start: nat, size: nat)

  ghost predicate Sensible(op: Op) {
    op.size > 0 && (op.Take? ==> op.owner != Nobody) && (op.Move? ==> op.newOwner != Nobody)
  }

  /** A refused operation throws before it changed anything. */
  function Apply(m: Memory, op: Op): Memory {
    match op
    case Take(owner, size) => Allocate(m, owner, size).1
    case Give(owner, start, size) =>
      var r := Deallocate(m, owner, start, size);
      if r.Ok? then r.value else m
    case Move(owner, newOwner, start, size) =>
      var r := Transfer(m, owner, newOwner, start, size);
      if r.Ok? then r.value else m
  }

  function ApplyAll(m: Memory, ops: seq<Op>): Memory
    decreases |ops|
  {
    if ops == [] then m else ApplyAll(Apply(m, ops[0]), ops[1..])
  }

  lemma {:induction false} ApplyAllTiles(m: Memory, ops: seq<Op>, lo: nat, hi: nat)
    requires Tiles(m, lo, hi) && forall op | op in ops :: Sensible(op)
    ensures Tiles(ApplyAll(m, ops), lo, hi) && TotalSize(ApplyAll(m, ops)) == TotalSize(m)
    decreases |ops|
  {
    hide Tiles, TotalSize, Allocate, Deallocate, Transfer;
    if ops != [] {
      assert Sensible(ops[0]);
      match ops[0] {
        case Take(owner, size) => AllocateExact(m, owner, size, lo, hi);
        case Give(owner, start, size) => DeallocateExact(m, owner, start, size, lo, hi);
        case Move(owner, newOwner, start, size) => TransferExact(m, owner, newOwner, start, size, lo, hi);
      }
      ApplyAllTiles(Apply(m, ops[0]), ops[1..], lo, hi);
    }
  }

  /** After any sequence of operations on a fresh region, the blocks tile it exactly and its
      total size is what it was created with. */
  lemma AnySequenceTiles(start: nat, size: nat, ops: seq<Op>)
    requires size > 0 && forall op | op in ops :: Sensible(op)
    ensures Tiles(ApplyAll(Create(start, size), ops), start, start + size)
    ensures TotalSize(ApplyAll(Create(start, size), ops)) == size
  {
    CreateTiles(start, size);
    ApplyAllTiles(Create(start, size), ops, start, start + size);
  }

  // ---------------------------------------------------------------------------
  // Process teardown
  // ---------------------------------------------------------------------------

  lemma MergedErase(bs: seq<Owned>, i: nat)
    requires Ordered(bs) && Merged(bs) && i < |bs|
    ensures Merged(Erase(bs, i))
  {
    var r := Erase(bs, i);
    forall k | 0 <= k < |r| - 1
      ensures !Joins(r[k], r[k + 1])
    {
      if k + 1 == i {
        assert bs[i - 1].End() <= bs[i].start && bs[i].End() <= bs[i + 1].start;
      } else if k < i {
        assert !Joins(bs[k], bs[k + 1]);
      } else {
        assert !Joins(bs[k + 1], bs[k + 2]);
      }
    }
  }

  /** Freeing a whole block takes it off the list and leaves the other taken blocks alone. */
  lemma DeallocateWhole(m: Memory, i: nat, lo: nat, hi: nat)
    requires Tiles(m, lo, hi) && i < |m.taken|
    ensures var b := m.taken[i];
            var r := Deallocate(m, b.tag, b.start, b.size);
            r.Ok? && r.value.taken == Erase(m.taken, i)
  {
    var b := m.taken[i];
    OnlyBlock(m.taken, Containing(m.taken, b.start), i, b.start);
    MergedErase(m.taken, i);
    CoalesceMerged(Erase(m.taken, i));
  }

  /** The teardown loop from position i on; it starts over after every freed block. */
  function Teardown(m: Memory, p: Owner, i: nat, ghost lo: nat, ghost hi: nat): Memory
    requires Tiles(m, lo, hi) && i <= |m.taken|
    decreases |m.taken|, |m.taken| - i
  {
    if i == |m.taken| then m
    else if m.taken[i].tag == p then
      DeallocateWhole(m, i, lo, hi);
      DeallocateExact(m, p, m.taken[i].start, m.taken[i].size, lo, hi);
      Teardown(Deallocate(m, p, m.taken[i].start, m.taken[i].size).value, p, 0, lo, hi)
    else Teardown(m, p, i + 1, lo, hi)
  }

  /** Exactly the bytes of p changed hands: they are free now. */
  ghost predicate GivenUp(m: Memory, m': Memory, p: Owner) {
    && (forall a :: OwnerAt(m'.taken, a) == if OwnerAt(m.taken, a) == Some(p) then None else OwnerAt(m.taken, a))
    && (forall a :: OwnerAt(m'.free, a) == if OwnerAt(m.taken, a) == Some(p) then Some(Nobody) else OwnerAt(m.free, a))
  }

  /** Teardown ends with no block of the dead process, and every other owner keeps exactly its bytes. */
  lemma {:induction false} TeardownExact(m: Memory, p: Owner, i: nat, lo: nat, hi: nat)
    requires Tiles(m, lo, hi) && i <= |m.taken|
    requires forall j | 0 <= j < i :: m.taken[j].tag != p
    ensures var m' := Teardown(m, p, i, lo, hi);
            && Tiles(m', lo, hi) && TotalSize(m') == TotalSize(m) && GivenUp(m, m', p)
            && forall b | b in m'.taken :: b.tag != p
    decreases |m.taken|, |m.taken| - i
  {
    if i == |m.taken| {
      NoneLeft(m, p);
    } else if m.taken[i].tag == p {
      var m1 := Deallocate(m, p, m.taken[i].start, m.taken[i].size).value;
      FreeOwnBlock(m, p, i, lo, hi);
      hide Deallocate, Tiles, OwnerAt, TotalSize, GivenUp;
      TeardownExact(m1, p, 0, lo, hi);
      StillGivenUp(m, m1, Teardown(m1, p, 0, lo, hi), p);
    } else {
      TeardownExact(m, p, i + 1, lo, hi);
    }
  }

  /** One free of the loop hands only bytes of p to the free list. */
  ghost predicate GaveSome(m: Memory, m1: Memory, p: Owner) {
    forall a :: || (OwnerAt(m1.taken, a) == OwnerAt(m.taken, a) && OwnerAt(m1.free, a) == OwnerAt(m.free, a))
                || (OwnerAt(m.taken, a) == Some(p) && OwnerAt(m1.taken, a) == None && OwnerAt(m1.free, a) == Some(Nobody))
  }

  lemma FreeOwnBlock(m: Memory, p: Owner, i: nat, lo: nat, hi: nat)
    requires Tiles(m, lo, hi) && i < |m.taken| && m.taken[i].tag == p
    ensures var b := m.taken[i];
            var r := Deallocate(m, p, b.start, b.size);
            && r.Ok? && Tiles(r.value, lo, hi) && TotalSize(r.value) == TotalSize(m)
            && |r.value.taken| < |m.taken| && GaveSome(m, r.value, p)
  {
    var b := m.taken[i];
    assert b.size > 0;
    hide Tiles, OwnerAt, Deallocate, TotalSize, Ordered;
    DeallocateWhole(m, i, lo, hi);
    DeallocateExact(m, p, b.start, b.size, lo, hi);
    BlockHeld(m, i, lo, hi);
  }

  lemma StillGivenUp(m: Memory, m1: Memory, m2: Memory, p: Owner)
    requires GaveSome(m, m1, p) && GivenUp(m1, m2, p)
    ensures GivenUp(m, m2, p)
  {
    hide OwnerAt;
  }

  lemma NoneLeft(m: Memory, p: Owner)
    requires forall j | 0 <= j < |m.taken| :: m.taken[j].tag != p
    ensures GivenUp(m, m, p)
  {
    forall a
      ensures OwnerAt(m.taken, a) != Some(p)
    {
      if OwnerAt(m.taken, a).Some? {
        var i := OwnerAtWitness(m.taken, a);
      }
    }
  }

  // ---------------------------------------------------------------------------
  // The manager object
  // ---------------------------------------------------------------------------

  class MemoryManager {
    var regionStart: nat
    var regionSize: nat
    var free: seq<Owned>
    var taken: seq<Owned>

    ghost function View(): Memory
      reads this
    {
      Memory(free, taken)
    }

    ghost predicate Valid()
      reads this
    {
      Tiles(View(), regionStart, regionStart + regionSize)
    }

    constructor (start: nat, size: nat)
      requires size > 0
      ensures Valid() && regionStart == start && regionSize == size && View() == Create(start, size)
    {
      regionStart, regionSize := start, size;
      free, taken := [Block(start, size, Nobody)], [];
      new;
      CreateTiles(start, size);
    }

    /** First fit; hands out the lowest long enough run, see AllocateExact. */
    method AllocateBlock(owner: Owner, size: nat) returns (addr: Option<nat>)
      modifies this`free, this`taken
      ensures (addr, View()) == Allocate(old(View()), owner, size)
      ensures old(Valid()) && size > 0 && owner != Nobody ==> Valid()
    {
      hide Tiles, Carve, CoalesceBoth;
      if size > 0 && owner != Nobody && Valid() {
        AllocateTiles(View(), owner, size, regionStart, regionStart + regionSize);
      }
      var i := 0;
      while i < |free|
        invariant i <= |free| && free == old(free) && taken == old(taken)
        invariant FirstFit(free, size) == i + FirstFit(free[i..], size)
      {
        assert free[i..][1..] == free[i + 1..];
        if free[i].size >= size {
          addr := Some(free[i].start);
          TakeFrom(i, owner, size);
          return;
        }
        i := i + 1;
      }
      addr := None;
    }

    /** Declares the first bytes of free block i taken. */
    method TakeFrom(i: nat, owner: Owner, size: nat)
      requires i < |free| && free[i].size >= size
      modifies this`free, this`taken
      ensures View() == CoalesceBoth(Carve(old(View()), i, owner, size))
    {
      hide Erase, Insert, Coalesce;
      var b := free[i];
      free := Erase(free, i);
      taken := Insert(taken, Block(b.start, size, owner));
      if b.size != size {
        free := Insert(free, Block(b.start + size, b.size - size, Nobody));
      }
      free := Defragment(free);
      taken := Defragment(taken);
    }

    method DeallocateBlock(owner: Owner, start: nat, size: nat) returns (report: Option<Fault>)
      modifies this`free, this`taken
      ensures var r := Deallocate(old(View()), owner, start, size);
              if r.Ok? then report == None && View() == r.value
              else report == Some(r.fault) && View() == old(View())
      ensures old(Valid()) && size > 0 ==> Valid()
    {
      hide Erase, Insert, Coalesce, Tiles;
      if size > 0 && Valid() {
        DeallocateTiles(View(), owner, start, size, regionStart, regionStart + regionSize);
      }
      var i := 0;
      while i < |taken|
        invariant i <= |taken| && free == old(free) && taken == old(taken)
        invariant Containing(taken, start) == i + Containing(taken[i..], start)
      {
        var b := taken[i];
        assert taken[i..][1..] == taken[i + 1..];
        if b.Has(start) {
          if b.tag != owner {
            return Some(WrongOwner);
          }
          if b.End() < start + size {
            return Some(SizeTooLarge);
          }
          var rest := Erase(taken, i);
          free := Insert(free, Block(start, size, Nobody));
          if b.start < start {
            rest := Insert(rest, Block(b.start, start - b.start, owner));
          }
          if b.End() > start + size {
            rest := Insert(rest, Block(start + size, b.End() - start - size, owner));
          }
          free := Defragment(free);
          taken := Defragment(rest);
          return None;
        }
        i := i + 1;
      }
      report := Some(NoSuitableBlock);
    }

    method TransferOwnership(owner: Owner, newOwner: Owner, start: nat, size: nat) returns (report: Option<Fault>)
      modifies this`taken
      ensures var r := Transfer(old(View()), owner, newOwner, start, size);
              if r.Ok? then report == None && View() == r.value
              else report == Some(r.fault) && View() == old(View())
      ensures old(Valid()) && size > 0 && newOwner != Nobody ==> Valid()
    {
      hide Tiles, Reassigned, Coalesce, Enclosing;
      if size > 0 && newOwner != Nobody && Valid() {
        TransferTiles(View(), owner, newOwner, start, size, regionStart, regionStart + regionSize);
      }
      var i := FindEnclosing(start, size);
      if i == |taken| {
        return Some(NoSuitableBlock);
      }
      if taken[i].tag != owner {
        return Some(WrongOwner);
      }
      Reassign(i, start, size, owner, newOwner);
      report := None;
    }

    method FindEnclosing(start: nat, size: nat) returns (i: nat)
      ensures i == Enclosing(taken, start, size)
    {
      i := 0;
      while i < |taken| && !(taken[i].start <= start && start + size <= taken[i].End())
        invariant i <= |taken| && Enclosing(taken, start, size) == i + Enclosing(taken[i..], start, size)
      {
        assert taken[i..][1..] == taken[i + 1..];
        i := i + 1;
      }
    }

    /** Hands part of taken block i to a new owner. */
    method Reassign(i: nat, start: nat, size: nat, owner: Owner, newOwner: Owner)
      requires i < |taken| && taken[i].start <= start && start + size <= taken[i].End()
      modifies this`taken
      ensures taken == Coalesce(Reassigned(old(taken), i, start, size, owner, newOwner))
    {
      hide Erase, Insert, Coalesce;
      var b := taken[i];
      taken := Erase(taken, i);
      taken := Insert(taken, Block(start, size, newOwner));
      if b.start < start {
        taken := Insert(taken, Block(b.start, start - b.start, owner));
      }
      if b.End() > start + size {
        taken := Insert(taken, Block(start + size, b.End() - start - size, owner));
      }
      taken := Defragment(taken);
    }

    /** Frees everything p holds, restarting from the first block after each free. */
    method ReleaseAll(p: Owner)
      requires Valid()
      modifies this`free, this`taken
      ensures Valid() && GivenUp(old(View()), View(), p)
      ensures TotalSize(View()) == TotalSize(old(View()))
      ensures forall b | b in taken :: b.tag != p
    {
      hide Tiles, GivenUp, TotalSize, Deallocate;
      ghost var lo, hi := regionStart, regionStart + regionSize;
      TeardownExact(View(), p, 0, lo, hi);
      var i := 0;
      while i < |taken|
        invariant Valid() && i <= |taken| && lo == regionStart && hi == regionStart + regionSize
        invariant Teardown(View(), p, i, lo, hi) == Teardown(old(View()), p, 0, lo, hi)
        decreases |taken|, |taken| - i
      {
        if taken[i].tag == p {
          BlockHeld(View(), i, lo, hi);
          DeallocateWhole(View(), i, lo, hi);
          DeallocateExact(View(), p, taken[i].start, taken[i].size, lo, hi);
          var report := DeallocateBlock(p, taken[i].start, taken[i].size);
          i := 0;
        } else {
          i := i + 1;
        }
      }
    }

    method Size() returns (n: nat)
      ensures n == TotalSize(View())
    {
      n := 0;
      var i := 0;
      while i < |taken|
        invariant i <= |taken| && n + Total(taken[i..]) == Total(taken)
      {
        assert taken[i..][1..] == taken[i + 1..];
        n := n + taken[i].size;
        i := i + 1;
      }
      i := 0;
      while i < |free|
        invariant i <= |free| && n + Total(free[i..]) == Total(taken) + Total(free)
      {
        assert free[i..][1..] == free[i + 1..];
        n := n + free[i].size;
        i := i + 1;
      }
    }
  }
}
