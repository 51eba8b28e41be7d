/**
  Process::virtual_memory: an interval map from virtual to physical addresses,
  and the operations of Process on it. `Translate` is the plain partial
  function that the map stands for.
 */
module AddressSpace {
  import opened Options
  import opened Intervals

  function Least(a: nat, b: nat): nat {
    if a < b then a else b
  }

  datatype Permissions = Nothing | Read | Write | ReadWrite | Exec | ReadExec

  datatype Frame = Frame(phys: nat, perms: Permissions)

  type Mapping = Block<Frame>
  type Space = seq<Mapping>

  /** Physical address and permissions of the byte at virtual address a. */
  ghost function Translate(vm: Space, a: int): Option<(nat, Permissions)> {
    var b := At(vm, a);
    if b.None? then None else Some((Through(b.value, a), b.value.tag.perms))
  }

  /** Where block b takes address a. */
  function Through(b: Mapping, a: int): nat {
    if a < b.start then b.tag.phys else b.tag.phys + (a - b.start)
  }

  ghost predicate Unmapped(vm: Space, v: nat, size: nat) {
    forall a | v <= a < v + size :: Translate(vm, a) == None
  }

  ghost predicate FullyMapped(vm: Space, v: nat, size: nat) {
    forall a | v <= a < v + size :: Translate(vm, a).Some?
  }

  /** Two maps that stand for the same partial function. */
  ghost predicate Same(vm: Space, vm': Space) {
    forall a :: Translate(vm', a) == Translate(vm, a)
  }

  /** vm' is vm without the bytes [v, v + size). */
  ghost predicate Without(vm: Space, vm': Space, v: nat, size: int) {
    forall a :: Translate(vm', a) == if v <= a < v + size then None else Translate(vm, a)
  }

  /** vm' is vm with [v, v + size) taken to physical memory from phys on. */
  ghost predicate With(vm: Space, vm': Space, v: nat, size: nat, phys: nat, perms: Permissions) {
    forall a :: Translate(vm', a) == if v <= a < v + size then Some((phys + (a - v), perms)) else Translate(vm, a)
  }

  // ---------------------------------------------------------------------------
  // Operations
  // ---------------------------------------------------------------------------

  /** std::map::upper_bound: position of the first block that starts after a. */
  function UpperBound(vm: Space, a: nat): (i: nat)
    ensures i <= |vm|
    ensures i < |vm| ==> a < vm[i].start
    ensures forall j | 0 <= j < i :: vm[j].start <= a
  {
    if vm == [] || a < vm[0].start then 0 else 1 + UpperBound(vm[1..], a)
  }

  /** std::map::lower_bound: position of the first block that starts at or after a. */
  function LowerBound(vm: Space, a: nat): (i: nat)
    ensures i <= |vm|
    ensures i < |vm| ==> a <= vm[i].start
    ensures forall j | 0 <= j < i :: vm[j].start < a
  {
    if vm == [] || a <= vm[0].start then 0 else 1 + LowerBound(vm[1..], a)
  }

  datatype Report =
    | Success           // the call returned true
    | Refusal           // the call returned false
    | ZeroSize          // error: the size was zero
    | ContractViolated  // a contract check failed

  /** MapVirtualMemory. */
  function Map(vm: Space, phys: nat, size: nat, v: nat, perms: Permissions): (Report, Space) {
    var i := LowerBound(vm, v);
    if size == 0 then (ZeroSize, vm)
    else if i < |vm| && vm[i].start < v + size then (Refusal, vm)
    else if i > 0 && vm[i - 1].End() > v then (Refusal, vm)
    else (Success, Insert(vm, Block(v, size, Frame(phys, perms))))
  }

  /** The chunk that UnmapVirtualMemory works on first. */
  function Found(vm: Space, v: nat, size: nat): (i: nat)
    ensures i <= |vm|
    ensures i < |vm| ==> vm[i].End() > v
  {
    var i := UpperBound(vm, v);
    if i > 0 && vm[i - 1].End() > v && vm[i - 1].start < v + size then i - 1 else i
  }

  /** The part of chunk c from v on. */
  function Tail(c: Mapping, v: nat): Mapping
    requires v < c.End()
  {
    if c.start < v then Block(v, c.End() - v, Frame(c.tag.phys + (v - c.start), c.tag.perms)) else c
  }

  /** The map after the chunk at i was erased and its remainders were put back. */
  function Cut(vm: Space, i: nat, v: nat, size: nat): (r: Space)
    requires i < |vm| && v < vm[i].End()
    ensures vm[i].start >= v && Tail(vm[i], v).size <= size ==> |r| < |vm|
  {
    var c := vm[i];
    var t := Tail(c, v);
    var vm1 := Erase(vm, i);
    var vm2 := if c.start < v then Insert(vm1, Block(c.start, v - c.start, c.tag)) else vm1;
    if t.size > size
    then Insert(vm2, Block(v + size, t.size - size, Frame(t.tag.phys + size, t.tag.perms)))
    else vm2
  }

  /** UnmapVirtualMemory: one chunk after the other. */
  function Unmap(vm: Space, v: nat, size: nat): (Report, Space)
    decreases size, |vm|
  {
    var i := Found(vm, v, size);
    if size == 0 then (ZeroSize, vm)
    else if i == |vm| || vm[i].start > v + size then (Refusal, vm)
    else if vm[i].start == v + size then (ContractViolated, vm)
    else
      var n := Tail(vm[i], v).size;
      var vm1 := Cut(vm, i, v, size);
      if size > n then Unmap(vm1, v + n, size - n) else (Success, vm1)
  }

  /** ResolveVirtualAddrWithSize: the physical address, and how far the chunk goes on from there. */
  function ResolveWithSize(vm: Space, a: nat): (r: Option<(nat, nat)>)
    ensures r.Some? ==> r.value.1 > 0
  {
    var i := UpperBound(vm, a);
    if i == 0 then None
    else
      var b := vm[i - 1];
      if b.End() <= a then None else Some((b.tag.phys + (a - b.start), b.size - (a - b.start)))
  }

  /** ResolveVirtualAddr. */
  function Resolve(vm: Space, a: nat): Option<nat> {
    var r := ResolveWithSize(vm, a);
    if r.None? then None else Some(r.value.0)
  }

  /** The candidate after looking at all mappings from position i on. */
  function Candidate(vm: Space, size: nat, from: nat): nat {
    if vm == [] then from
    else if vm[0].End() < from then Candidate(vm[1..], size, from)
    else if vm[0].start < from + size then Candidate(vm[1..], size, vm[0].End())
    else from
  }

  /** FindAvailableVirtualMemory. */
  function FindAvailable(vm: Space, size: nat, lo: nat, hi: nat): Option<nat> {
    var c := Candidate(vm, size, lo);
    if c + size > hi then None else Some(c)
  }

  // ---------------------------------------------------------------------------
  // Looking up
  // ---------------------------------------------------------------------------

  lemma TranslateOf(vm: Space, i: nat, a: int)
    requires Ordered(vm) && i < |vm| && vm[i].Has(a)
    ensures Translate(vm, a) == Some((Through(vm[i], a), vm[i].tag.perms))
  {
    AtOf(vm, i, a);
  }

  /** A mapped byte is in the last block that starts at or before it. */
  lemma MappedIn(vm: Space, a: nat)
    requires Ordered(vm)
    ensures var i := UpperBound(vm, a);
            Translate(vm, a).Some? <==> i > 0 && vm[i - 1].Has(a)
  {
    var i := UpperBound(vm, a);
    if Translate(vm, a).Some? {
      var j := AtWitness(vm, a);
    } else if i > 0 && vm[i - 1].Has(a) {
      TranslateOf(vm, i - 1, a);
      assert false;
    }
  }

  /** Resolving agrees with the translation, and the reported chunk is contiguous. */
  lemma ResolveExact(vm: Space, a: nat)
    requires Ordered(vm)
    ensures Resolve(vm, a).Some? <==> Translate(vm, a).Some?
    ensures ResolveWithSize(vm, a).Some? ==>
              var (p, n) := ResolveWithSize(vm, a).value;
              && n > 0 && Resolve(vm, a) == Some(p) && Translate(vm, a).Some? && Translate(vm, a).value.0 == p
              && forall x | a <= x < a + n :: Translate(vm, x) == Some((p + (x - a), Translate(vm, a).value.1))
  {
    MappedIn(vm, a);
    var i := UpperBound(vm, a);
    if i > 0 && vm[i - 1].Has(a) {
      var b := vm[i - 1];
      forall x | a <= x < b.End()
        ensures Translate(vm, x) == Some((b.tag.phys + (x - b.start), b.tag.perms))
      {
        TranslateOf(vm, i - 1, x);
      }
      TranslateOf(vm, i - 1, a);
    }
  }

  // ---------------------------------------------------------------------------
  // Mapping
  // ---------------------------------------------------------------------------

  /** Mapping succeeds exactly if the whole range was free, and then adds exactly that range. */
  lemma MapExact(vm: Space, phys: nat, size: nat, v: nat, perms: Permissions)
    requires Ordered(vm)
    ensures var (r, vm') := Map(vm, phys, size, v, perms);
            && (r == ZeroSize <==> size == 0)
            && (r == Success <==> size > 0 && Unmapped(vm, v, size))
            && (r == Success ==> Ordered(vm') && With(vm, vm', v, size, phys, perms))
            && (r != Success ==> vm' == vm)
  {
    var b := Block(v, size, Frame(phys, perms));
    var i := LowerBound(vm, v);
    if size > 0 {
      if i < |vm| && vm[i].start < v + size {
        TranslateOf(vm, i, vm[i].start);
      } else if i > 0 && vm[i - 1].End() > v {
        TranslateOf(vm, i - 1, v);
      } else {
        FitsClear(vm, b, i);
        InsertedTranslation(vm, b);
        hide Ordered;
        ClearIsUnmapped(vm, b);
      }
    }
  }

  lemma FitsClear(vm: Space, b: Mapping, i: nat)
    requires Ordered(vm) && i <= |vm|
    requires i < |vm| ==> b.End() <= vm[i].start
    requires i > 0 ==> vm[i - 1].End() <= b.start
    ensures ClearOf(vm, b)
  {
    forall j | 0 <= j < |vm|
      ensures vm[j].End() <= b.start || b.End() <= vm[j].start
    {
      if j < i {
        assert j < i - 1 ==> vm[j].End() <= vm[i - 1].start;
      } else {
        assert i < j ==> vm[i].End() <= vm[j].start;
      }
    }
  }

  lemma InsertedTranslation(vm: Space, b: Mapping)
    requires Ordered(vm) && ClearOf(vm, b) && b.size > 0
    ensures Ordered(Insert(vm, b)) && With(vm, Insert(vm, b), b.start, b.size, b.tag.phys, b.tag.perms)
  {
    hide Ordered, ClearOf, Insert, At;
    InsertExact(vm, b);
  }

  lemma ClearIsUnmapped(vm: Space, b: Mapping)
    requires ClearOf(vm, b)
    ensures Unmapped(vm, b.start, b.size)
  {
    forall a | b.Has(a)
      ensures Translate(vm, a) == None
    {
      if At(vm, a).Some? {
        var j := AtWitness(vm, a);
        assert false;
      }
    }
  }

  // ---------------------------------------------------------------------------
  // Unmapping
  // ---------------------------------------------------------------------------

  /** The chunk found for v, in terms of the translation: it has v, or v is not mapped and it is
      the first one after v; without a chunk nothing is mapped from v on. */
  lemma FoundMeans(vm: Space, v: nat, size: nat)
    requires Ordered(vm) && size > 0
    ensures var i := Found(vm, v, size);
            && (Translate(vm, v).Some? <==> i < |vm| && vm[i].start <= v)
            && (forall a | v <= a :: (i < |vm| ==> a < vm[i].start) ==> Translate(vm, a) == None)
  {
    MappedIn(vm, v);
    var i := Found(vm, v, size);
    forall a | v <= a && (i < |vm| ==> a < vm[i].start)
      ensures Translate(vm, a) == None
    {
      if At(vm, a).Some? {
        var j := AtWitness(vm, a);
        assert false;
      }
    }
  }

  /** Putting a remainder back, unless it is empty. */
  lemma PutBack(rest: Space, b: Mapping, other: Mapping)
    requires Ordered(rest) && ClearOf(rest, b) && ClearOf(rest, other)
    requires b.End() <= other.start || other.End() <= b.start
    ensures var r := if b.size > 0 then Insert(rest, b) else rest;
            && Ordered(r) && ClearOf(r, other) && With(rest, r, b.start, b.size, b.tag.phys, b.tag.perms)
  {
    if b.size > 0 {
      InsertedTranslation(rest, b);
      InsertClear(rest, b, other);
    }
  }

  /** One round takes out exactly the bytes from v to the end of the chunk or of the range if
      the chunk has v; a chunk behind v that ends in the range is taken out as a whole. */
  lemma CutExact(vm: Space, i: nat, v: nat, size: nat)
    requires Ordered(vm) && i < |vm| && size > 0 && v < vm[i].End()
    requires vm[i].start <= v || Tail(vm[i], v).size <= size
    ensures var n := Tail(vm[i], v).size;
            var first := if vm[i].start < v then v else vm[i].start;
            Ordered(Cut(vm, i, v, size)) && Without(vm, Cut(vm, i, v, size), first, if n <= size then n else size)
  {
    if vm[i].start <= v {
      CutInside(vm, i, v, size);
    } else {
      EraseTranslation(vm, i);
    }
  }

  lemma CutInside(vm: Space, i: nat, v: nat, size: nat)
    requires Ordered(vm) && i < |vm| && size > 0 && vm[i].start <= v < vm[i].End()
    ensures var n := vm[i].End() - v;
            Ordered(Cut(vm, i, v, size)) && Without(vm, Cut(vm, i, v, size), v, if n <= size then n else size)
  {
    hide Ordered, ClearOf, Cut, Insert, Erase, Translate, With, Without;
    var c := vm[i];
    var n := c.End() - v;
    var gone := if n <= size then n else size;
    var left := Block(c.start, v - c.start, c.tag);
    var right := Block(v + gone, n - gone, Frame(c.tag.phys + (v + gone - c.start), c.tag.perms));
    CutIs(vm, i, v, size, gone, left, right);
    EraseTranslation(vm, i);
    ErasedIsClear(vm, i, left);
    ErasedIsClear(vm, i, right);
    ChunkTranslation(vm, i);
    var rest := Erase(vm, i);
    PutBack(rest, left, right);
    var rest1 := if left.size > 0 then Insert(rest, left) else rest;
    AddBack(rest1, right);
    Recombine(vm, rest, rest1, Cut(vm, i, v, size), c, v, gone);
  }

  lemma ChunkTranslation(vm: Space, i: nat)
    requires Ordered(vm) && i < |vm|
    ensures forall a | vm[i].Has(a) ::
              Translate(vm, a) == Some((vm[i].tag.phys + (a - vm[i].start), vm[i].tag.perms))
  {
    forall a | vm[i].Has(a)
      ensures Translate(vm, a) == Some((vm[i].tag.phys + (a - vm[i].start), vm[i].tag.perms))
    {
      TranslateOf(vm, i, a);
    }
  }

  /** Taking chunk c out and putting its ends back leaves a hole of `gone` bytes at v. */
  lemma Recombine(vm: Space, rest: Space, rest1: Space, cut: Space, c: Mapping, v: nat, gone: nat)
    requires c.start <= v && v + gone <= c.End()
    requires forall a | c.Has(a) :: Translate(vm, a) == Some((c.tag.phys + (a - c.start), c.tag.perms))
    requires Without(vm, rest, c.start, c.size)
    requires With(rest, rest1, c.start, v - c.start, c.tag.phys, c.tag.perms)
    requires With(rest1, cut, v + gone, c.End() - v - gone, c.tag.phys + (v + gone - c.start), c.tag.perms)
    ensures Without(vm, cut, v, gone)
  {
    hide Translate;
  }

  lemma CutIs(vm: Space, i: nat, v: nat, size: nat, gone: nat, left: Mapping, right: Mapping)
    requires i < |vm| && vm[i].start <= v < vm[i].End()
    requires gone == if vm[i].End() - v <= size then vm[i].End() - v else size
    requires left == Block(vm[i].start, v - vm[i].start, vm[i].tag)
    requires right == Block(v + gone, vm[i].End() - v - gone,
                            Frame(vm[i].tag.phys + (v + gone - vm[i].start), vm[i].tag.perms))
    ensures var rest1 := if left.size > 0 then Insert(Erase(vm, i), left) else Erase(vm, i);
            Cut(vm, i, v, size) == if right.size > 0 then Insert(rest1, right) else rest1
  {
    hide Insert, Erase;
  }

  lemma AddBack(rest: Space, b: Mapping)
    requires Ordered(rest) && ClearOf(rest, b)
    ensures var r := if b.size > 0 then Insert(rest, b) else rest;
            Ordered(r) && With(rest, r, b.start, b.size, b.tag.phys, b.tag.perms)
  {
    if b.size > 0 {
      InsertedTranslation(rest, b);
    }
  }

  lemma EraseTranslation(vm: Space, i: nat)
    requires Ordered(vm) && i < |vm|
    ensures Ordered(Erase(vm, i)) && Without(vm, Erase(vm, i), vm[i].start, vm[i].size)
  {
    hide Ordered, Erase, At;
    EraseExact(vm, i);
  }

  /** One round, and what is left to do after it. */
  lemma UnmapRound(vm: Space, v: nat, size: nat)
    requires size > 0 && Found(vm, v, size) < |vm| && vm[Found(vm, v, size)].start < v + size
    ensures var i := Found(vm, v, size);
            var n := Tail(vm[i], v).size;
            Unmap(vm, v, size)
            == if size > n then Unmap(Cut(vm, i, v, size), v + n, size - n) else (Success, Cut(vm, i, v, size))
  {
  }

  /** What a caller expects of unmapping: exactly the range is gone, and the answer says whether
      all of it had been mapped. */
  ghost predicate UnmapsExactly(vm: Space, v: nat, size: nat) {
    var (r, vm') := Unmap(vm, v, size);
    && r == (if FullyMapped(vm, v, size) then Success else Refusal)
    && Ordered(vm') && Without(vm, vm', v, size)
  }

  /** Taking out mapped bytes only from the front of a range leaves the rest of it as it was. */
  lemma FrontRemoved(vm: Space, vm1: Space, v: nat, n: nat, size: nat)
    requires n <= size && Without(vm, vm1, v, n) && FullyMapped(vm, v, n)
    ensures FullyMapped(vm, v, size) <==> FullyMapped(vm1, v + n, size - n)
    ensures Translate(vm1, v + size) == Translate(vm, v + size)
  {
    if FullyMapped(vm1, v + n, size - n) {
      forall a | v <= a < v + size
        ensures Translate(vm, a).Some?
      {
        assert v + n <= a ==> Translate(vm1, a).Some?;
      }
    }
  }

  lemma ChunkMapped(vm: Space, i: nat, v: nat, n: nat)
    requires Ordered(vm) && i < |vm| && vm[i].start <= v && v + n <= vm[i].End()
    ensures FullyMapped(vm, v, n)
  {
    forall a | v <= a < v + n
      ensures Translate(vm, a).Some?
    {
      TranslateOf(vm, i, a);
    }
  }

  lemma WithoutTwice(vm: Space, vm1: Space, vm2: Space, v: nat, n: nat, size: nat)
    requires n <= size && Without(vm, vm1, v, n) && Without(vm1, vm2, v + n, size - n)
    ensures Without(vm, vm2, v, size)
  {
  }

  /** A range that is mapped throughout, or not followed by a mapped byte, is unmapped exactly. */
  lemma {:induction false} UnmapsExactlyIf(vm: Space, v: nat, size: nat)
    requires Ordered(vm) && size > 0
    requires FullyMapped(vm, v, size) || Translate(vm, v + size) == None
    ensures UnmapsExactly(vm, v, size)
    decreases size, |vm|
  {
    var i := Found(vm, v, size);
    FoundMeans(vm, v, size);
    if i == |vm| || vm[i].start > v + size {
      assert Translate(vm, v) == None;
    } else {
      if vm[i].start <= v + size < vm[i].End() {
        TranslateOf(vm, i, v + size);
      }
      if vm[i].start <= v {
        UnmapFront(vm, v, size, i);
      } else {
        assert Translate(vm, v) == None;
        UnmapBehindGap(vm, v, size, i);
      }
    }
  }

  /** The chunk has v. */
  lemma {:induction false} UnmapFront(vm: Space, v: nat, size: nat, i: nat)
    requires Ordered(vm) && size > 0 && i == Found(vm, v, size) < |vm| && vm[i].start <= v
    requires FullyMapped(vm, v, size) || Translate(vm, v + size) == None
    ensures UnmapsExactly(vm, v, size)
    decreases size, |vm|, 0
  {
    hide Unmap, Cut, Translate, Found;
    var n := Tail(vm[i], v).size;
    var vm1 := Cut(vm, i, v, size);
    CutExact(vm, i, v, size);
    UnmapRound(vm, v, size);
    if n >= size {
      ChunkMapped(vm, i, v, size);
    } else {
      ChunkMapped(vm, i, v, n);
      hide Ordered;
      FrontRemoved(vm, vm1, v, n, size);
      UnmapsExactlyIf(vm1, v + n, size - n);
      WithoutTwice(vm, vm1, Unmap(vm1, v + n, size - n).1, v, n, size);
    }
  }

  /** v is not mapped; the chunk starts behind v and ends in the range. */
  lemma {:induction false} UnmapBehindGap(vm: Space, v: nat, size: nat, i: nat)
    requires Ordered(vm) && size > 0 && i == Found(vm, v, size) < |vm|
    requires v < vm[i].start < v + size && vm[i].End() <= v + size && Translate(vm, v + size) == None
    ensures UnmapsExactly(vm, v, size)
    decreases size, |vm|, 0
  {
    hide Unmap, Cut, Translate, Found;
    var n := vm[i].size;
    var vm1 := Cut(vm, i, v, size);
    FoundMeans(vm, v, size);
    CutExact(vm, i, v, size);
    UnmapRound(vm, v, size);
    assert n > 0;
    hide Ordered;
    assert Without(vm, vm1, v, vm[i].End() - v);
    var next := v + n;
    assert !FullyMapped(vm1, next, size - n) by { assert Translate(vm1, next) == None; }
    assert !FullyMapped(vm, v, size) by { assert Translate(vm, v) == None; }
    UnmapsExactlyIf(vm1, next, size - n);
  }

  /** A range with a hole that is followed by a mapped byte: the call fails its own contract, or
      it changes the byte behind the range. */
  lemma {:induction false} UnmapGoesWrong(vm: Space, v: nat, size: nat)
    requires Ordered(vm) && size > 0
    requires !FullyMapped(vm, v, size) && Translate(vm, v + size).Some?
    ensures var (r, vm') := Unmap(vm, v, size);
            r == ContractViolated || Translate(vm', v + size) != Translate(vm, v + size)
    decreases size, |vm|
  {
    var i := Found(vm, v, size);
    FoundMeans(vm, v, size);
    if vm[i].start < v + size {
      if vm[i].start <= v {
        WrongFront(vm, v, size, i);
      } else if vm[i].End() <= v + size {
        WrongBehindGap(vm, v, size, i);
      } else {
        WrongAtEnd(vm, v, size, i);
      }
    }
  }

  lemma {:induction false} WrongFront(vm: Space, v: nat, size: nat, i: nat)
    requires Ordered(vm) && size > 0 && i == Found(vm, v, size) < |vm| && vm[i].start <= v
    requires !FullyMapped(vm, v, size) && Translate(vm, v + size).Some?
    ensures var (r, vm') := Unmap(vm, v, size);
            r == ContractViolated || Translate(vm', v + size) != Translate(vm, v + size)
    decreases size, |vm|, 0
  {
    hide Unmap, Cut, Translate, Found;
    var n := Tail(vm[i], v).size;
    var vm1 := Cut(vm, i, v, size);
    CutExact(vm, i, v, size);
    UnmapRound(vm, v, size);
    if n >= size {
      ChunkMapped(vm, i, v, size);
      assert false;
    } else {
      ChunkMapped(vm, i, v, n);
      hide Ordered;
      FrontRemoved(vm, vm1, v, n, size);
      UnmapGoesWrong(vm1, v + n, size - n);
    }
  }

  lemma {:induction false} WrongBehindGap(vm: Space, v: nat, size: nat, i: nat)
    requires Ordered(vm) && size > 0 && i == Found(vm, v, size) < |vm|
    requires v < vm[i].start && vm[i].End() <= v + size && Translate(vm, v + size).Some?
    ensures var (r, vm') := Unmap(vm, v, size);
            r == ContractViolated || Translate(vm', v + size) != Translate(vm, v + size)
    decreases size, |vm|, 0
  {
    hide Unmap, Cut, Translate, Found;
    var n := vm[i].size;
    var vm1 := Cut(vm, i, v, size);
    FoundMeans(vm, v, size);
    CutExact(vm, i, v, size);
    UnmapRound(vm, v, size);
    assert n > 0;
    hide Ordered;
    assert Without(vm, vm1, v, vm[i].End() - v);
    var next := v + n;
    assert !FullyMapped(vm1, next, size - n) by { assert Translate(vm1, next) == None; }
    UnmapGoesWrong(vm1, next, size - n);
  }

  /** The chunk starts behind v and has the byte at v + size. */
  lemma WrongAtEnd(vm: Space, v: nat, size: nat, i: nat)
    requires Ordered(vm) && size > 0 && i == Found(vm, v, size) < |vm|
    requires v < vm[i].start < v + size < vm[i].End()
    ensures Translate(Unmap(vm, v, size).1, v + size) != Translate(vm, v + size)
  {
    hide Unmap, Found;
    var c := vm[i];
    var end := v + size;
    TranslateOf(vm, i, end);
    var vm1 := Cut(vm, i, v, size);
    UnmapRound(vm, v, size);
    if c.size <= size {
      hide Cut, Ordered, Translate;
      CutExact(vm, i, v, size);
      assert Translate(vm1, end) == None;
      if c.size < size {
        UnmapsExactlyIf(vm1, v + c.size, size - c.size);
      }
    } else {
      var right := Block(end, c.size - size, Frame(c.tag.phys + size, c.tag.perms));
      OverlongRemainder(vm, i, right);
      hide Ordered, Erase, Insert, Translate;
      EraseTranslation(vm, i);
      InsertedTranslation(Erase(vm, i), right);
    }
  }

  /** The wrongly placed remainder still lies in the erased chunk. */
  lemma OverlongRemainder(vm: Space, i: nat, right: Mapping)
    requires Ordered(vm) && i < |vm| && vm[i].start < right.start && right.End() < vm[i].End()
    ensures ClearOf(Erase(vm, i), right)
  {
    ErasedIsClear(vm, i, right);
  }

  /** Unmapping does what a caller expects exactly if the range is mapped throughout, or the byte
      behind the range is not mapped. */
  lemma UnmapExact(vm: Space, v: nat, size: nat)
    requires Ordered(vm) && size > 0
    ensures UnmapsExactly(vm, v, size) <==> FullyMapped(vm, v, size) || Translate(vm, v + size) == None
  {
    if FullyMapped(vm, v, size) || Translate(vm, v + size) == None {
      UnmapsExactlyIf(vm, v, size);
    } else {
      UnmapGoesWrong(vm, v, size);
    }
  }

  /** A hole in front of a mapping that the range cuts through: unmapping the two pages at 0
      moves the second half of the mapping to other physical memory. */
  lemma UnmapMovesNeighbour(perms: Permissions)
    ensures var vm := [Block(0x1000, 0x3000, Frame(0x2000_0000, perms))];
            && Unmap(vm, 0, 0x2000) == (Success, [Block(0x2000, 0x1000, Frame(0x2000_2000, perms))])
            && Translate(vm, 0x2000) == Some((0x2000_1000, perms))
            && Translate(Unmap(vm, 0, 0x2000).1, 0x2000) == Some((0x2000_2000, perms))
  {
    var vm := [Block(0x1000, 0x3000, Frame(0x2000_0000, perms))];
    assert Erase(vm, 0) == [];
    UnmapRound(vm, 0, 0x2000);
    var vm' := [Block(0x2000, 0x1000, Frame(0x2000_2000, perms))];
    assert Cut(vm, 0, 0, 0x2000) == vm';
    assert At(vm, 0x2000) == Some(vm[0]) && At(vm', 0x2000) == Some(vm'[0]);
  }

  // ---------------------------------------------------------------------------
  // What unmapping does in any case
  // ---------------------------------------------------------------------------

  /** Nothing changed below v, and nothing became mapped below `end`. */
  ghost predicate OnlyFrom(vm: Space, vm': Space, v: nat, end: nat) {
    && (forall a | a < v :: Translate(vm', a) == Translate(vm, a))
    && (forall a | a < end && Translate(vm, a) == None :: Translate(vm', a) == None)
  }

  /** The first address at or behind v that chunk c has. */
  function FirstOf(c: Mapping, v: nat): nat {
    if c.start < v then v else c.start
  }

  /** One round, also where it goes wrong: the first mapped byte of the range goes. */
  lemma CutFrame(vm: Space, i: nat, v: nat, size: nat)
    requires Ordered(vm) && i < |vm| && size > 0 && v < vm[i].End() && vm[i].start < v + size
    ensures var vm1 := Cut(vm, i, v, size);
            Ordered(vm1) && OnlyFrom(vm, vm1, v, v + size) && Translate(vm1, FirstOf(vm[i], v)) == None
  {
    hide Ordered, Cut, Translate, OnlyFrom, Without;
    var c := vm[i];
    if c.start <= v || c.size <= size {
      CutExact(vm, i, v, size);
      SizePositive(vm, i, v);
      var n := Tail(c, v).size;
      WithoutFrame(vm, Cut(vm, i, v, size), FirstOf(c, v), Least(n, size), v, v + size);
    } else {
      OverlongFrame(vm, i, v, size);
    }
  }

  lemma WithoutFrame(vm: Space, vm1: Space, first: nat, n: nat, v: nat, end: nat)
    requires Without(vm, vm1, first, n) && n > 0 && v <= first
    ensures OnlyFrom(vm, vm1, v, end) && Translate(vm1, first) == None
  {
    hide Translate;
  }

  lemma OverlongFrame(vm: Space, i: nat, v: nat, size: nat)
    requires Ordered(vm) && i < |vm| && size > 0 && v < vm[i].start < v + size && vm[i].size > size
    ensures var vm1 := Cut(vm, i, v, size);
            Ordered(vm1) && OnlyFrom(vm, vm1, v, v + size) && Translate(vm1, vm[i].start) == None
  {
    var c := vm[i];
    var right := Block(v + size, c.size - size, Frame(c.tag.phys + size, c.tag.perms));
    OverlongRemainder(vm, i, right);
    hide Ordered, Erase, Insert, Translate;
    EraseTranslation(vm, i);
    InsertedTranslation(Erase(vm, i), right);
    assert Cut(vm, i, v, size) == Insert(Erase(vm, i), right);
  }

  lemma OnlyFromTrans(vm: Space, vm1: Space, vm2: Space, v: nat, n: nat, end: nat)
    requires OnlyFrom(vm, vm1, v, end) && OnlyFrom(vm1, vm2, v + n, end)
    ensures OnlyFrom(vm, vm2, v, end)
  {
    hide Translate;
  }

  /** Whether it does what a caller expects or not, unmapping changes nothing below the range and maps
      nothing below the end of the range. */
  lemma {:induction false} UnmapFrame(vm: Space, v: nat, size: nat)
    requires Ordered(vm)
    ensures Ordered(Unmap(vm, v, size).1) && OnlyFrom(vm, Unmap(vm, v, size).1, v, v + size)
    decreases size, |vm|
  {
    hide Cut, Ordered, OnlyFrom, Translate;
    assert OnlyFrom(vm, vm, v, v + size) by { NothingDone(vm, v, v + size); }
    var i := Found(vm, v, size);
    if size > 0 && i < |vm| && vm[i].start < v + size {
      CutFrame(vm, i, v, size);
      UnmapRound(vm, v, size);
      var n := Tail(vm[i], v).size;
      if size > n {
        SizePositive(vm, i, v);
        UnmapFrame(Cut(vm, i, v, size), v + n, size - n);
        OnlyFromTrans(vm, Cut(vm, i, v, size), Unmap(Cut(vm, i, v, size), v + n, size - n).1, v, n, v + size);
      }
    }
  }

  lemma SizePositive(vm: Space, i: nat, v: nat)
    requires Ordered(vm) && i < |vm| && v < vm[i].End()
    ensures Tail(vm[i], v).size > 0
  {
  }

  lemma NothingDone(vm: Space, v: nat, end: nat)
    ensures OnlyFrom(vm, vm, v, end)
  {
  }

  /** The first mapped byte at or behind v goes if it lies in the range. */
  lemma UnmapTakesFirst(vm: Space, v: nat, size: nat)
    requires Ordered(vm) && size > 0 && Found(vm, v, size) < |vm| && vm[Found(vm, v, size)].start < v + size
    ensures Translate(Unmap(vm, v, size).1, FirstOf(vm[Found(vm, v, size)], v)) == None
  {
    hide Cut, Unmap, Translate;
    var i := Found(vm, v, size);
    var n := Tail(vm[i], v).size;
    CutFrame(vm, i, v, size);
    UnmapRound(vm, v, size);
    if size > n {
      SizePositive(vm, i, v);
      UnmapFrame(Cut(vm, i, v, size), v + n, size - n);
    }
  }

  // ---------------------------------------------------------------------------
  // Finding room, and round trips
  // ---------------------------------------------------------------------------

  /** No block reaches into [a, a + size), or for size zero over a. */
  ghost predicate Room(vm: Space, a: nat, size: nat) {
    forall i | 0 <= i < |vm| :: vm[i].End() <= a || a + size <= vm[i].start
  }

  /** For a range with bytes that means that none of them is mapped. */
  lemma RoomIsUnmapped(vm: Space, a: nat, size: nat)
    requires Ordered(vm) && size > 0
    ensures Room(vm, a, size) <==> Unmapped(vm, a, size)
  {
    var b := Block(a, size, Frame(0, Nothing));
    if Room(vm, a, size) {
      ClearIsUnmapped(vm, b);
    }
    if Unmapped(vm, a, size) {
      assert forall x | b.Has(x) :: Translate(vm, x) == None ==> At(vm, x) == None;
      UnmappedIsClear(vm, b);
    }
  }

  /** There is room at the candidate, and nowhere between `from` and it. */
  lemma {:induction false} CandidateLeast(vm: Space, size: nat, from: nat)
    requires Ordered(vm)
    ensures var c := Candidate(vm, size, from);
            && from <= c && Room(vm, c, size)
            && forall a: nat | from <= a < c :: !Room(vm, a, size)
    decreases |vm|
  {
    if vm != [] {
      var b := vm[0];
      var rest := vm[1..];
      if b.End() < from || b.start < from + size {
        var next := if b.End() < from then from else b.End();
        CandidateLeast(rest, size, next);
        var c := Candidate(rest, size, next);
        assert forall i | 0 < i < |vm| :: vm[i] == rest[i - 1];
        forall a: nat | from <= a < c
          ensures !Room(vm, a, size)
        {
          if a >= next {
            assert !Room(rest, a, size);
            var i :| 0 <= i < |rest| && !(rest[i].End() <= a || a + size <= rest[i].start);
            assert vm[i + 1] == rest[i];
          }
        }
      } else {
        assert forall i | 0 < i < |vm| :: b.End() <= vm[i].start;
      }
    }
  }

  /** The least address at or above lo where there is room below hi, or none exactly if there is no such
      address. A range with bytes is unmapped there, and mapping it succeeds. */
  lemma FindAvailableExact(vm: Space, size: nat, lo: nat, hi: nat)
    requires Ordered(vm)
    ensures var r := FindAvailable(vm, size, lo, hi);
            && (r.None? <==> forall a: nat | lo <= a && a + size <= hi :: !Room(vm, a, size))
            && (r.Some? ==>
                  && lo <= r.value && r.value + size <= hi && Room(vm, r.value, size)
                  && (forall a: nat | lo <= a < r.value :: !Room(vm, a, size))
                  && (size > 0 ==>
                        Unmapped(vm, r.value, size) && forall phys, perms :: Map(vm, phys, size, r.value, perms).0 == Success))
            && (size > 0 ==> forall a: nat :: Room(vm, a, size) <==> Unmapped(vm, a, size))
  {
    CandidateLeast(vm, size, lo);
    hide Candidate, Ordered, Unmapped, Map, Room;
    if size > 0 {
      forall a: nat
        ensures Room(vm, a, size) <==> Unmapped(vm, a, size)
      {
        RoomIsUnmapped(vm, a, size);
      }
    }
    var r := FindAvailable(vm, size, lo, hi);
    if r.Some? && size > 0 {
      forall phys, perms
        ensures Map(vm, phys, size, r.value, perms).0 == Success
      {
        MapExact(vm, phys, size, r.value, perms);
      }
    }
  }

  /** Unmapping a whole block takes it off the map. */
  lemma UnmapBlock(vm: Space, i: nat)
    requires Ordered(vm) && i < |vm|
    ensures Unmap(vm, vm[i].start, vm[i].size) == (Success, Erase(vm, i))
  {
    var v := vm[i].start;
    TranslateOf(vm, i, v);
    MappedIn(vm, v);
    var k := UpperBound(vm, v);
    assert k - 1 == i by {
      assert vm[k - 1].Has(v);
    }
  }

  lemma EraseBehind<T>(b: Block<T>, rest: seq<Block<T>>, j: nat)
    requires j < |rest|
    ensures Erase([b] + rest, j + 1) == [b] + Erase(rest, j)
  {
  }

  lemma {:induction false} InsertedAt<T>(bs: seq<Block<T>>, b: Block<T>) returns (k: nat)
    requires forall i | 0 <= i < |bs| :: bs[i].start != b.start
    ensures k < |Insert(bs, b)| && Insert(bs, b)[k] == b && Erase(Insert(bs, b), k) == bs
  {
    if bs == [] || b.start < bs[0].start {
      k := 0;
      assert Insert(bs, b) == [b] + bs;
    } else {
      var j := InsertedAt(bs[1..], b);
      k := j + 1;
      var rest := Insert(bs[1..], b);
      assert Insert(bs, b) == [bs[0]] + rest;
      hide Insert, Erase;
      EraseBehind(bs[0], rest, j);
    }
  }

  /** Mapping and then unmapping the same range restores the map, block for block. */
  lemma MapUnmap(vm: Space, phys: nat, size: nat, v: nat, perms: Permissions)
    requires Ordered(vm)
    ensures var (r, vm') := Map(vm, phys, size, v, perms);
            r == Success ==> Unmap(vm', v, size) == (Success, vm)
  {
    MapExact(vm, phys, size, v, perms);
    if size > 0 && Unmapped(vm, v, size) {
      forall i | 0 <= i < |vm|
        ensures vm[i].start != v
      {
        if vm[i].start == v {
          TranslateOf(vm, i, v);
        }
      }
      var k := InsertedAt(vm, Block(v, size, Frame(phys, perms)));
      UnmapBlock(Map(vm, phys, size, v, perms).1, k);
    }
  }

  // ---------------------------------------------------------------------------
  // Changing the protection of a range
  // ---------------------------------------------------------------------------

  datatype Reprotection = Reprotected(vm: Space) | NotMapped | NotUnmapped | NoRoom | NotRemapped

  /** Operation 6 of SVCControlProcessMemory: the range is unmapped, and mapped again as one block
      that starts at the physical address of its first byte. */
  function Reprotect(vm: Space, a: nat, size: nat, perms: Permissions): Reprotection {
    var p := Resolve(vm, a);
    if p.None? then NotMapped
    else
      var (r, vm1) := Unmap(vm, a, size);
      if r != Success then NotUnmapped
      else
        var v := FindAvailable(vm1, size, a, a + size);
        if v.None? then NoRoom
        else
          var (r2, vm2) := Map(vm1, p.value, size, v.value, perms);
          if r2 == Success then Reprotected(vm2) else NotRemapped
  }

  /** The physical memory behind the range is in one piece. */
  ghost predicate Contiguous(vm: Space, a: nat, size: nat)
    requires FullyMapped(vm, a, size)
  {
    forall x | a <= x < a + size :: Translate(vm, x).value.0 == Translate(vm, a).value.0 + (x - a)
  }

  /** Every byte of the range is backed by the same physical byte as before. */
  ghost predicate KeepsFrames(vm: Space, vm': Space, a: nat, size: nat)
    requires FullyMapped(vm, a, size)
  {
    forall x | a <= x < a + size :: Translate(vm', x).Some? && Translate(vm', x).value.0 == Translate(vm, x).value.0
  }

  /** On a mapped range the operation never fails and touches nothing else; the range keeps its
      physical memory exactly if that memory is in one piece. */
  lemma ReprotectExact(vm: Space, a: nat, size: nat, perms: Permissions)
    requires Ordered(vm) && size > 0 && FullyMapped(vm, a, size)
    ensures var r := Reprotect(vm, a, size, perms);
            && r.Reprotected? && Ordered(r.vm)
            && (exists p: nat :: Resolve(vm, a) == Some(p) && With(vm, r.vm, a, size, p, perms))
            && (KeepsFrames(vm, r.vm, a, size) <==> Contiguous(vm, a, size))
  {
    assert Translate(vm, a).Some?;
    ResolveExact(vm, a);
    UnmapExact(vm, a, size);
    var vm1 := Unmap(vm, a, size).1;
    hide Ordered, Unmap, Resolve, ResolveWithSize, FindAvailable, Map, Translate;
    assert Unmapped(vm1, a, size);
    FindAvailableExact(vm1, size, a, a + size);
    var p := Resolve(vm, a).value;
    MapExact(vm1, p, size, a, perms);
    var vm2 := Map(vm1, p, size, a, perms).1;
    assert With(vm, vm2, a, size, p, perms);
    Refits(vm, vm2, a, size, p, perms);
  }

  lemma Refits(vm: Space, vm2: Space, a: nat, size: nat, p: nat, perms: Permissions)
    requires FullyMapped(vm, a, size) && size > 0 && With(vm, vm2, a, size, p, perms)
    requires Translate(vm, a).Some? && Translate(vm, a).value.0 == p
    ensures KeepsFrames(vm, vm2, a, size) <==> Contiguous(vm, a, size)
  {
    hide Translate;
    if KeepsFrames(vm, vm2, a, size) {
      forall x | a <= x < a + size
        ensures Translate(vm, x).value.0 == p + (x - a)
      {
        assert Translate(vm2, x).Some?;
      }
    }
  }

  /** Two neighbouring pages with scattered frames. */
  function Scattered(): Space {
    [Block(0, 0x1000, Frame(0x2000_0000, ReadWrite)), Block(0x1000, 0x1000, Frame(0x2700_0000, ReadWrite))]
  }

  lemma ScatteredPages()
    ensures Ordered(Scattered()) && FullyMapped(Scattered(), 0, 0x2000) && !Contiguous(Scattered(), 0, 0x2000)
  {
    var vm := Scattered();
    forall a | 0 <= a < 0x2000
      ensures Translate(vm, a).Some?
    {
      TranslateOf(vm, if a < 0x1000 then 0 else 1, a);
    }
    TranslateOf(vm, 0, 0);
    TranslateOf(vm, 1, 0x1000);
  }

  /** Reprotecting them gives the second page away. */
  lemma ReprotectLosesFrame()
    ensures FullyMapped(Scattered(), 0, 0x2000)
    ensures Reprotect(Scattered(), 0, 0x2000, Read).Reprotected?
    ensures !KeepsFrames(Scattered(), Reprotect(Scattered(), 0, 0x2000, Read).vm, 0, 0x2000)
  {
    hide Reprotect, Scattered, Contiguous, KeepsFrames, FullyMapped, Ordered;
    ScatteredPages();
    ReprotectExact(Scattered(), 0, 0x2000, Read);
  }

  // ---------------------------------------------------------------------------
  // The process object
  // ---------------------------------------------------------------------------

  class Process {
    var virtualMemory: Space

    constructor ()
      ensures virtualMemory == [] && Ordered(virtualMemory)
    {
      virtualMemory := [];
    }

    method MapVirtualMemory(phys: nat, size: nat, v: nat, perms: Permissions) returns (report: Report)
      modifies this
      ensures (report, virtualMemory) == Map(old(virtualMemory), phys, size, v, perms)
    {
      if size == 0 {
        return ZeroSize;
      }
      var i := LowerBound(virtualMemory, v);
      if i < |virtualMemory| && virtualMemory[i].start < v + size {
        return Refusal;
      }
      if i > 0 && virtualMemory[i - 1].End() > v {
        return Refusal;
      }
      virtualMemory := Insert(virtualMemory, Block(v, size, Frame(phys, perms)));
      report := Success;
    }

    /** Erases the chunk at i and puts back what lies outside of the range; returns how much of
        the range that settles. */
    method TakeOut(i: nat, v: nat, size: nat) returns (n: nat)
      requires i < |virtualMemory| && v < virtualMemory[i].End()
      modifies this
      ensures virtualMemory == Cut(old(virtualMemory), i, v, size)
      ensures var t := Tail(old(virtualMemory)[i], v); n == if t.size > size then size else t.size
    {
      hide Insert, Erase;
      var c := virtualMemory[i];
      virtualMemory := Erase(virtualMemory, i);
      if c.start < v {
        virtualMemory := Insert(virtualMemory, Block(c.start, v - c.start, c.tag));
        c := Block(v, c.End() - v, Frame(c.tag.phys + (v - c.start), c.tag.perms));
      }
      if c.size > size {
        virtualMemory := Insert(virtualMemory, Block(v + size, c.size - size, Frame(c.tag.phys + size, c.tag.perms)));
        c := c.(size := size);
      }
      n := c.size;
    }

    method UnmapVirtualMemory(v: nat, size: nat) returns (report: Report)
      modifies this
      ensures (report, virtualMemory) == Unmap(old(virtualMemory), v, size)
      decreases size, |virtualMemory|
    {
      hide Cut;
      if size == 0 {
        return ZeroSize;
      }
      var i := Found(virtualMemory, v, size);
      if i == |virtualMemory| || virtualMemory[i].start > v + size {
        return Refusal;
      }
      if virtualMemory[i].start == v + size {
        return ContractViolated;
      }
      UnmapRound(virtualMemory, v, size);
      hide Unmap, Found;
      var n := TakeOut(i, v, size);
      if size > n {
        report := UnmapVirtualMemory(v + n, size - n);
      } else {
        report := Success;
      }
    }

    method FindAvailableVirtualMemory(size: nat, lo: nat, hi: nat) returns (r: Option<nat>)
      ensures r == FindAvailable(virtualMemory, size, lo, hi)
    {
      var candidate: nat := lo;
      var i := 0;
      while i < |virtualMemory|
        invariant i <= |virtualMemory|
        invariant Candidate(virtualMemory[i..], size, candidate) == Candidate(virtualMemory, size, lo)
      {
        var b := virtualMemory[i];
        assert virtualMemory[i..][1..] == virtualMemory[i + 1..];
        if b.End() < candidate {
          i := i + 1;
          continue;
        }
        if b.start < candidate + size {
          candidate := b.End();
          i := i + 1;
          continue;
        }
        break;
      }
      r := if candidate + size > hi then None else Some(candidate);
    }
  }
}
