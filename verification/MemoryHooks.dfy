/**
  Read and write hooks on the pages of one memory bus, and the notifications
  that tell subscribers whether a page may be accessed directly.
 */
module MemoryHooks {
  import opened Options
  import opened Pages
  import opened Intervals
  import opened HookLists

  datatype Kind = Read | Write

  /** HookKind, where both kinds can be meant. */
  datatype Access = OnlyRead | OnlyWrite | ReadWrite {
    predicate Means(k: Kind) {
      this == ReadWrite || (k == Read && this == OnlyRead) || (k == Write && this == OnlyWrite)
    }
  }

  /** A bus at page-aligned address `base`: for every page its read hooks and its write hooks. */
  datatype Bus = Bus(base: nat, read: seq<Hooks>, write: seq<Hooks>)

  /** OnBackedByHostMemory and OnUnbackedByHostMemory. */
  datatype Notice = Backed(page: nat) | Unbacked(page: nat)

  datatype State = State(bus: Bus, log: seq<Notice>)

  datatype Fault = EmptyRange | Overlap | NothingSet

  /** A call that throws leaves the state as it is at that point. */
  datatype Result = Done(state: State) | Failed(fault: Fault, left: State)

  // ---------------------------------------------------------------------------
  // Pages
  // ---------------------------------------------------------------------------

  predicate WellFormed(b: Bus) {
    |b.read| == |b.write| && b.base % PAGE == 0
  }

  function List(b: Bus, k: Kind, p: nat): Hooks
    requires WellFormed(b) && p < |b.read|
  {
    if k == Read then b.read[p] else b.write[p]
  }

  function Update(b: Bus, k: Kind, p: nat, hs: Hooks): (r: Bus)
    requires WellFormed(b) && p < |b.read|
    ensures WellFormed(r) && r.base == b.base && |r.read| == |b.read|
    ensures forall k', q: nat | q < |b.read| :: List(r, k', q) == if k' == k && q == p then hs else List(b, k', q)
  {
    if k == Read then b.(read := b.read[p := hs]) else b.(write := b.write[p := hs])
  }

  predicate HasAny(b: Bus, p: nat)
    requires WellFormed(b) && p < |b.read|
  {
    List(b, Write, p) != [] || List(b, Read, p) != []
  }

  /** The page of address a, counted from the start of the bus. */
  function PageOf(b: Bus, a: nat): (p: nat)
    requires b.base <= a
    ensures b.base + p * PAGE <= a < b.base + (p + 1) * PAGE
  {
    (a - b.base) / PAGE
  }

  /** One past the last page of the range. */
  function EndPage(b: Bus, start: nat, n: nat): nat
    requires b.base <= start
  {
    (start - b.base + PAGE + n - 1) / PAGE
  }

  /** The range lies on the bus. */
  predicate OnBus(b: Bus, start: nat, n: nat) {
    b.base <= start && start < b.base + |b.read| * PAGE && start + n <= b.base + |b.read| * PAGE
  }

  /** The range lies on one page of the bus. */
  predicate InPage(b: Bus, start: nat, n: nat) {
    OnBus(b, start, n) && start + n <= b.base + (PageOf(b, start) + 1) * PAGE
  }

  // ---------------------------------------------------------------------------
  // Operations
  // ---------------------------------------------------------------------------

  function SetHook(s: State, k: Kind, start: nat, n: nat, handler: Handler): Result
    requires WellFormed(s.bus) && InPage(s.bus, start, n)
  {
    var p := PageOf(s.bus, start);
    if n == 0 then Failed(EmptyRange, s)
    else
      var r := Set(List(s.bus, k, p), start, n, handler);
      if r.Refused? then Failed(Overlap, s)
      else Done(State(Update(s.bus, k, p, r.hooks), if HasAny(s.bus, p) then s.log else s.log + [Unbacked(p)]))
  }

  /** One kind of hooks on one page. */
  function ClearKind(s: State, k: Kind, p: nat, start: nat, n: nat): Result
    requires WellFormed(s.bus) && p < |s.bus.read|
  {
    if List(s.bus, k, p) == [] then Failed(NothingSet, s)
    else Done(s.(bus := Update(s.bus, k, p, Clear(List(s.bus, k, p), start, n))))
  }

  function ClearPage(s: State, x: Access, p: nat, start: nat, n: nat): Result
    requires WellFormed(s.bus) && p < |s.bus.read|
  {
    var r := if x.Means(Read) then ClearKind(s, Read, p, start, n) else Done(s);
    if r.Failed? then r
    else
      var w := if x.Means(Write) then ClearKind(r.state, Write, p, start, n) else r;
      if w.Failed? then w
      else Done(w.state.(log := if HasAny(w.state.bus, p) then w.state.log else w.state.log + [Backed(p)]))
  }

  /** The pages from p up to `end`. */
  function ClearPages(s: State, x: Access, p: nat, end: nat, start: nat, n: nat): Result
    requires WellFormed(s.bus) && end <= |s.bus.read|
    decreases end - p
  {
    if p >= end then Done(s)
    else
      var r := ClearPage(s, x, p, start, n);
      if r.Failed? || !WellFormed(r.state.bus) || end > |r.state.bus.read| then r
      else ClearPages(r.state, x, p + 1, end, start, n)
  }

  lemma PagesOnBus(b: Bus, start: nat, n: nat)
    requires OnBus(b, start, n)
    ensures EndPage(b, start, n) <= |b.read|
    ensures PageOf(b, start) < |b.read|
  {
  }

  function ClearHook(s: State, x: Access, start: nat, n: nat): Result
    requires WellFormed(s.bus) && OnBus(s.bus, start, n)
  {
    PagesOnBus(s.bus, start, n);
    ClearPages(s, x, PageOf(s.bus, start), EndPage(s.bus, start, n), start, n)
  }

  // ---------------------------------------------------------------------------
  // Meaning
  // ---------------------------------------------------------------------------

  /** The byte at a has a hook of kind k. */
  ghost predicate Hooked(b: Bus, k: Kind, a: int)
    requires WellFormed(b)
  {
    b.base <= a < b.base + |b.read| * PAGE && Covered(List(b, k, PageOf(b, a)), a)
  }

  /** A spaced list of ranges on page p. */
  ghost predicate ListOk(b: Bus, p: nat, hs: Hooks) {
    Spaced(hs) && forall a | Covered(hs, a) :: b.base + p * PAGE <= a < b.base + (p + 1) * PAGE
  }

  ghost predicate Shape(b: Bus) {
    WellFormed(b) && forall k, p: nat | p < |b.read| :: ListOk(b, p, List(b, k, p))
  }

  /** What a subscriber believes about page p after the notifications. */
  function View(log: seq<Notice>, p: nat): bool {
    if log == [] then true
    else
      var last := log[|log| - 1];
      if last.page == p then last.Backed? else View(log[..|log| - 1], p)
  }

  /** Every notification tells its page's subscribers something new. */
  predicate Alternates(log: seq<Notice>) {
    log == [] ||
    (var last := log[|log| - 1];
     var before := log[..|log| - 1];
     Alternates(before) && (last.Backed? <==> !View(before, last.page)))
  }

  /** Subscribers take a page for directly accessible exactly if it has no hooks. */
  ghost predicate Informed(s: State) {
    && WellFormed(s.bus) && Alternates(s.log)
    && forall p: nat | p < |s.bus.read| :: View(s.log, p) <==> !HasAny(s.bus, p)
  }

  ghost predicate Inv(s: State) {
    Shape(s.bus) && Informed(s)
  }

  lemma NoticeAdds(log: seq<Notice>, x: Notice, p: nat)
    ensures View(log + [x], p) == if x.page == p then x.Backed? else View(log, p)
    ensures Alternates(log + [x]) <==> Alternates(log) && (x.Backed? <==> !View(log, x.page))
  {
    assert (log + [x])[..|log|] == log;
  }

  /** A bus without hooks, and no notifications yet. */
  function Initial(base: nat, pages: nat): State {
    State(Bus(base, seq(pages, i => []), seq(pages, i => [])), [])
  }

  lemma InitialInv(base: nat, pages: nat)
    requires base % PAGE == 0
    ensures Inv(Initial(base, pages))
  {
  }

  // ---------------------------------------------------------------------------
  // Setting
  // ---------------------------------------------------------------------------

  /** The subscribers' view after page p changed and p was announced if that is news. */
  lemma StayInformed(s: State, b: Bus, p: nat)
    requires Informed(s) && WellFormed(b) && |b.read| == |s.bus.read| && p < |b.read|
    requires forall k, q: nat | q < |b.read| && q != p :: List(b, k, q) == List(s.bus, k, q)
    ensures HasAny(b, p) == HasAny(s.bus, p) ==> Informed(State(b, s.log))
    ensures HasAny(b, p) && !HasAny(s.bus, p) ==> Informed(State(b, s.log + [Unbacked(p)]))
    ensures !HasAny(b, p) && HasAny(s.bus, p) ==> Informed(State(b, s.log + [Backed(p)]))
  {
    forall q: nat | q < |b.read|
      ensures View(s.log + [Unbacked(p)], q) == if q == p then false else View(s.log, q)
      ensures View(s.log + [Backed(p)], q) == if q == p then true else View(s.log, q)
    {
      NoticeAdds(s.log, Unbacked(p), q);
      NoticeAdds(s.log, Backed(p), q);
    }
    NoticeAdds(s.log, Unbacked(p), p);
    NoticeAdds(s.log, Backed(p), p);
    forall q: nat | q < |b.read| && q != p
      ensures HasAny(b, q) == HasAny(s.bus, q)
    {
      assert List(b, Read, q) == List(s.bus, Read, q) && List(b, Write, q) == List(s.bus, Write, q);
    }
  }

  lemma ShapeAfter(b: Bus, k: Kind, p: nat, hs: Hooks)
    requires Shape(b) && p < |b.read| && ListOk(b, p, hs)
    ensures Shape(Update(b, k, p, hs))
  {
    hide Spaced, Covered;
    var b' := Update(b, k, p, hs);
    forall k', q: nat | q < |b'.read|
      ensures ListOk(b', q, List(b', k', q))
    {
      assert ListOk(b, q, List(b, k', q));
    }
  }

  /** Hooks elsewhere than on page p are those of before. */
  lemma HookedAfter(b: Bus, k: Kind, p: nat, hs: Hooks, k': Kind, a: int)
    requires WellFormed(b) && p < |b.read|
    ensures Hooked(Update(b, k, p, hs), k', a)
            <==> if k' == k && b.base + p * PAGE <= a < b.base + (p + 1) * PAGE then Covered(hs, a) else Hooked(b, k', a)
  {
    hide Covered;
    if b.base <= a < b.base + |b.read| * PAGE {
      var q := PageOf(b, a);
      assert q == p <==> b.base + p * PAGE <= a < b.base + (p + 1) * PAGE;
    }
  }

  ghost predicate Free(b: Bus, k: Kind, start: nat, n: nat)
    requires WellFormed(b)
  {
    forall a | start <= a < start + n :: !Hooked(b, k, a)
  }

  ghost predicate Adds(b: Bus, b': Bus, k: Kind, start: nat, n: nat)
    requires WellFormed(b) && WellFormed(b')
  {
    forall k', a :: Hooked(b', k', a) <==> Hooked(b, k', a) || (k' == k && start <= a < start + n)
  }

  lemma InPageBytes(b: Bus, k: Kind, start: nat, n: nat)
    requires WellFormed(b) && InPage(b, start, n)
    ensures PageOf(b, start) < |b.read|
    ensures forall a | start <= a < start + n ::
              && b.base + PageOf(b, start) * PAGE <= a < b.base + (PageOf(b, start) + 1) * PAGE
              && (Hooked(b, k, a) <==> Covered(List(b, k, PageOf(b, start)), a))
  {
    hide Covered;
    var p := PageOf(b, start);
    forall a | start <= a < start + n
      ensures a >= b.base && PageOf(b, a) == p && a < b.base + |b.read| * PAGE
    {
    }
  }

  /** A hook inside one page is refused exactly if one of its bytes has such a hook already; otherwise
      exactly its bytes get one, and the subscribers stay informed. */
  lemma SetHookExact(s: State, k: Kind, start: nat, n: nat, handler: Handler)
    requires Inv(s) && InPage(s.bus, start, n)
    ensures var r := SetHook(s, k, start, n, handler);
            && (r.Done? <==> n > 0 && Free(s.bus, k, start, n))
            && (r.Done? ==> Inv(r.state) && r.state.bus.base == s.bus.base && |r.state.bus.read| == |s.bus.read|
                            && Adds(s.bus, r.state.bus, k, start, n))
            && (r.Failed? ==> r.left == s)
  {
    if n > 0 {
      hide Spaced, Covered, Set, Hooked;
      var p := PageOf(s.bus, start);
      InPageBytes(s.bus, k, start, n);
      assert ListOk(s.bus, p, List(s.bus, k, p));
      SetExact(List(s.bus, k, p), start, n, handler);
      var r := Set(List(s.bus, k, p), start, n, handler);
      if r.Ok? {
        assert ListOk(s.bus, p, r.hooks);
        SetOk(s, k, p, r.hooks, start, n);
      }
    }
  }

  lemma SetOk(s: State, k: Kind, p: nat, hs: Hooks, start: nat, n: nat)
    requires Inv(s) && p < |s.bus.read| && hs != [] && ListOk(s.bus, p, hs)
    requires forall a :: Covered(hs, a) <==> Covered(List(s.bus, k, p), a) || start <= a < start + n
    requires s.bus.base + p * PAGE <= start && start + n <= s.bus.base + (p + 1) * PAGE
    ensures var b' := Update(s.bus, k, p, hs);
            && Inv(State(b', if HasAny(s.bus, p) then s.log else s.log + [Unbacked(p)]))
            && Adds(s.bus, b', k, start, n)
  {
    hide Spaced, Covered, ListOk, Alternates, View;
    var b' := Update(s.bus, k, p, hs);
    ShapeAfter(s.bus, k, p, hs);
    assert List(b', k, p) == hs;
    StayInformed(s, b', p);
    forall k', a
      ensures Hooked(b', k', a) <==> Hooked(s.bus, k', a) || (k' == k && start <= a < start + n)
    {
      HookedAfter(s.bus, k, p, hs, k', a);
    }
  }

  // ---------------------------------------------------------------------------
  // Clearing
  // ---------------------------------------------------------------------------

  /** The bytes of [start, start + n) on pages [p, end) lost the hooks that x means; all else stayed. */
  ghost predicate Removes(b: Bus, b': Bus, x: Access, p: nat, end: nat, start: nat, n: nat)
    requires WellFormed(b) && WellFormed(b')
  {
    forall k, a :: Hooked(b', k, a)
                   <==> Hooked(b, k, a) && !(x.Means(k) && start <= a < start + n
                                             && b.base + p * PAGE <= a < b.base + end * PAGE)
  }

  ghost predicate SameSize(b: Bus, b': Bus) {
    b'.base == b.base && |b'.read| == |b.read|
  }

  lemma ClearKindExact(s: State, k: Kind, p: nat, start: nat, n: nat)
    requires Shape(s.bus) && p < |s.bus.read| && n > 0
    ensures var r := ClearKind(s, k, p, start, n);
            && (r.Done? <==> List(s.bus, k, p) != [])
            && (r.Done? ==>
                  && Shape(r.state.bus) && SameSize(s.bus, r.state.bus) && r.state.log == s.log
                  && (forall k', q: nat | q < |s.bus.read| && !(k' == k && q == p) :: List(r.state.bus, k', q) == List(s.bus, k', q))
                  && Removes(s.bus, r.state.bus, if k == Read then OnlyRead else OnlyWrite, p, p + 1, start, n))
  {
    hide Spaced, Covered, Clear;
    var hs := List(s.bus, k, p);
    assert ListOk(s.bus, p, hs);
    ClearExact(hs, start, n);
    var hs' := Clear(hs, start, n);
    ShapeAfter(s.bus, k, p, hs');
    var b' := Update(s.bus, k, p, hs');
    var x := if k == Read then OnlyRead else OnlyWrite;
    forall k', a
      ensures Hooked(b', k', a) <==> Hooked(s.bus, k', a) && !(x.Means(k') && start <= a < start + n
                                     && s.bus.base + p * PAGE <= a < s.bus.base + (p + 1) * PAGE)
    {
      HookedAfter(s.bus, k, p, hs', k', a);
      HookedAfter(s.bus, k, p, hs, k', a);
      assert Update(s.bus, k, p, hs) == s.bus;
    }
  }

  lemma RemovesBoth(b: Bus, b1: Bus, b2: Bus, p: nat, start: nat, n: nat)
    requires WellFormed(b) && WellFormed(b1) && WellFormed(b2) && b1.base == b.base
    requires Removes(b, b1, OnlyRead, p, p + 1, start, n) && Removes(b1, b2, OnlyWrite, p, p + 1, start, n)
    ensures Removes(b, b2, ReadWrite, p, p + 1, start, n)
  {
    hide Hooked;
  }

  /** The hooks that x means are all present on page p. */
  predicate Present(b: Bus, x: Access, p: nat)
    requires WellFormed(b) && p < |b.read|
  {
    (x.Means(Read) ==> List(b, Read, p) != []) && (x.Means(Write) ==> List(b, Write, p) != [])
  }

  /** Clearing on one page fails exactly if hooks of a meant kind are missing; otherwise exactly the
      bytes lose them, and the subscribers stay informed. */
  lemma ClearPageExact(s: State, x: Access, p: nat, start: nat, n: nat)
    requires Inv(s) && p < |s.bus.read| && n > 0
    ensures var r := ClearPage(s, x, p, start, n);
            && (r.Done? <==> Present(s.bus, x, p))
            && (r.Done? ==>
                  && Inv(r.state) && SameSize(s.bus, r.state.bus)
                  && (forall k, q: nat | q < |s.bus.read| && q != p :: List(r.state.bus, k, q) == List(s.bus, k, q))
                  && Removes(s.bus, r.state.bus, x, p, p + 1, start, n))
  {
    hide ClearKind, Shape, Informed, Removes;
    ShapeWell(s.bus);
    var r := if x.Means(Read) then ClearKind(s, Read, p, start, n) else Done(s);
    if x.Means(Read) {
      ClearKindExact(s, Read, p, start, n);
    }
    if r.Done? {
      ShapeWell(r.state.bus);
      var w := if x.Means(Write) then ClearKind(r.state, Write, p, start, n) else r;
      if x.Means(Write) {
        ClearKindExact(r.state, Write, p, start, n);
      }
      if w.Done? {
        var b2 := w.state.bus;
        ShapeWell(b2);
        if x == ReadWrite {
          RemovesBoth(s.bus, r.state.bus, b2, p, start, n);
        }
        assert HasAny(s.bus, p);
        StayInformed(s, b2, p);
      }
    }
  }

  lemma RemovesThen(b: Bus, b1: Bus, b2: Bus, x: Access, p: nat, end: nat, start: nat, n: nat)
    requires WellFormed(b) && WellFormed(b1) && WellFormed(b2) && b1.base == b.base && p < end
    requires Removes(b, b1, x, p, p + 1, start, n) && Removes(b1, b2, x, p + 1, end, start, n)
    ensures Removes(b, b2, x, p, end, start, n)
  {
    hide Hooked;
  }

  lemma {:induction false} ClearPagesExact(s: State, x: Access, p: nat, end: nat, start: nat, n: nat)
    requires Inv(s) && end <= |s.bus.read| && n > 0
    ensures var r := ClearPages(s, x, p, end, start, n);
            && (r.Done? <==> forall q: nat | p <= q < end :: Present(s.bus, x, q))
            && (r.Done? ==>
                  Inv(r.state) && SameSize(s.bus, r.state.bus)
                  && (p <= end ==> Removes(s.bus, r.state.bus, x, p, end, start, n)))
    decreases end - p
  {
    hide Shape, Informed, ClearPage;
    ShapeWell(s.bus);
    if p >= end {
      assert p == end ==> Removes(s.bus, s.bus, x, p, end, start, n) by { NothingRemoved(s.bus, x, p, start, n); }
    } else {
      hide Removes;
      ClearPageExact(s, x, p, start, n);
      var r := ClearPage(s, x, p, start, n);
      if r.Done? {
        ShapeWell(r.state.bus);
        ClearPagesExact(r.state, x, p + 1, end, start, n);
        forall q: nat | p < q < end
          ensures Present(r.state.bus, x, q) == Present(s.bus, x, q)
        {
          assert List(r.state.bus, Read, q) == List(s.bus, Read, q) && List(r.state.bus, Write, q) == List(s.bus, Write, q);
        }
        var r2 := ClearPages(r.state, x, p + 1, end, start, n);
        if r2.Done? {
          ShapeWell(r2.state.bus);
          RemovesThen(s.bus, r.state.bus, r2.state.bus, x, p, end, start, n);
        }
      }
    }
  }

  lemma ShapeWell(b: Bus)
    requires Shape(b)
    ensures WellFormed(b)
  {
  }

  lemma NothingRemoved(b: Bus, x: Access, p: nat, start: nat, n: nat)
    requires WellFormed(b)
    ensures Removes(b, b, x, p, p, start, n)
  {
    hide Hooked;
  }

  // ---------------------------------------------------------------------------
  // Clearing no bytes
  // ---------------------------------------------------------------------------

  /** No hook of a meant kind on page p has bytes on both sides of `start`. */
  ghost predicate NothingStraddles(b: Bus, x: Access, p: nat, start: nat)
    requires WellFormed(b) && p < |b.read|
  {
    forall k | x.Means(k) :: NoStraddle(List(b, k, p), start)
  }

  lemma ClearNoneLeft(hs: Hooks, start: nat)
    ensures Clear(hs, start, 0) == [] <==> hs == []
  {
    if hs != [] {
      assert Remains(hs[0], start, 0) != [];
    }
  }

  /** What clearing no bytes on one page does to the lists. */
  ghost predicate Recut(b: Bus, b': Bus, x: Access, p: nat, start: nat)
    requires WellFormed(b) && p < |b.read|
  {
    && WellFormed(b') && SameSize(b, b')
    && forall k, q: nat | q < |b.read| ::
         List(b', k, q) == if q == p && x.Means(k) then Clear(List(b, k, q), start, 0) else List(b, k, q)
  }

  lemma ClearPageEmpty(s: State, x: Access, p: nat, start: nat)
    requires Inv(s) && p < |s.bus.read|
    ensures var r := ClearPage(s, x, p, start, 0);
            && (r.Done? <==> Present(s.bus, x, p))
            && (r.Done? ==> r.state.log == s.log && Recut(s.bus, r.state.bus, x, p, start))
  {
    ClearNoneLeft(List(s.bus, Read, p), start);
    ClearNoneLeft(List(s.bus, Write, p), start);
    hide Shape, Informed, Clear;
    ShapeWell(s.bus);
  }

  lemma RecutExact(s: State, b': Bus, x: Access, p: nat, start: nat)
    requires Inv(s) && p < |s.bus.read| && Recut(s.bus, b', x, p, start)
    ensures Informed(State(b', s.log))
    ensures forall k, a :: Hooked(b', k, a) <==> Hooked(s.bus, k, a)
    ensures Shape(b') <==> NothingStraddles(s.bus, x, p, start)
  {
    RecutInformed(s, b', x, p, start);
    hide Informed;
    forall k
      ensures ListOk(s.bus, p, List(s.bus, k, p))
    {
    }
    forall k, a
      ensures Hooked(b', k, a) <==> Hooked(s.bus, k, a)
    {
      RecutHooked(s.bus, b', x, p, start, k, a);
    }
    RecutShape(s.bus, b', x, p, start);
  }

  lemma RecutInformed(s: State, b': Bus, x: Access, p: nat, start: nat)
    requires Informed(s) && WellFormed(s.bus) && p < |s.bus.read| && Recut(s.bus, b', x, p, start)
    ensures Informed(State(b', s.log))
  {
    ClearNoneLeft(List(s.bus, Read, p), start);
    ClearNoneLeft(List(s.bus, Write, p), start);
    hide Clear;
    StayInformed(s, b', p);
  }

  lemma RecutHooked(b: Bus, b': Bus, x: Access, p: nat, start: nat, k: Kind, a: int)
    requires WellFormed(b) && p < |b.read| && Recut(b, b', x, p, start) && ListOk(b, p, List(b, k, p))
    ensures Hooked(b', k, a) <==> Hooked(b, k, a)
  {
    ClearExact(List(b, k, p), start, 0);
    hide Spaced, Covered, Clear;
  }

  lemma RecutShape(b: Bus, b': Bus, x: Access, p: nat, start: nat)
    requires Shape(b) && p < |b.read| && Recut(b, b', x, p, start)
    ensures Shape(b') <==> NothingStraddles(b, x, p, start)
  {
    hide Spaced, Covered, Clear, NoStraddle;
    forall k
      ensures ListOk(b, p, List(b, k, p))
      ensures Spaced(Clear(List(b, k, p), start, 0)) <==> NoStraddle(List(b, k, p), start)
      ensures forall a :: Covered(Clear(List(b, k, p), start, 0), a) <==> Covered(List(b, k, p), a)
    {
      assert ListOk(b, p, List(b, k, p));
      ClearExact(List(b, k, p), start, 0);
    }
    if NothingStraddles(b, x, p, start) {
      forall k, q: nat | q < |b'.read|
        ensures ListOk(b', q, List(b', k, q))
      {
        assert ListOk(b, q, List(b, k, q));
      }
    }
  }

  /** Clearing fails exactly if some page of the range has no hooks of a meant kind; otherwise exactly
      the bytes of the range lose them, and the subscribers stay informed. The lists keep their form
      exactly if there are bytes to clear or no hook straddles the address. */
  lemma ClearHookExact(s: State, x: Access, start: nat, n: nat)
    requires Inv(s) && OnBus(s.bus, start, n)
    ensures var r := ClearHook(s, x, start, n);
            && (r.Done? <==> forall q: nat | PageOf(s.bus, start) <= q < EndPage(s.bus, start, n) :: q < |s.bus.read| && Present(s.bus, x, q))
            && (r.Done? ==>
                  && Informed(r.state) && SameSize(s.bus, r.state.bus)
                  && (Shape(r.state.bus) <==>
                        n > 0 || (PageOf(s.bus, start) < |s.bus.read| && NothingStraddles(s.bus, x, PageOf(s.bus, start), start)))
                  && forall k, a :: Hooked(r.state.bus, k, a)
                                    <==> Hooked(s.bus, k, a) && !(x.Means(k) && start <= a < start + n))
  {
    hide Shape, Informed, Hooked, NothingStraddles;
    ShapeWell(s.bus);
    PagesOnBus(s.bus, start, n);
    if n > 0 {
      var p, end := PageOf(s.bus, start), EndPage(s.bus, start, n);
      ClearPagesExact(s, x, p, end, start, n);
      assert p <= end && start + n <= s.bus.base + end * PAGE && s.bus.base + p * PAGE <= start;
    } else {
      ClearHookEmpty(s, x, start);
    }
  }

  lemma ClearHookEmpty(s: State, x: Access, start: nat)
    requires Inv(s) && OnBus(s.bus, start, 0)
    ensures var r := ClearHook(s, x, start, 0);
            && (r.Done? <==> forall q: nat | PageOf(s.bus, start) <= q < EndPage(s.bus, start, 0) :: q < |s.bus.read| && Present(s.bus, x, q))
            && (r.Done? ==>
                  && Informed(r.state) && SameSize(s.bus, r.state.bus)
                  && PageOf(s.bus, start) < |s.bus.read|
                  && (Shape(r.state.bus) <==> NothingStraddles(s.bus, x, PageOf(s.bus, start), start))
                  && forall k, a :: Hooked(r.state.bus, k, a) <==> Hooked(s.bus, k, a))
  {
    hide Shape, Informed, Hooked, NothingStraddles, ClearPage, Recut, EndPage, PageOf;
    ShapeWell(s.bus);
    PagesOnBus(s.bus, start, 0);
    EmptyPages(s.bus, start);
    var p, end := PageOf(s.bus, start), EndPage(s.bus, start, 0);
    if end == p {
      AlignedStraddles(s.bus, x, p, start);
    } else {
      ClearPageEmpty(s, x, p, start);
      var r := ClearPage(s, x, p, start, 0);
      OnePage(s, x, p, start, 0);
      hide ClearPages;
      if r.Done? {
        RecutExact(s, r.state.bus, x, p, start);
        RecutWell(s.bus, r.state.bus, x, p, start);
      }
    }
  }

  /** An empty range has no page if it starts a page, and one page otherwise. */
  lemma EmptyPages(b: Bus, start: nat)
    requires b.base <= start
    ensures var p := PageOf(b, start);
            if start == b.base + p * PAGE then EndPage(b, start, 0) == p else EndPage(b, start, 0) == p + 1
  {
  }

  lemma OnePage(s: State, x: Access, p: nat, start: nat, n: nat)
    requires WellFormed(s.bus) && p < |s.bus.read|
    ensures ClearPages(s, x, p, p + 1, start, n) == ClearPage(s, x, p, start, n)
  {
    hide ClearPage;
    var r := ClearPage(s, x, p, start, n);
    if r.Done? && WellFormed(r.state.bus) && p + 1 <= |r.state.bus.read| {
      assert ClearPages(r.state, x, p + 1, p + 1, start, n) == Done(r.state);
    }
  }

  lemma RecutWell(b: Bus, b': Bus, x: Access, p: nat, start: nat)
    requires WellFormed(b) && p < |b.read| && Recut(b, b', x, p, start)
    ensures WellFormed(b') && SameSize(b, b')
  {
  }

  /** Nothing straddles the start of its own page. */
  lemma AlignedStraddles(b: Bus, x: Access, p: nat, start: nat)
    requires Shape(b) && p < |b.read| && start == b.base + p * PAGE
    ensures NothingStraddles(b, x, p, start)
  {
    forall k, h | x.Means(k) && h in List(b, k, p)
      ensures !(h.start < start < h.End())
    {
      var hs := List(b, k, p);
      assert ListOk(b, p, hs);
      var i :| 0 <= i < |hs| && hs[i] == h;
      CoveredBy(hs, i, h.start);
    }
  }

  // ---------------------------------------------------------------------------
  // What a failing clear leaves behind
  // ---------------------------------------------------------------------------

  /** The state after the call, whether it succeeded or threw. */
  function Remaining(r: Result): State {
    if r.Done? then r.state else r.left
  }

  /** On page q the read hooks all go before the write hooks turn out to be missing. */
  predicate StripsHalf(b: Bus, x: Access, q: nat, start: nat, n: nat)
    requires WellFormed(b) && q < |b.read|
  {
    && x == ReadWrite && List(b, Read, q) != [] && List(b, Write, q) == []
    && Clear(List(b, Read, q), start, n) == []
  }

  /** The first page from p on that lacks hooks of a meant kind is such a page. */
  predicate Misleads(b: Bus, x: Access, p: nat, end: nat, start: nat, n: nat)
    requires WellFormed(b) && end <= |b.read|
    decreases end - p
  {
    p < end && (if Present(b, x, p) then Misleads(b, x, p + 1, end, start, n) else StripsHalf(b, x, p, start, n))
  }

  /** A call that fails on page p misleads exactly if it strips half of that page. */
  lemma FailedPage(s: State, x: Access, p: nat, start: nat, n: nat)
    requires Informed(s) && WellFormed(s.bus) && p < |s.bus.read| && !Present(s.bus, x, p)
    ensures var r := ClearPage(s, x, p, start, n);
            r.Failed? && (Informed(r.left) <==> !StripsHalf(s.bus, x, p, start, n))
  {
    hide Clear;
    if x.Means(Read) && List(s.bus, Read, p) != [] {
      var b := Update(s.bus, Read, p, Clear(List(s.bus, Read, p), start, n));
      assert List(b, Write, p) == [] && List(b, Read, p) == Clear(List(s.bus, Read, p), start, n);
      assert !View(s.log, p);
      StayInformed(s, b, p);
      assert Informed(State(b, s.log)) ==> (View(s.log, p) <==> !HasAny(b, p));
    }
  }

  /** The pages that are still to come look as before. */
  lemma {:induction false} MisleadsSame(b: Bus, b': Bus, x: Access, p: nat, end: nat, start: nat, n: nat)
    requires WellFormed(b) && WellFormed(b') && |b'.read| == |b.read| && end <= |b.read|
    requires forall k, q: nat | p <= q < end :: List(b', k, q) == List(b, k, q)
    ensures Misleads(b', x, p, end, start, n) <==> Misleads(b, x, p, end, start, n)
    decreases end - p
  {
    hide Clear;
    if p < end {
      assert List(b', Read, p) == List(b, Read, p) && List(b', Write, p) == List(b, Write, p);
      MisleadsSame(b, b', x, p + 1, end, start, n);
    }
  }

  lemma {:induction false} PagesMislead(s: State, x: Access, p: nat, end: nat, start: nat, n: nat)
    requires Inv(s) && end <= |s.bus.read| && n > 0
    ensures WellFormed(s.bus)
    ensures Informed(Remaining(ClearPages(s, x, p, end, start, n))) <==> !Misleads(s.bus, x, p, end, start, n)
    decreases end - p
  {
    hide Shape, Informed, ClearPage, StripsHalf, Removes;
    ShapeWell(s.bus);
    if p < end {
      if Present(s.bus, x, p) {
        ClearPageExact(s, x, p, start, n);
        var s1 := ClearPage(s, x, p, start, n).state;
        ShapeWell(s1.bus);
        PagesMislead(s1, x, p + 1, end, start, n);
        MisleadsSame(s.bus, s1.bus, x, p + 1, end, start, n);
      } else {
        FailedPage(s, x, p, start, n);
      }
    }
  }

  /** After a clear, successful or not, the subscribers are informed unless both kinds were to be cleared and
      the first page of the range without hooks of one kind lost all its read hooks before its
      write hooks turned out to be missing. */
  lemma ClearMisleadsExactly(s: State, x: Access, start: nat, n: nat)
    requires Inv(s) && OnBus(s.bus, start, n)
    ensures EndPage(s.bus, start, n) <= |s.bus.read|
    ensures Informed(Remaining(ClearHook(s, x, start, n)))
            <==> !Misleads(s.bus, x, PageOf(s.bus, start), EndPage(s.bus, start, n), start, n)
  {
    hide Shape, Informed, Clear, ClearPage, ClearPages, Hooked, NothingStraddles, Misleads, PageOf, EndPage;
    PagesOnBus(s.bus, start, n);
    ShapeWell(s.bus);
    var p, end := PageOf(s.bus, start), EndPage(s.bus, start, n);
    if n > 0 {
      PagesMislead(s, x, p, end, start, n);
    } else {
      EmptyPages(s.bus, start);
      ClearHookEmpty(s, x, start);
      EmptyMislead(s.bus, x, p, end, start);
      if end == p + 1 && !Present(s.bus, x, p) {
        OnePage(s, x, p, start, 0);
        FailedPage(s, x, p, start, 0);
        NotStripped(s.bus, x, p, start);
      }
    }
  }

  lemma NotStripped(b: Bus, x: Access, p: nat, start: nat)
    requires WellFormed(b) && p < |b.read|
    ensures !StripsHalf(b, x, p, start, 0)
  {
    ClearNoneLeft(List(b, Read, p), start);
  }

  lemma EmptyMislead(b: Bus, x: Access, p: nat, end: nat, start: nat)
    requires WellFormed(b) && end <= |b.read| && p <= end <= p + 1
    ensures !Misleads(b, x, p, end, start, 0)
  {
    if p < end {
      NotStripped(b, x, p, start);
      hide StripsHalf;
      assert !Misleads(b, x, p + 1, end, start, 0);
    }
  }

  /** A clear that fails between the two kinds leaves a page without hooks that subscribers still
      take for hooked. */
  lemma FailedClearMisleads(handler: Handler)
    ensures var s := State(Bus(0, [[Block(0, 4, handler)]], [[]]), [Unbacked(0)]);
            var r := ClearHook(s, ReadWrite, 0, 4);
            && Inv(s) && r.Failed?
            && WellFormed(r.left.bus) && |r.left.bus.read| == 1 && !HasAny(r.left.bus, 0) && !View(r.left.log, 0)
  {
    var h := Block(0, 4, handler);
    var none: Hooks := [];
    var s := State(Bus(0, [[h]], [none]), [Unbacked(0)]);
    var log0: seq<Notice> := [];
    NoticeAdds(log0, Unbacked(0), 0);
    assert log0 + [Unbacked(0)] == s.log;
    assert [h][1..] == none && Clear(none, 0, 4) == none && Remains(h, 0, 4) == none;
    assert Clear([h], 0, 4) == none;
    forall k, p: nat | p < |s.bus.read|
      ensures ListOk(s.bus, p, List(s.bus, k, p))
    {
      forall a | Covered(List(s.bus, k, p), a)
        ensures 0 <= a < PAGE
      {
        var i := CoverWitness(List(s.bus, k, p), a);
      }
    }
    var s1 := ClearKind(s, Read, 0, 0, 4);
    assert s1.Done? && List(s1.state.bus, Read, 0) == none && List(s1.state.bus, Write, 0) == none;
    assert ClearPage(s, ReadWrite, 0, 0, 4) == Failed(NothingSet, s1.state);
    assert PageOf(s.bus, 0) == 0 && EndPage(s.bus, 0, 4) == 1;
    assert ClearPages(s, ReadWrite, 0, 1, 0, 4) == Failed(NothingSet, s1.state);
  }

  // ---------------------------------------------------------------------------
  // Every sequence of calls
  // ---------------------------------------------------------------------------

  datatype Op = SetOp(k: Kind, start: nat, n: nat, handler: Handler) | ClearOp(x: Access, start: nat, n: nat)

  predicate Fits(b: Bus, op: Op) {
    match op
    case SetOp(_, start, n, _) => InPage(b, start, n)
    case ClearOp(_, start, n) => OnBus(b, start, n)
  }

  /** A refused hook changes nothing; the run ends with the first clear that fails. */
  function Run(s: State, ops: seq<Op>): Result
    requires WellFormed(s.bus)
    decreases |ops|
  {
    if ops == [] then Done(s)
    else if !Fits(s.bus, ops[0]) then Run(s, ops[1..])
    else
      var r := match ops[0]
        case SetOp(k, start, n, handler) =>
          var r := SetHook(s, k, start, n, handler);
          if r.Failed? then Done(s) else r
        case ClearOp(x, start, n) => ClearHook(s, x, start, n);
      if r.Failed? || !WellFormed(r.state.bus) then r else Run(r.state, ops[1..])
  }

  /** Whether subscribers are informed depends on which lists are empty only. */
  lemma SetInformed(s: State, k: Kind, start: nat, n: nat, handler: Handler)
    requires Informed(s) && InPage(s.bus, start, n)
    ensures var r := SetHook(s, k, start, n, handler);
            r.Done? ==> Informed(r.state) && SameSize(s.bus, r.state.bus)
  {
    hide Set, InPage;
    InPageBytes(s.bus, k, start, n);
    var p := PageOf(s.bus, start);
    var r := Set(List(s.bus, k, p), start, n, handler);
    if n > 0 && r.Ok? {
      SetLeavesSome(List(s.bus, k, p), start, n, handler);
      var b' := Update(s.bus, k, p, r.hooks);
      assert List(b', k, p) == r.hooks;
      StayInformed(s, b', p);
    }
  }

  lemma SetLeavesSome(hs: Hooks, start: nat, n: nat, handler: Handler)
    ensures Set(hs, start, n, handler).Ok? ==> Set(hs, start, n, handler).hooks != []
  {
  }

  lemma ClearPageInformed(s: State, x: Access, p: nat, start: nat, n: nat)
    requires Informed(s) && p < |s.bus.read|
    ensures var r := ClearPage(s, x, p, start, n);
            r.Done? ==> Informed(r.state) && SameSize(s.bus, r.state.bus)
  {
    hide Clear;
    var r := ClearPage(s, x, p, start, n);
    if r.Done? {
      assert HasAny(s.bus, p);
      StayInformed(s, r.state.bus, p);
    }
  }

  lemma {:induction false} ClearPagesInformed(s: State, x: Access, p: nat, end: nat, start: nat, n: nat)
    requires Informed(s) && end <= |s.bus.read|
    ensures WellFormed(s.bus)
    ensures var r := ClearPages(s, x, p, end, start, n);
            r.Done? ==> Informed(r.state) && SameSize(s.bus, r.state.bus)
    decreases end - p
  {
    hide ClearPage, Alternates, View, HasAny;
    if p < end {
      ClearPageInformed(s, x, p, start, n);
      var r := ClearPage(s, x, p, start, n);
      if r.Done? {
        ClearPagesInformed(r.state, x, p + 1, end, start, n);
      }
    }
  }

  lemma {:induction false} RunInformed(s: State, ops: seq<Op>)
    requires Informed(s)
    ensures WellFormed(s.bus)
    ensures Run(s, ops).Done? ==> Informed(Run(s, ops).state) && SameSize(s.bus, Run(s, ops).state.bus)
    decreases |ops|
  {
    hide SetHook, ClearPages, InPage, Alternates, View, HasAny;
    if ops != [] {
      if !Fits(s.bus, ops[0]) {
        RunInformed(s, ops[1..]);
      } else {
        match ops[0] {
          case SetOp(k, start, n, handler) =>
            SetInformed(s, k, start, n, handler);
            var r := SetHook(s, k, start, n, handler);
            RunInformed(if r.Failed? then s else r.state, ops[1..]);
          case ClearOp(x, start, n) =>
            PagesOnBus(s.bus, start, n);
            ClearPagesInformed(s, x, PageOf(s.bus, start), EndPage(s.bus, start, n), start, n);
            var r := ClearHook(s, x, start, n);
            if r.Done? {
              RunInformed(r.state, ops[1..]);
            }
        }
      }
    }
  }

  lemma {:induction false} RunKeeps(s: State, ops: seq<Op>)
    requires Inv(s) && forall op | op in ops :: op.ClearOp? ==> op.n > 0
    ensures Run(s, ops).Done? ==> Inv(Run(s, ops).state) && SameSize(s.bus, Run(s, ops).state.bus)
    decreases |ops|
  {
    hide Shape, Informed, SetHook, ClearHook, InPage, OnBus, Free;
    ShapeWell(s.bus);
    if ops != [] {
      if !Fits(s.bus, ops[0]) {
        RunKeeps(s, ops[1..]);
      } else {
        match ops[0] {
          case SetOp(k, start, n, handler) =>
            SetHookExact(s, k, start, n, handler);
            var r := SetHook(s, k, start, n, handler);
            var s1 := if r.Failed? then s else r.state;
            ShapeWell(s1.bus);
            RunKeeps(s1, ops[1..]);
          case ClearOp(x, start, n) =>
            ClearHookExact(s, x, start, n);
            var r := ClearHook(s, x, start, n);
            if r.Done? {
              ShapeWell(r.state.bus);
              RunKeeps(r.state, ops[1..]);
            }
        }
      }
    }
  }

  /** Over every sequence of successful calls on a fresh bus: the notifications of each page alternate, and a
      subscriber takes a page for directly accessible exactly if it has neither read nor write
      hooks; unless a clear had no bytes, the lists are sorted, disjoint and do not touch. */
  lemma AnyRunInformed(base: nat, pages: nat, ops: seq<Op>)
    requires base % PAGE == 0
    ensures var r := Run(Initial(base, pages), ops);
            r.Done? ==>
              && WellFormed(r.state.bus) && |r.state.bus.read| == pages && Alternates(r.state.log)
              && (forall p: nat | p < pages ::
                    View(r.state.log, p) <==> List(r.state.bus, Read, p) == [] && List(r.state.bus, Write, p) == [])
              && ((forall op | op in ops :: op.ClearOp? ==> op.n > 0) ==> Shape(r.state.bus))
  {
    InitialInv(base, pages);
    RunInformed(Initial(base, pages), ops);
    if forall op | op in ops :: op.ClearOp? ==> op.n > 0 {
      RunKeeps(Initial(base, pages), ops);
    }
    hide Run, Shape;
  }

  // ---------------------------------------------------------------------------
  // GenerateHooks
  // ---------------------------------------------------------------------------

  function PieceCount(start: nat, n: nat): nat {
    (start % PAGE + PAGE + n - 1) / PAGE
  }

  function PieceFrom(start: nat, i: nat): nat {
    if i == 0 then start else PageBase(start) + i * PAGE
  }

  function PieceTo(start: nat, n: nat, i: nat): nat {
    if i == PieceCount(start, n) - 1 then start + n else PageBase(start) + i * PAGE + PAGE
  }

  /** The pieces follow one another, are not empty, and each lies on one page; together they are the range. */
  lemma PiecesTile(start: nat, n: nat, i: nat)
    requires n > 0 && i < PieceCount(start, n)
    ensures PieceFrom(start, i) < PieceTo(start, n, i)
    ensures PieceFrom(start, 0) == start && PieceTo(start, n, PieceCount(start, n) - 1) == start + n
    ensures i + 1 < PieceCount(start, n) ==> PieceTo(start, n, i) == PieceFrom(start, i + 1)
    ensures PageBase(start) + i * PAGE <= PieceFrom(start, i) && PieceTo(start, n, i) <= PageBase(start) + (i + 1) * PAGE
    ensures PieceTo(start, n, i) <= start + n
  {
  }

  lemma PieceInPage(b: Bus, start: nat, n: nat, i: nat)
    requires WellFormed(b) && OnBus(b, start, n) && i < PieceCount(start, n)
    ensures PieceFrom(start, i) <= PieceTo(start, n, i)
    ensures InPage(b, PieceFrom(start, i), PieceTo(start, n, i) - PieceFrom(start, i))
  {
    if n > 0 {
      PiecesTile(start, n, i);
      var q := b.base / PAGE;
      var d := start / PAGE;
      assert b.base == q * PAGE && PageBase(start) == d * PAGE;
      assert b.base + (d - q + i) * PAGE == PageBase(start) + i * PAGE;
    }
  }

  /** The loop from piece i on; `pick` is the callback. */
  function Generate(s: State, k: Kind, start: nat, n: nat, i: nat, pick: nat -> Option<Handler>): Result
    requires WellFormed(s.bus) && OnBus(s.bus, start, n)
    decreases PieceCount(start, n) - i
  {
    if i >= PieceCount(start, n) then Done(s)
    else
      var h := pick(PageBase(start) + i * PAGE);
      if h.None? then Generate(s, k, start, n, i + 1, pick)
      else
        PieceInPage(s.bus, start, n, i);
        var r := SetHook(s, k, PieceFrom(start, i), PieceTo(start, n, i) - PieceFrom(start, i), h.value);
        if r.Failed? || !WellFormed(r.state.bus) || !OnBus(r.state.bus, start, n) then r
        else Generate(r.state, k, start, n, i + 1, pick)
  }

  /** The callback wants a hook on the page of a. */
  predicate Picked(pick: nat -> Option<Handler>, a: nat) {
    pick(PageBase(a)).Some?
  }

  ghost predicate PickedFree(b: Bus, k: Kind, lo: nat, hi: nat, pick: nat -> Option<Handler>)
    requires WellFormed(b)
  {
    forall a: nat | lo <= a < hi && Picked(pick, a) :: !Hooked(b, k, a)
  }

  ghost predicate AddsPicked(b: Bus, b': Bus, k: Kind, lo: nat, hi: nat, pick: nat -> Option<Handler>)
    requires WellFormed(b) && WellFormed(b')
  {
    forall k', a: nat :: Hooked(b', k', a) <==> Hooked(b, k', a) || (k' == k && lo <= a < hi && Picked(pick, a))
  }

  lemma PickedInPiece(start: nat, n: nat, i: nat, a: nat, pick: nat -> Option<Handler>)
    requires n > 0 && i < PieceCount(start, n) && PieceFrom(start, i) <= a < PieceTo(start, n, i)
    ensures Picked(pick, a) <==> pick(PageBase(start) + i * PAGE).Some?
  {
    PiecesTile(start, n, i);
    var d := start / PAGE;
    assert PageBase(start) == d * PAGE;
    assert (d + i) * PAGE <= a < (d + i + 1) * PAGE;
    assert a / PAGE == d + i;
  }

  /** Hooks are generated exactly if no byte that the callback picks is hooked, and then exactly
      for the bytes of the range on the pages that it picks. */
  lemma {:induction false} GenerateExact(s: State, k: Kind, start: nat, n: nat, i: nat, pick: nat -> Option<Handler>)
    requires Inv(s) && OnBus(s.bus, start, n) && n > 0 && i < PieceCount(start, n)
    ensures var r := Generate(s, k, start, n, i, pick);
            && (r.Done? <==> PickedFree(s.bus, k, PieceFrom(start, i), start + n, pick))
            && (r.Done? ==> Inv(r.state) && SameSize(s.bus, r.state.bus)
                            && AddsPicked(s.bus, r.state.bus, k, PieceFrom(start, i), start + n, pick))
    decreases PieceCount(start, n) - i, 0
  {
    hide Shape, Informed, Hooked, SetHook, InPage;
    ShapeWell(s.bus);
    PiecesTile(start, n, i);
    PieceInPage(s.bus, start, n, i);
    var lo, hi := PieceFrom(start, i), PieceTo(start, n, i);
    forall a: nat | lo <= a < hi
      ensures Picked(pick, a) <==> pick(PageBase(start) + i * PAGE).Some?
    {
      PickedInPiece(start, n, i, a, pick);
    }
    hide Picked, PieceFrom, PieceTo, PieceCount, PageBase;
    var h := pick(PageBase(start) + i * PAGE);
    if h.None? {
      GenerateRest(s, k, start, n, i, pick);
    } else {
      SetHookExact(s, k, lo, hi - lo, h.value);
      var r := SetHook(s, k, lo, hi - lo, h.value);
      if r.Done? {
        ShapeWell(r.state.bus);
        GenerateRest(r.state, k, start, n, i, pick);
      }
    }
  }

  lemma GenerateNone(s: State, k: Kind, start: nat, n: nat, i: nat, pick: nat -> Option<Handler>)
    requires WellFormed(s.bus) && OnBus(s.bus, start, n) && i >= PieceCount(start, n)
    ensures Generate(s, k, start, n, i, pick) == Done(s)
  {
  }

  /** The pieces after piece i, of which there may be none. */
  lemma {:induction false} GenerateRest(s: State, k: Kind, start: nat, n: nat, i: nat, pick: nat -> Option<Handler>)
    requires Inv(s) && OnBus(s.bus, start, n) && n > 0 && i < PieceCount(start, n)
    ensures var r := Generate(s, k, start, n, i + 1, pick);
            var hi := PieceTo(start, n, i);
            && (r.Done? <==> PickedFree(s.bus, k, hi, start + n, pick))
            && (r.Done? ==> Inv(r.state) && SameSize(s.bus, r.state.bus)
                            && AddsPicked(s.bus, r.state.bus, k, hi, start + n, pick))
    decreases PieceCount(start, n) - i - 1, 1
  {
    hide Shape, Informed, Hooked, PageBase, PieceFrom, PieceTo, PieceCount, Generate, Picked;
    ShapeWell(s.bus);
    PiecesTile(start, n, i);
    if i + 1 < PieceCount(start, n) {
      GenerateExact(s, k, start, n, i + 1, pick);
    } else {
      GenerateNone(s, k, start, n, i + 1, pick);
    }
  }

  // ---------------------------------------------------------------------------
  // Looking up contiguous memory
  // ---------------------------------------------------------------------------

  datatype Lookup = Found | CoversHook | PastEnd | NoBytes

  lemma OverlapMeans(hs: Hooks, start: nat, n: nat)
    requires Spaced(hs) && n > 0
    ensures (exists i: nat | i < |hs| :: Overlaps(hs[i], start, n)) <==> exists a :: start <= a < start + n && Covered(hs, a)
  {
    if i: nat :| i < |hs| && Overlaps(hs[i], start, n) {
      var a := if hs[i].start < start then start else hs[i].start;
      CoveredBy(hs, i, a);
    }
    if a :| start <= a < start + n && Covered(hs, a) {
      var i := CoverWitness(hs, a);
      assert Overlaps(hs[i], start, n);
    }
  }

  method AnyOverlap(hs: Hooks, start: nat, n: nat) returns (hit: bool)
    ensures hit <==> exists i: nat | i < |hs| :: Overlaps(hs[i], start, n)
  {
    var i := 0;
    while i < |hs|
      invariant i <= |hs| && forall j: nat | j < i :: !Overlaps(hs[j], start, n)
    {
      if Overlaps(hs[i], start, n) {
        return true;
      }
      i := i + 1;
    }
    hit := false;
  }

  /** No byte of the range on page p has a hook of kind k. */
  ghost predicate PageFree(b: Bus, k: Kind, p: nat, start: nat, n: nat)
    requires WellFormed(b)
  {
    forall a | start <= a < start + n && b.base + p * PAGE <= a < b.base + (p + 1) * PAGE :: !Hooked(b, k, a)
  }

  lemma PageFreeMeans(b: Bus, k: Kind, p: nat, start: nat, n: nat)
    requires Shape(b) && p < |b.read| && n > 0
    ensures PageFree(b, k, p, start, n) <==> !exists i: nat | i < |List(b, k, p)| :: Overlaps(List(b, k, p)[i], start, n)
  {
    var hs := List(b, k, p);
    assert ListOk(b, p, hs);
    OverlapMeans(hs, start, n);
    hide Spaced, Covered, Overlaps;
    forall a
      ensures b.base + p * PAGE <= a < b.base + (p + 1) * PAGE ==> (Hooked(b, k, a) <==> Covered(hs, a))
    {
      HookedAfter(b, k, p, hs, k, a);
      assert Update(b, k, p, hs) == b;
    }
    if PageFree(b, k, p, start, n) {
      forall a | start <= a < start + n
        ensures !Covered(hs, a)
      {
        assert Covered(hs, a) ==> b.base + p * PAGE <= a < b.base + (p + 1) * PAGE;
      }
    }
  }

  /** Direct access to a range is granted exactly if it lies on the bus and no byte of it has a hook
      of a kind that matters. */
  method LookupContiguous(b: Bus, x: Access, addr: nat, n: nat) returns (r: Lookup)
    requires Shape(b) && b.base <= addr < b.base + |b.read| * PAGE
    ensures r == NoBytes <==> n == 0
    ensures r == PastEnd <==> n > 0 && addr + n > b.base + |b.read| * PAGE
    ensures r == Found <==> n > 0 && addr + n <= b.base + |b.read| * PAGE
                            && forall k, a | x.Means(k) && addr <= a < addr + n :: !Hooked(b, k, a)
  {
    hide Hooked, Shape, Overlaps;
    ShapeWell(b);
    if n == 0 {
      return NoBytes;
    }
    if addr + n > b.base + |b.read| * PAGE {
      return PastEnd;
    }
    var p0 := PageOf(b, addr);
    var last := (addr % PAGE + n - 1) / PAGE;
    LastPage(b, addr, n);
    var i := 0;
    while i <= last
      invariant i <= last + 1
      invariant forall q: nat, k | p0 <= q < p0 + i && x.Means(k) :: PageFree(b, k, q, addr, n)
    {
      var p := p0 + i;
      PageFreeMeans(b, Read, p, addr, n);
      PageFreeMeans(b, Write, p, addr, n);
      if x.Means(Read) {
        var hit := AnyOverlap(List(b, Read, p), addr, n);
        if hit {
          return CoversHook;
        }
      }
      if x.Means(Write) {
        var hit := AnyOverlap(List(b, Write, p), addr, n);
        if hit {
          return CoversHook;
        }
      }
      assert x.Means(Read) ==> PageFree(b, Read, p, addr, n);
      assert x.Means(Write) ==> PageFree(b, Write, p, addr, n);
      i := i + 1;
      forall q: nat, k | p0 <= q < p0 + i && x.Means(k)
        ensures PageFree(b, k, q, addr, n)
      {
        assert q == p || q < p0 + i - 1;
        assert k == Read || k == Write;
      }
    }
    forall k, a | x.Means(k) && addr <= a < addr + n
      ensures !Hooked(b, k, a)
    {
      assert PageFree(b, k, PageOf(b, a), addr, n);
    }
    r := Found;
  }

  lemma LastPage(b: Bus, addr: nat, n: nat)
    requires WellFormed(b) && OnBus(b, addr, n) && n > 0
    ensures PageOf(b, addr) + (addr % PAGE + n - 1) / PAGE == PageOf(b, addr + n - 1) < |b.read|
  {
    var q := b.base / PAGE;
    assert b.base == q * PAGE;
    assert (addr - b.base) % PAGE == addr % PAGE;
  }

  // ---------------------------------------------------------------------------
  // The memory object
  // ---------------------------------------------------------------------------

  class HookedMemory {
    var bus: Bus
    var log: seq<Notice>

    ghost predicate Valid()
      reads this
    {
      Inv(State(bus, log))
    }

    constructor (base: nat, pages: nat)
      requires base % PAGE == 0
      ensures Valid() && bus.base == base && |bus.read| == pages && log == []
    {
      bus, log := Bus(base, seq(pages, i => []), seq(pages, i => [])), [];
      new;
      InitialInv(base, pages);
    }

    method Set(k: Kind, start: nat, n: nat, handler: Handler) returns (report: Option<Fault>)
      requires WellFormed(bus) && InPage(bus, start, n)
      modifies this
      ensures var r := SetHook(old(State(bus, log)), k, start, n, handler);
              if r.Done? then report == None && State(bus, log) == r.state
              else report == Some(r.fault) && State(bus, log) == r.left
    {
      if n == 0 {
        return Some(EmptyRange);
      }
      var p := PageOf(bus, start);
      var alreadyUnbacked := HasAny(bus, p);
      var r := HookLists.InsertRange(List(bus, k, p), start, n, handler);
      if r.Refused? {
        return Some(Overlap);
      }
      bus := Update(bus, k, p, r.hooks);
      if !alreadyUnbacked {
        log := log + [Unbacked(p)];
      }
      report := None;
    }

    method ClearOne(k: Kind, p: nat, start: nat, n: nat) returns (report: Option<Fault>)
      requires WellFormed(bus) && p < |bus.read|
      modifies this
      ensures log == old(log)
      ensures var r := ClearKind(old(State(bus, log)), k, p, start, n);
              if r.Done? then report == None && State(bus, log) == r.state
              else report == Some(r.fault) && State(bus, log) == r.left
      ensures WellFormed(bus) && |bus.read| == old(|bus.read|) && bus.base == old(bus.base)
    {
      if List(bus, k, p) == [] {
        return Some(NothingSet);
      }
      var hs := HookLists.RemoveRange(List(bus, k, p), start, n);
      bus := Update(bus, k, p, hs);
      report := None;
    }

    method ClearOn(x: Access, p: nat, start: nat, n: nat) returns (report: Option<Fault>)
      requires WellFormed(bus) && p < |bus.read|
      modifies this
      ensures var r := ClearPage(old(State(bus, log)), x, p, start, n);
              if r.Done? then report == None && State(bus, log) == r.state
              else report == Some(r.fault) && State(bus, log) == r.left
      ensures WellFormed(bus) && |bus.read| == old(|bus.read|) && bus.base == old(bus.base)
    {
      hide ClearKind;
      report := None;
      if x.Means(Read) {
        report := ClearOne(Read, p, start, n);
        if report.Some? {
          return;
        }
      }
      if x.Means(Write) {
        report := ClearOne(Write, p, start, n);
        if report.Some? {
          return;
        }
      }
      if !HasAny(bus, p) {
        log := log + [Backed(p)];
      }
    }

    method Clear(x: Access, start: nat, n: nat) returns (report: Option<Fault>)
      requires WellFormed(bus) && OnBus(bus, start, n)
      modifies this
      ensures var r := ClearHook(old(State(bus, log)), x, start, n);
              if r.Done? then report == None && State(bus, log) == r.state
              else report == Some(r.fault) && State(bus, log) == r.left
    {
      hide ClearPage;
      PagesOnBus(bus, start, n);
      var page := PageOf(bus, start);
      var end := EndPage(bus, start, n);
      while page < end
        invariant WellFormed(bus) && end <= |bus.read|
        invariant ClearPages(State(bus, log), x, page, end, start, n) == ClearHook(old(State(bus, log)), x, start, n)
        decreases end - page
      {
        report := ClearOn(x, page, start, n);
        if report.Some? {
          return;
        }
        page := page + 1;
      }
      report := None;
    }

    /** Sets a hook on every page of the range for which the callback has a handler. */
    method GenerateHooks(k: Kind, start: nat, n: nat, pick: nat -> Option<Handler>) returns (report: Option<Fault>)
      requires Valid() && OnBus(bus, start, n)
      modifies this
      ensures var r := Generate(old(State(bus, log)), k, start, n, 0, pick);
              if r.Done? then report == None && State(bus, log) == r.state
              else report == Some(r.fault) && State(bus, log) == r.left
    {
      hide SetHook, Shape, Informed, InPage, PieceFrom, PieceTo, PageBase;
      ShapeWell(bus);
      var count := PieceCount(start, n);
      var i: nat := 0;
      while i < count
        invariant Valid() && WellFormed(bus) && OnBus(bus, start, n)
        invariant Generate(State(bus, log), k, start, n, i, pick) == Generate(old(State(bus, log)), k, start, n, 0, pick)
        decreases count - i
      {
        var h := pick(PageBase(start) + i * PAGE);
        if h.Some? {
          PieceInPage(bus, start, n, i);
          var lo, len := PieceFrom(start, i), PieceTo(start, n, i) - PieceFrom(start, i);
          SetHookExact(State(bus, log), k, lo, len, h.value);
          report := Set(k, lo, len, h.value);
          if report.Some? {
            return;
          }
          ShapeWell(bus);
        }
        i := i + 1;
      }
      report := None;
    }
  }
}
