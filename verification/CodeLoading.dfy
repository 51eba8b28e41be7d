/**
  From a loader's memory to a running process: SVCCreateCodeSet takes pages away
  from the caller and gives them to a code set, SVCCreateProcess maps them into
  a new process and makes it their owner.
 */
module CodeLoading {
  import opened Options
  import opened Pages
  import opened Intervals
  import opened Blocks
  import opened AddressSpace
  import Phys = PhysicalMemory

  type Memory = Phys.Memory

  /** CodeSet::Mapping: pages in a row of physical memory. */
  datatype Piece = Piece(phys: nat, pages: nat) {
    function Bytes(): nat { pages * PAGE }
    predicate Has(a: int) { phys <= a < phys + Bytes() }
  }

  datatype Fault =
    | BadSection      // unaligned address, or a size that cannot be unmapped
    | NotMapped       // a byte of a section is not mapped, or at physical address zero
    | PartialPage     // contract: chunks end at page boundaries
    | NotOwned        // the transfer of ownership was refused
    | NoMemory        // no room for the zero-initialised data
    | NotUnmapped     // the section could not be unmapped

  datatype Result<T> = Ok(value: T) | Failed(fault: Fault)

  /** One of the text, read-only and data sections. */
  datatype Section = Section(data: nat, pages: nat, vaddr: nat, perms: Permissions) {
    function Bytes(): nat { pages * PAGE }
  }

  // ---------------------------------------------------------------------------
  // Pieces
  // ---------------------------------------------------------------------------

  function Size(ps: seq<Piece>): nat {
    if ps == [] then 0 else ps[0].Bytes() + Size(ps[1..])
  }

  /** The physical address of byte j of the pieces laid end to end. */
  function ByteAt(ps: seq<Piece>, j: nat): nat
    requires j < Size(ps)
  {
    if j < ps[0].Bytes() then ps[0].phys + j else ByteAt(ps[1..], j - ps[0].Bytes())
  }

  predicate Covers(ps: seq<Piece>, a: int) {
    ps != [] && (ps[0].Has(a) || Covers(ps[1..], a))
  }

  ghost predicate Apart(ps: seq<Piece>, qs: seq<Piece>) {
    forall a :: !(Covers(ps, a) && Covers(qs, a))
  }

  ghost predicate NoOverlap(ps: seq<Piece>) {
    ps == [] || (Apart([ps[0]], ps[1..]) && NoOverlap(ps[1..]))
  }

  lemma {:induction false} CoversConcat(ps: seq<Piece>, qs: seq<Piece>, a: int)
    ensures Covers(ps + qs, a) <==> Covers(ps, a) || Covers(qs, a)
  {
    if ps == [] {
      assert ps + qs == qs;
    } else {
      assert (ps + qs)[1..] == ps[1..] + qs;
      CoversConcat(ps[1..], qs, a);
    }
  }

  lemma CoversOne(p: Piece, a: int)
    ensures Covers([p], a) <==> p.Has(a)
  {
    assert [p][1..] == [];
  }

  lemma {:induction false} NoOverlapConcat(ps: seq<Piece>, qs: seq<Piece>)
    requires NoOverlap(ps) && NoOverlap(qs) && Apart(ps, qs)
    ensures NoOverlap(ps + qs)
  {
    if ps == [] {
      assert ps + qs == qs;
    } else {
      var rest := ps[1..];
      assert (ps + qs)[1..] == rest + qs;
      assert ps == [ps[0]] + rest;
      forall a
        ensures !(Covers(rest, a) && Covers(qs, a)) && !(Covers([ps[0]], a) && Covers(rest + qs, a))
      {
        CoversConcat([ps[0]], rest, a);
        CoversConcat(rest, qs, a);
        assert !(Covers(ps, a) && Covers(qs, a)) && !(Covers([ps[0]], a) && Covers(rest, a));
      }
      NoOverlapConcat(rest, qs);
    }
  }

  lemma {:induction false} ByteCovered(ps: seq<Piece>, j: nat)
    requires j < Size(ps)
    ensures Covers(ps, ByteAt(ps, j))
  {
    if j >= ps[0].Bytes() {
      ByteCovered(ps[1..], j - ps[0].Bytes());
    }
  }

  lemma {:induction false} CoveredByte(ps: seq<Piece>, a: int) returns (j: nat)
    requires Covers(ps, a)
    ensures j < Size(ps) && ByteAt(ps, j) == a
  {
    if ps[0].Has(a) {
      j := a - ps[0].phys;
    } else {
      var i := CoveredByte(ps[1..], a);
      j := ps[0].Bytes() + i;
    }
  }

  lemma {:induction false} DistinctBytes(ps: seq<Piece>, i: nat, j: nat)
    requires NoOverlap(ps) && i < j < Size(ps)
    ensures ByteAt(ps, i) != ByteAt(ps, j)
  {
    var n := ps[0].Bytes();
    if i >= n {
      DistinctBytes(ps[1..], i - n, j - n);
    } else if j >= n {
      ByteCovered(ps[1..], j - n);
      CoversOne(ps[0], ByteAt(ps, i));
    }
  }

  // ---------------------------------------------------------------------------
  // Ownership
  // ---------------------------------------------------------------------------

  ghost predicate HeldAll(m: Memory, ps: seq<Piece>, w: Owner) {
    forall a | Covers(ps, a) :: OwnerAt(m.taken, a) == Some(w)
  }

  /** Exactly the bytes of the pieces went from one owner to the other. */
  ghost predicate Handed(m: Memory, m': Memory, ps: seq<Piece>, from: Owner, to: Owner) {
    && m'.free == m.free && HeldAll(m, ps, from)
    && forall a :: OwnerAt(m'.taken, a) == if Covers(ps, a) then Some(to) else OwnerAt(m.taken, a)
  }

  /** One transfer succeeds exactly if the old owner has the piece. */
  lemma HandOne(m: Memory, p: Piece, from: Owner, to: Owner, lo: nat, hi: nat)
    requires Phys.Tiles(m, lo, hi) && p.pages > 0 && to != Nobody
    ensures var r := Phys.Transfer(m, from, to, p.phys, p.Bytes());
            && (r.Ok? <==> HeldAll(m, [p], from))
            && (r.Ok? ==> Phys.Tiles(r.value, lo, hi) && Handed(m, r.value, [p], from, to))
  {
    hide Phys.Tiles, OwnerAt;
    Phys.TransferExact(m, from, to, p.phys, p.Bytes(), lo, hi);
    var r := Phys.Transfer(m, from, to, p.phys, p.Bytes());
    assert r.Ok? ==> r.value.free == m.free;
    hide Phys.Transfer;
    forall a
      ensures Covers([p], a) <==> p.Has(a)
    {
      CoversOne(p, a);
    }
    assert Phys.HeldRun(m, from, p.phys, p.Bytes()) <==> HeldAll(m, [p], from) by {
      HeldRunIs(m, p, from);
    }
  }

  lemma HeldRunIs(m: Memory, p: Piece, w: Owner)
    requires forall a :: Covers([p], a) <==> p.Has(a)
    ensures Phys.HeldRun(m, w, p.phys, p.Bytes()) <==> HeldAll(m, [p], w)
  {
    hide OwnerAt, Covers;
    if HeldAll(m, [p], w) {
      forall x | p.phys <= x < p.phys + p.Bytes()
        ensures Phys.HeldBy(m, x, w)
      {
        assert Covers([p], x);
      }
    }
    if Phys.HeldRun(m, w, p.phys, p.Bytes()) {
      forall a | Covers([p], a)
        ensures OwnerAt(m.taken, a) == Some(w)
      {
        assert Phys.HeldBy(m, a, w);
      }
    }
  }

  /** What was handed over once cannot be handed over again, so the pieces are apart. */
  lemma HandBoth(m: Memory, m1: Memory, m2: Memory, ps: seq<Piece>, qs: seq<Piece>, from: Owner, to: Owner)
    requires Handed(m, m1, ps, from, to) && Handed(m1, m2, qs, from, to) && from != to
    ensures Handed(m, m2, ps + qs, from, to) && Apart(ps, qs)
  {
    hide OwnerAt, Covers;
    forall a
      ensures Covers(ps + qs, a) <==> Covers(ps, a) || Covers(qs, a)
    {
      CoversConcat(ps, qs, a);
    }
  }

  // ---------------------------------------------------------------------------
  // Taking the pages of one section
  // ---------------------------------------------------------------------------

  /** The loop over one section from address v on: every chunk goes from `from` to `to`. */
  function Collect(src: Space, m: Memory, from: Owner, to: Owner, v: nat, end: nat): Result<(Memory, seq<Piece>)>
    decreases end - v
  {
    if v >= end then Ok((m, []))
    else
      var c := ResolveWithSize(src, v);
      if c.None? || c.value.0 == 0 then Failed(Fault.NotMapped)
      else if c.value.1 % PAGE != 0 then Failed(PartialPage)
      else
        var n := Least(c.value.1, end - v);
        var t := Phys.Transfer(m, from, to, c.value.0, n);
        if t.Failed? then Failed(NotOwned)
        else
          var r := Collect(src, t.value, from, to, v + n, end);
          if r.Failed? then r else Ok((r.value.0, [Piece(c.value.0, n / PAGE)] + r.value.1))
  }

  /** Physical address behind a, zero if there is none. */
  ghost function Byte(src: Space, a: int): nat {
    if Translate(src, a).Some? then Translate(src, a).value.0 else 0
  }

  /** All of [v, end) is mapped, to memory of w. */
  ghost predicate Loadable(src: Space, m: Memory, w: Owner, v: nat, end: nat) {
    forall a | v <= a < end :: Byte(src, a) != 0 && OwnerAt(m.taken, Byte(src, a)) == Some(w)
  }

  /** [v, end) sees no physical byte twice. */
  ghost predicate OnePhysical(src: Space, v: nat, end: nat) {
    forall a, b | v <= a < b < end :: Byte(src, a) != Byte(src, b)
  }

  /** Chunks that reach into [v, end) end at page boundaries. */
  ghost predicate PagedChunks(src: Space, v: nat, end: nat) {
    forall i | 0 <= i < |src| :: v < end && src[i].start < end && v < src[i].End() ==> src[i].End() % PAGE == 0
  }

  /** The pieces are what src has from v on. */
  ghost predicate Backs(src: Space, v: nat, ps: seq<Piece>) {
    forall a | v <= a < v + Size(ps) :: Byte(src, a) == ByteAt(ps, a - v)
  }

  /** Of one chunk: its bytes are those of a piece. */
  lemma ChunkBytes(src: Space, v: nat)
    requires Ordered(src) && ResolveWithSize(src, v).Some?
    ensures var (p, n) := ResolveWithSize(src, v).value;
            forall a | v <= a < v + n :: Byte(src, a) == p + (a - v)
  {
    ResolveExact(src, v);
  }

  lemma UnresolvedByte(src: Space, v: nat)
    requires Ordered(src)
    ensures ResolveWithSize(src, v).None? ==> Byte(src, v) == 0
    ensures ResolveWithSize(src, v).Some? ==> Byte(src, v) == ResolveWithSize(src, v).value.0
  {
    ResolveExact(src, v);
  }

  /** The blocks that matter behind the first chunk are those that matter behind v, but for the first. */
  lemma ChunksBehind(src: Space, v: nat, n: nat, end: nat)
    requires Ordered(src) && ResolveWithSize(src, v).Some? && v % PAGE == 0
    requires v < end && n == Least(ResolveWithSize(src, v).value.1, end - v)
    ensures ResolveWithSize(src, v).value.1 % PAGE != 0 ==> !PagedChunks(src, v, end)
    ensures ResolveWithSize(src, v).value.1 % PAGE == 0 ==> (PagedChunks(src, v, end) <==> PagedChunks(src, v + n, end))
  {
    var i := UpperBound(src, v) - 1;
    var size := ResolveWithSize(src, v).value.1;
    assert src[i].End() == v + size && src[i].Has(v);
    SumPaged(v, size);
    if size % PAGE == 0 && PagedChunks(src, v + n, end) {
      forall j | 0 <= j < |src| && src[j].start < end && v < src[j].End()
        ensures src[j].End() % PAGE == 0
      {
        if j != i {
          BehindChunk(src, v, i, j);
        }
      }
    }
  }

  lemma BehindChunk(src: Space, v: nat, i: nat, j: nat)
    requires Ordered(src) && i < |src| && j < |src| && i != j && src[i].Has(v) && v < src[j].End()
    ensures src[i].End() <= src[j].start < src[j].End()
  {
  }

  lemma SumPaged(a: nat, b: nat)
    requires a % PAGE == 0
    ensures (a + b) % PAGE == 0 <==> b % PAGE == 0
  {
    var q, k := a / PAGE, b / PAGE;
    assert a + b == (q + k) * PAGE + b % PAGE;
  }

  lemma WholePages(n: nat)
    requires n % PAGE == 0
    ensures (n / PAGE) * PAGE == n
  {
  }

  /** Whether the rest can be loaded is the same question before and after the first piece is taken. */
  lemma RestLoadable(src: Space, m: Memory, m1: Memory, from: Owner, to: Owner, p: Piece, v: nat, end: nat)
    requires from != to && v + p.Bytes() <= end && p.phys != 0
    requires forall a | v <= a < v + p.Bytes() :: Byte(src, a) == p.phys + (a - v)
    requires Handed(m, m1, [p], from, to)
    ensures Loadable(src, m, from, v, end) && OnePhysical(src, v, end)
            <==> Loadable(src, m1, from, v + p.Bytes(), end) && OnePhysical(src, v + p.Bytes(), end)
  {
    hide OwnerAt, Covers, Byte;
    forall x
      ensures Covers([p], x) <==> p.Has(x)
    {
      CoversOne(p, x);
    }
    var next := v + p.Bytes();
    if Loadable(src, m, from, v, end) && OnePhysical(src, v, end) {
      forall b | next <= b < end
        ensures OwnerAt(m1.taken, Byte(src, b)) == Some(from)
      {
        var a := v + (Byte(src, b) - p.phys);
        assert v <= a < next ==> Byte(src, a) != Byte(src, b);
      }
    }
    if Loadable(src, m1, from, next, end) && OnePhysical(src, next, end) {
      forall b | next <= b < end
        ensures !p.Has(Byte(src, b)) && OwnerAt(m.taken, Byte(src, b)) == Some(from)
      {
        assert OwnerAt(m1.taken, Byte(src, b)) == Some(from);
      }
    }
  }

  lemma FirstPieceHeld(src: Space, m: Memory, from: Owner, p: Piece, v: nat, end: nat)
    requires v + p.Bytes() <= end && Loadable(src, m, from, v, end)
    requires forall a | v <= a < v + p.Bytes() :: Byte(src, a) == p.phys + (a - v)
    ensures HeldAll(m, [p], from)
  {
    hide OwnerAt, Covers, Byte;
    forall x | Covers([p], x)
      ensures OwnerAt(m.taken, x) == Some(from)
    {
      CoversOne(p, x);
      assert Byte(src, v + (x - p.phys)) == x;
    }
  }

  lemma BacksCons(src: Space, v: nat, p: Piece, ps: seq<Piece>)
    requires forall a | v <= a < v + p.Bytes() :: Byte(src, a) == p.phys + (a - v)
    requires Backs(src, v + p.Bytes(), ps)
    ensures Backs(src, v, [p] + ps) && Size([p] + ps) == p.Bytes() + Size(ps)
  {
    hide Byte;
    assert ([p] + ps)[1..] == ps;
  }

  lemma NoOverlapCons(p: Piece, ps: seq<Piece>)
    requires Apart([p], ps) && NoOverlap(ps)
    ensures NoOverlap([p] + ps)
  {
    assert ([p] + ps)[1..] == ps;
  }

  /** Everything that a successful pass over [v, end) achieves. */
  ghost predicate Collected(src: Space, m: Memory, m': Memory, ps: seq<Piece>, from: Owner, to: Owner, v: nat, end: nat) {
    && Handed(m, m', ps, from, to) && NoOverlap(ps) && Backs(src, v, ps) && Size(ps) == end - v
    && (forall p | p in ps :: p.pages > 0)
  }

  /** A section is taken exactly if it is mapped to pages of the caller, all different; the pieces
      are then the section's physical bytes in order, and exactly they changed hands. */
  lemma {:induction false} CollectExact(src: Space, m: Memory, from: Owner, to: Owner, v: nat, end: nat, lo: nat, hi: nat)
    requires Ordered(src) && Phys.Tiles(m, lo, hi) && from != to && to != Nobody
    requires v % PAGE == 0 && end % PAGE == 0 && v <= end
    ensures var r := Collect(src, m, from, to, v, end);
            && (r.Ok? <==> Loadable(src, m, from, v, end) && OnePhysical(src, v, end) && PagedChunks(src, v, end))
            && (r.Ok? ==> Phys.Tiles(r.value.0, lo, hi) && Collected(src, m, r.value.0, r.value.1, from, to, v, end))
    decreases end - v
  {
    if v == end {
      CollectNothing(src, m, from, to, v);
    } else {
      hide Ordered, Phys.Tiles, Phys.Transfer, ResolveWithSize, Byte, PagedChunks, Handed, NoOverlap, HeldAll;
      UnresolvedByte(src, v);
      var c := ResolveWithSize(src, v);
      if c.Some? && c.value.0 != 0 {
        var n := Least(c.value.1, end - v);
        ChunksBehind(src, v, n, end);
        if c.value.1 % PAGE == 0 {
          ChunkBytes(src, v);
          CollectMore(src, m, from, to, v, end, lo, hi, c.value.0, n);
        }
      } else {
        assert !Loadable(src, m, from, v, end);
      }
    }
  }

  lemma CollectNothing(src: Space, m: Memory, from: Owner, to: Owner, v: nat)
    requires v % PAGE == 0 && Ordered(src)
    ensures Collected(src, m, m, [], from, to, v, v)
    ensures PagedChunks(src, v, v)
  {
  }

  /** The case where the first chunk is fit to be transferred. */
  lemma {:induction false} CollectMore(src: Space, m: Memory, from: Owner, to: Owner, v: nat, end: nat, lo: nat, hi: nat, p: nat, n: nat)
    requires Ordered(src) && Phys.Tiles(m, lo, hi) && from != to && to != Nobody
    requires v % PAGE == 0 && end % PAGE == 0 && v < end
    requires ResolveWithSize(src, v).Some? && p == ResolveWithSize(src, v).value.0 && p != 0
    requires n == Least(ResolveWithSize(src, v).value.1, end - v) && ResolveWithSize(src, v).value.1 % PAGE == 0
    requires forall a | v <= a < v + n :: Byte(src, a) == p + (a - v)
    requires PagedChunks(src, v, end) <==> PagedChunks(src, v + n, end)
    ensures var r := Collect(src, m, from, to, v, end);
            && (r.Ok? <==> Loadable(src, m, from, v, end) && OnePhysical(src, v, end) && PagedChunks(src, v, end))
            && (r.Ok? ==> Phys.Tiles(r.value.0, lo, hi) && Collected(src, m, r.value.0, r.value.1, from, to, v, end))
    decreases end - v, 0
  {
    hide Ordered, Phys.Tiles, Phys.Transfer, ResolveWithSize, Byte, PagedChunks, Handed, NoOverlap, HeldAll,
         Loadable, OnePhysical, Backs, Apart;
    SumPaged(v, n);
    SumPaged(v, end - v);
    WholePages(n);
    var piece := Piece(p, n / PAGE);
    HandOne(m, piece, from, to, lo, hi);
    var t := Phys.Transfer(m, from, to, p, n);
    if t.Ok? {
      RestLoadable(src, m, t.value, from, to, piece, v, end);
      CollectExact(src, t.value, from, to, v + n, end, lo, hi);
      var r := Collect(src, t.value, from, to, v + n, end);
      if r.Ok? {
        HandBoth(m, t.value, r.value.0, [piece], r.value.1, from, to);
        NoOverlapCons(piece, r.value.1);
        BacksCons(src, v, piece, r.value.1);
      }
    } else if Loadable(src, m, from, v, end) {
      FirstPieceHeld(src, m, from, piece, v, end);
    }
  }

  // ---------------------------------------------------------------------------
  // Taking the pages of all sections
  // ---------------------------------------------------------------------------

  function CollectAll(src: Space, m: Memory, from: Owner, to: Owner, ss: seq<Section>): Result<(Memory, seq<seq<Piece>>)>
    decreases |ss|
  {
    if ss == [] then Ok((m, []))
    else
      var r := Collect(src, m, from, to, ss[0].data, ss[0].data + ss[0].Bytes());
      if r.Failed? then Failed(r.fault)
      else
        var rest := CollectAll(src, r.value.0, from, to, ss[1..]);
        if rest.Failed? then rest else Ok((rest.value.0, [r.value.1] + rest.value.1))
  }

  function Flat(pss: seq<seq<Piece>>): seq<Piece> {
    if pss == [] then [] else pss[0] + Flat(pss[1..])
  }

  predicate InSection(s: Section, a: int) {
    s.data <= a < s.data + s.Bytes()
  }

  ghost predicate SectionOk(src: Space, m: Memory, w: Owner, s: Section) {
    var end := s.data + s.Bytes();
    Loadable(src, m, w, s.data, end) && OnePhysical(src, s.data, end) && PagedChunks(src, s.data, end)
  }

  /** No physical byte is in both sections. */
  ghost predicate FramesApart(src: Space, s: Section, t: Section) {
    forall a, b | InSection(s, a) && InSection(t, b) :: Byte(src, a) != Byte(src, b)
  }

  /** What the caller must provide: sections of its own, whole pages, no physical byte twice. */
  ghost predicate AllLoadable(src: Space, m: Memory, w: Owner, ss: seq<Section>) {
    ss == [] || (SectionOk(src, m, w, ss[0]) && (forall t | t in ss[1..] :: FramesApart(src, ss[0], t))
                 && AllLoadable(src, m, w, ss[1..]))
  }

  ghost predicate AllBacked(src: Space, ss: seq<Section>, pss: seq<seq<Piece>>) {
    && |pss| == |ss|
    && forall k | 0 <= k < |ss| :: Backs(src, ss[k].data, pss[k]) && Size(pss[k]) == ss[k].Bytes()
  }

  predicate PageAligned(ss: seq<Section>) {
    forall s | s in ss :: s.data % PAGE == 0
  }

  /** A byte is covered by the pieces of a section exactly if it is behind one of its addresses. */
  lemma CoveredIs(src: Space, s: Section, ps: seq<Piece>, x: nat)
    requires Backs(src, s.data, ps) && Size(ps) == s.Bytes()
    ensures Covers(ps, x) <==> exists a :: s.data <= a < s.data + s.Bytes() && Byte(src, a) == x
  {
    hide Byte;
    if Covers(ps, x) {
      var j := CoveredByte(ps, x);
      assert Byte(src, s.data + j) == x;
    }
    if a :| s.data <= a < s.data + s.Bytes() && Byte(src, a) == x {
      ByteCovered(ps, a - s.data);
    }
  }

  /** After section s was taken, t can still be taken exactly if it could before and shares no byte with s. */
  lemma OtherSection(src: Space, m: Memory, m1: Memory, from: Owner, to: Owner, s: Section, ps: seq<Piece>, t: Section)
    requires from != to && Handed(m, m1, ps, from, to) && Backs(src, s.data, ps) && Size(ps) == s.Bytes()
    ensures Loadable(src, m1, from, t.data, t.data + t.Bytes())
            <==> Loadable(src, m, from, t.data, t.data + t.Bytes()) && FramesApart(src, s, t)
  {
    hide OwnerAt, Covers, Byte, Backs;
    forall b | t.data <= b < t.data + t.Bytes()
      ensures OwnerAt(m1.taken, Byte(src, b)) == Some(from)
              <==> OwnerAt(m.taken, Byte(src, b)) == Some(from) && !Covers(ps, Byte(src, b))
      ensures Covers(ps, Byte(src, b))
              <==> exists a :: s.data <= a < s.data + s.Bytes() && Byte(src, a) == Byte(src, b)
    {
      CoveredIs(src, s, ps, Byte(src, b));
    }
    if Loadable(src, m1, from, t.data, t.data + t.Bytes()) {
      forall a, b | InSection(s, a) && InSection(t, b)
        ensures Byte(src, a) != Byte(src, b)
      {
        assert OwnerAt(m1.taken, Byte(src, b)) == Some(from);
      }
    }
  }

  lemma {:induction false} OtherSections(src: Space, m: Memory, m1: Memory, from: Owner, to: Owner, s: Section, ps: seq<Piece>, ts: seq<Section>)
    requires from != to && Handed(m, m1, ps, from, to) && Backs(src, s.data, ps) && Size(ps) == s.Bytes()
    ensures AllLoadable(src, m1, from, ts)
            <==> AllLoadable(src, m, from, ts) && forall t | t in ts :: FramesApart(src, s, t)
  {
    hide Handed, Backs, Loadable, FramesApart, OnePhysical, PagedChunks;
    if ts != [] {
      OtherSection(src, m, m1, from, to, s, ps, ts[0]);
      OtherSections(src, m, m1, from, to, s, ps, ts[1..]);
      assert forall t | t in ts :: t == ts[0] || t in ts[1..];
    }
  }

  lemma FlatCons(ps: seq<Piece>, pss: seq<seq<Piece>>)
    ensures Flat([ps] + pss) == ps + Flat(pss)
  {
    assert ([ps] + pss)[1..] == pss;
  }

  lemma AllBackedCons(src: Space, ss: seq<Section>, ps: seq<Piece>, pss: seq<seq<Piece>>)
    requires ss != [] && Backs(src, ss[0].data, ps) && Size(ps) == ss[0].Bytes() && AllBacked(src, ss[1..], pss)
    ensures AllBacked(src, ss, [ps] + pss)
  {
    hide Backs;
    var r := [ps] + pss;
    forall k | 0 <= k < |ss|
      ensures Backs(src, ss[k].data, r[k]) && Size(r[k]) == ss[k].Bytes()
    {
      assert k > 0 ==> r[k] == pss[k - 1] && ss[k] == ss[1..][k - 1];
    }
  }

  /** All sections are taken exactly if the caller provides them properly; their bytes, and no
      others, then change hands. */
  lemma {:induction false} CollectAllExact(src: Space, m: Memory, from: Owner, to: Owner, ss: seq<Section>, lo: nat, hi: nat)
    requires Ordered(src) && Phys.Tiles(m, lo, hi) && from != to && to != Nobody && PageAligned(ss)
    ensures var r := CollectAll(src, m, from, to, ss);
            && (r.Ok? <==> AllLoadable(src, m, from, ss))
            && (r.Ok? ==>
                  && Phys.Tiles(r.value.0, lo, hi) && Handed(m, r.value.0, Flat(r.value.1), from, to)
                  && NoOverlap(Flat(r.value.1)) && AllBacked(src, ss, r.value.1)
                  && forall p | p in Flat(r.value.1) :: p.pages > 0)
    decreases |ss|
  {
    hide Ordered, Phys.Tiles, Collect, Handed, NoOverlap, Backs, Apart, Loadable, OnePhysical, PagedChunks, FramesApart, AllBacked;
    if ss == [] {
      NothingHanded(src, m, from, to);
    } else {
      var s := ss[0];
      SumPaged(s.data, s.Bytes());
      CollectExact(src, m, from, to, s.data, s.data + s.Bytes(), lo, hi);
      var r := Collect(src, m, from, to, s.data, s.data + s.Bytes());
      if r.Ok? {
        var (m1, ps) := r.value;
        OtherSections(src, m, m1, from, to, s, ps, ss[1..]);
        CollectAllExact(src, m1, from, to, ss[1..], lo, hi);
        var rest := CollectAll(src, m1, from, to, ss[1..]);
        if rest.Ok? {
          FlatCons(ps, rest.value.1);
          HandBoth(m, m1, rest.value.0, ps, Flat(rest.value.1), from, to);
          NoOverlapConcat(ps, Flat(rest.value.1));
          AllBackedCons(src, ss, ps, rest.value.1);
        }
      }
    }
  }

  lemma NothingHanded(src: Space, m: Memory, from: Owner, to: Owner)
    ensures Handed(m, m, Flat([]), from, to) && NoOverlap(Flat([])) && AllBacked(src, [], [])
  {
  }

  // ---------------------------------------------------------------------------
  // Unmapping the sections from the caller
  // ---------------------------------------------------------------------------

  function UnmapAll(src: Space, ss: seq<Section>): Result<Space>
    decreases |ss|
  {
    if ss == [] then Ok(src)
    else
      var (r, src1) := Unmap(src, ss[0].data, ss[0].Bytes());
      if r == Success then UnmapAll(src1, ss[1..]) else Failed(Fault.NotUnmapped)
  }

  /** src' is src without all the sections. */
  ghost predicate Stripped(src: Space, src': Space, ss: seq<Section>) {
    && (forall s, a | s in ss && InSection(s, a) :: Translate(src', a) == None)
    && (forall a :: (forall s | s in ss :: !InSection(s, a)) ==> Translate(src', a) == Translate(src, a))
  }

  ghost predicate DisjointFrom(s: Section, t: Section) {
    forall a :: !(InSection(s, a) && InSection(t, a))
  }

  /** Mapped throughout, and disjoint. */
  ghost predicate Removable(src: Space, ss: seq<Section>) {
    ss == [] || (FullyMapped(src, ss[0].data, ss[0].Bytes()) && (forall t | t in ss[1..] :: DisjointFrom(ss[0], t))
                 && Removable(src, ss[1..]))
  }

  lemma {:induction false} RemovableAfter(src: Space, src1: Space, s: Section, ts: seq<Section>)
    requires Removable(src, ts) && Without(src, src1, s.data, s.Bytes()) && forall t | t in ts :: DisjointFrom(s, t)
    ensures Removable(src1, ts)
  {
    hide Translate;
    if ts != [] {
      var t := ts[0];
      forall a | t.data <= a < t.data + t.Bytes()
        ensures Translate(src1, a).Some?
      {
        assert DisjointFrom(s, t);
        assert InSection(t, a) && !InSection(s, a);
        assert Translate(src, a).Some?;
      }
      RemovableAfter(src, src1, s, ts[1..]);
    }
  }

  lemma StrippedCons(src: Space, src1: Space, src2: Space, ss: seq<Section>)
    requires ss != [] && Without(src, src1, ss[0].data, ss[0].Bytes()) && Stripped(src1, src2, ss[1..])
    ensures Stripped(src, src2, ss)
  {
    hide Translate;
    forall s, a | s in ss && InSection(s, a)
      ensures Translate(src2, a) == None
    {
      if s !in ss[1..] {
        assert s == ss[0];
        assert Translate(src1, a) == None;
        if t :| t in ss[1..] && InSection(t, a) {
          assert Translate(src2, a) == None;
        }
      }
    }
    forall a | forall s | s in ss :: !InSection(s, a)
      ensures Translate(src2, a) == Translate(src, a)
    {
      assert !InSection(ss[0], a);
      assert forall s | s in ss[1..] :: s in ss;
      assert Translate(src1, a) == Translate(src, a);
    }
  }

  lemma {:induction false} UnmapAllExact(src: Space, ss: seq<Section>)
    requires Ordered(src) && Removable(src, ss)
    ensures var r := UnmapAll(src, ss);
            && (r.Ok? <==> forall s | s in ss :: s.pages > 0)
            && (r.Ok? ==> Ordered(r.value) && Stripped(src, r.value, ss))
    decreases |ss|
  {
    hide Ordered, Unmap, Stripped, Without, DisjointFrom;
    if ss == [] {
      assert Stripped(src, src, ss) by { NothingStripped(src); }
    } else {
      var s := ss[0];
      assert s in ss;
      if s.pages == 0 {
        ZeroPages(src, s);
      } else {
        UnmapExact(src, s.data, s.Bytes());
        var src1 := Unmap(src, s.data, s.Bytes()).1;
        RemovableAfter(src, src1, s, ss[1..]);
        UnmapAllExact(src1, ss[1..]);
        if UnmapAll(src1, ss[1..]).Ok? {
          StrippedCons(src, src1, UnmapAll(src1, ss[1..]).value, ss);
        }
        assert forall t | t in ss :: t == s || t in ss[1..];
      }
    }
  }

  lemma NothingStripped(src: Space)
    ensures Stripped(src, src, [])
  {
  }

  lemma ZeroPages(src: Space, s: Section)
    requires s.pages == 0
    ensures Unmap(src, s.data, s.Bytes()).0 == ZeroSize
  {
  }

  /** Sections that can be taken can also be unmapped. */
  lemma {:induction false} LoadableIsRemovable(src: Space, m: Memory, w: Owner, ss: seq<Section>)
    requires AllLoadable(src, m, w, ss)
    ensures Removable(src, ss)
    decreases |ss|
  {
    hide OwnerAt, Byte;
    if ss != [] {
      LoadableIsRemovable(src, m, w, ss[1..]);
      SectionMapped(src, m, w, ss[0]);
      forall t | t in ss[1..]
        ensures DisjointFrom(ss[0], t)
      {
        assert FramesApart(src, ss[0], t);
      }
    }
  }

  lemma SectionMapped(src: Space, m: Memory, w: Owner, s: Section)
    requires SectionOk(src, m, w, s)
    ensures FullyMapped(src, s.data, s.Bytes())
  {
    forall a | s.data <= a < s.data + s.Bytes()
      ensures Translate(src, a).Some?
    {
      assert Byte(src, a) != 0;
    }
  }

  // ---------------------------------------------------------------------------
  // SVCCreateCodeSet
  // ---------------------------------------------------------------------------

  /** text_phys, ro_phys and data_phys, and the block for zero-initialised data. */
  datatype CodeSet = CodeSet(pieces: seq<seq<Piece>>, bss: seq<Piece>)

  /** Memory for `bss` pages of zero-initialised data. */
  function AddBss(m: Memory, owner: Owner, bss: nat): Result<(seq<Piece>, Memory)> {
    if bss == 0 then Ok(([], m))
    else
      var (p, m') := Phys.Allocate(m, owner, bss * PAGE);
      if p.None? then Failed(NoMemory)
      else Ok((if p.value != 0 then [Piece(p.value, bss)] else [], m'))
  }

  function CreateCodeSet(src: Space, m: Memory, caller: Owner, owner: Owner, ss: seq<Section>, bss: nat)
    : Result<(CodeSet, Space, Memory)>
  {
    if !PageAligned(ss) then Failed(BadSection)
    else
      var r := CollectAll(src, m, caller, owner, ss);
      if r.Failed? then Failed(r.fault)
      else
        var b := AddBss(r.value.0, owner, bss);
        if b.Failed? then Failed(b.fault)
        else
          var u := UnmapAll(src, ss);
          if u.Failed? then Failed(u.fault)
          else Ok((CodeSet(r.value.1, b.value.0), u.value, b.value.1))
  }

  /** All pieces of a code set. */
  function AllPieces(cs: CodeSet): seq<Piece> {
    Flat(cs.pieces) + cs.bss
  }

  /** Distinct, non-empty pieces that w holds. */
  ghost predicate Holds(m: Memory, ps: seq<Piece>, w: Owner) {
    HeldAll(m, ps, w) && NoOverlap(ps) && forall p | p in ps :: p.pages > 0
  }

  /** Only the given pieces may have changed their owner. */
  ghost predicate OthersKeep(m: Memory, m': Memory, ps: seq<Piece>) {
    forall a :: !Covers(ps, a) ==> OwnerAt(m'.taken, a) == OwnerAt(m.taken, a)
  }

  ghost predicate HasRoom(m: Memory, bss: nat) {
    bss == 0 || exists a: nat :: Phys.FreeRun(m, a, bss * PAGE)
  }

  /** One run of pages that was free before, or nothing if there is no zero-initialised data. */
  ghost predicate FreshBss(m: Memory, ps: seq<Piece>, bss: nat) {
    && |ps| == (if bss == 0 then 0 else 1)
    && forall b | b in ps :: b.pages == bss && forall a | b.Has(a) :: Phys.IsFree(m, a)
  }

  lemma AddBssExact(m: Memory, owner: Owner, bss: nat, ps: seq<Piece>, lo: nat, hi: nat)
    requires Phys.Tiles(m, lo, hi) && 0 < lo && owner != Nobody && Holds(m, ps, owner)
    ensures var r := AddBss(m, owner, bss);
            && (r.Ok? <==> HasRoom(m, bss))
            && (r.Ok? ==>
                  && Phys.Tiles(r.value.1, lo, hi) && Size(r.value.0) == bss * PAGE && FreshBss(m, r.value.0, bss)
                  && Holds(r.value.1, ps + r.value.0, owner) && OthersKeep(m, r.value.1, r.value.0))
  {
    if bss == 0 {
      assert ps + [] == ps;
    } else {
      Phys.AllocateExact(m, owner, bss * PAGE, lo, hi);
      var (p, m') := Phys.Allocate(m, owner, bss * PAGE);
      if p.Some? {
        FreshBlock(m, m', p.value, bss, owner, ps, lo, hi);
      }
    }
  }

  /** The memory for zero-initialised data is lost, taken but no part of the code set, exactly if it starts at
      physical address zero; that is where the allocator puts it if there is room. */
  lemma BssLostExactly(m: Memory, owner: Owner, bss: nat, lo: nat, hi: nat)
    requires Phys.Tiles(m, lo, hi) && owner != Nobody && bss > 0 && AddBss(m, owner, bss).Ok?
    ensures AddBss(m, owner, bss).value.0 == [] <==> Phys.FreeRun(m, 0, bss * PAGE)
    ensures AddBss(m, owner, bss).value.0 == [] ==> forall a | 0 <= a < bss * PAGE :: Phys.HeldBy(AddBss(m, owner, bss).value.1, a, owner)
  {
    Phys.AllocateExact(m, owner, bss * PAGE, lo, hi);
  }

  /** An allocated block is none of the pieces that were held before. */
  lemma FreshBlock(m: Memory, m': Memory, p: nat, bss: nat, owner: Owner, ps: seq<Piece>, lo: nat, hi: nat)
    requires Phys.Tiles(m, lo, hi) && 0 < lo && bss > 0 && Holds(m, ps, owner)
    requires Phys.FreeRun(m, p, bss * PAGE) && Phys.Retiled(m, m', p, bss * PAGE, None, Some(owner))
    ensures p > 0 && Size([Piece(p, bss)]) == bss * PAGE && FreshBss(m, [Piece(p, bss)], bss)
    ensures Holds(m', ps + [Piece(p, bss)], owner) && OthersKeep(m, m', [Piece(p, bss)])
  {
    var b := Piece(p, bss);
    assert [b][1..] == [];
    hide OwnerAt, NoOverlap;
    forall a
      ensures Covers([b], a) <==> b.Has(a)
      ensures Covers(ps + [b], a) <==> Covers(ps, a) || b.Has(a)
      ensures b.Has(a) ==> lo <= a && !Covers(ps, a)
    {
      CoversOne(b, a);
      CoversConcat(ps, [b], a);
      assert b.Has(a) ==> Phys.IsFree(m, a);
    }
    assert b.Has(p);
    OnePiece(b);
    NoOverlapConcat(ps, [b]);
  }

  lemma OnePiece(b: Piece)
    ensures NoOverlap([b])
  {
    assert [b][1..] == [];
  }

  lemma HandedHolds(m: Memory, m': Memory, ps: seq<Piece>, from: Owner, to: Owner)
    requires Handed(m, m', ps, from, to) && NoOverlap(ps) && forall p | p in ps :: p.pages > 0
    ensures Holds(m', ps, to) && OthersKeep(m, m', ps)
  {
    hide OwnerAt, Covers, NoOverlap;
  }

  lemma KeepBoth(m: Memory, m1: Memory, m2: Memory, ps: seq<Piece>, qs: seq<Piece>)
    requires OthersKeep(m, m1, ps) && OthersKeep(m1, m2, qs)
    ensures OthersKeep(m, m2, ps + qs)
  {
    hide OwnerAt, Covers;
    forall a
      ensures Covers(ps + qs, a) <==> Covers(ps, a) || Covers(qs, a)
    {
      CoversConcat(ps, qs, a);
    }
  }

  lemma SameRoom(m: Memory, m': Memory, bss: nat)
    requires m'.free == m.free
    ensures HasRoom(m', bss) <==> HasRoom(m, bss)
    ensures forall ps :: FreshBss(m', ps, bss) <==> FreshBss(m, ps, bss)
  {
    forall a: nat, n: nat
      ensures Phys.FreeRun(m', a, n) <==> Phys.FreeRun(m, a, n)
    {
      assert forall x :: Phys.IsFree(m', x) <==> Phys.IsFree(m, x);
    }
  }

  /** A code set is created exactly if the sections are non-empty, page-aligned, mapped to whole
      pages of the caller without repetition, and there is room for the zero-initialised data.
      The pieces then are the sections' bytes in order, held by the code set; the caller has
      lost exactly the sections. */
  lemma CodeSetExact(src: Space, m: Memory, caller: Owner, owner: Owner, ss: seq<Section>, bss: nat, lo: nat, hi: nat)
    requires Ordered(src) && Phys.Tiles(m, lo, hi) && 0 < lo && caller != owner && owner != Nobody
    ensures var r := CreateCodeSet(src, m, caller, owner, ss, bss);
            && (r.Ok? <==> PageAligned(ss) && AllLoadable(src, m, caller, ss)
                           && (forall s | s in ss :: s.pages > 0) && HasRoom(m, bss))
            && (r.Ok? ==>
                  var (cs, src', m') := r.value;
                  && AllBacked(src, ss, cs.pieces) && Size(cs.bss) == bss * PAGE && FreshBss(m, cs.bss, bss)
                  && Ordered(src') && Stripped(src, src', ss)
                  && Phys.Tiles(m', lo, hi) && HeldAll(m, Flat(cs.pieces), caller)
                  && Holds(m', AllPieces(cs), owner) && OthersKeep(m, m', AllPieces(cs)))
  {
    if PageAligned(ss) {
      hide Ordered, Phys.Tiles, CollectAll, AddBss, UnmapAll, NoOverlap, AllLoadable, AllBacked, Holds, OthersKeep,
           HasRoom, Stripped, HeldAll, PageAligned, FreshBss;
      CollectAllExact(src, m, caller, owner, ss, lo, hi);
      var r := CollectAll(src, m, caller, owner, ss);
      if r.Ok? {
        var (m1, pss) := r.value;
        HandedHolds(m, m1, Flat(pss), caller, owner);
        SameRoom(m, m1, bss);
        AddBssExact(m1, owner, bss, Flat(pss), lo, hi);
        LoadableIsRemovable(src, m, caller, ss);
        UnmapAllExact(src, ss);
        var b := AddBss(m1, owner, bss);
        if b.Ok? {
          KeepBoth(m, m1, b.value.1, Flat(pss), b.value.0);
        }
      }
    }
  }

  // ---------------------------------------------------------------------------
  // SVCCreateProcess
  // ---------------------------------------------------------------------------

  /** Where a run of pieces goes in the new process. */
  datatype Segment = Segment(vaddr: nat, perms: Permissions, pieces: seq<Piece>) {
    predicate Has(a: int) { vaddr <= a < vaddr + Size(pieces) }
  }

  /** One segment: the answer of MapVirtualMemory is ignored. */
  function MapPieces(vm: Space, m: Memory, from: Owner, to: Owner, v: nat, perms: Permissions, ps: seq<Piece>): Result<(Space, Memory)>
    decreases |ps|
  {
    if ps == [] then Ok((vm, m))
    else
      var vm1 := Map(vm, ps[0].phys, ps[0].Bytes(), v, perms).1;
      var t := Phys.Transfer(m, from, to, ps[0].phys, ps[0].Bytes());
      if t.Failed? then Failed(NotOwned)
      else MapPieces(vm1, t.value, from, to, v + ps[0].Bytes(), perms, ps[1..])
  }

  function MapSegments(vm: Space, m: Memory, from: Owner, to: Owner, segs: seq<Segment>): Result<(Space, Memory)>
    decreases |segs|
  {
    if segs == [] then Ok((vm, m))
    else
      var r := MapPieces(vm, m, from, to, segs[0].vaddr, segs[0].perms, segs[0].pieces);
      if r.Failed? then r else MapSegments(r.value.0, r.value.1, from, to, segs[1..])
  }

  function SegmentPieces(segs: seq<Segment>): seq<Piece> {
    if segs == [] then [] else segs[0].pieces + SegmentPieces(segs[1..])
  }

  /** Mapped addresses keep their translation. */
  ghost predicate Keeps(vm: Space, vm': Space) {
    forall a | Translate(vm, a).Some? :: Translate(vm', a) == Translate(vm, a)
  }

  /** The segment is where it belongs. */
  ghost predicate Placed(vm: Space, s: Segment) {
    forall a | s.Has(a) :: Translate(vm, a) == Some((ByteAt(s.pieces, a - s.vaddr), s.perms))
  }

  /** Nothing changed outside the segment. */
  ghost predicate Within(vm: Space, vm': Space, s: Segment) {
    forall a | !s.Has(a) :: Translate(vm', a) == Translate(vm, a)
  }

  /** vm' is vm with the segment. */
  ghost predicate Adds(vm: Space, vm': Space, s: Segment) {
    Placed(vm', s) && Within(vm, vm', s)
  }

  lemma MapKeeps(vm: Space, phys: nat, size: nat, v: nat, perms: Permissions)
    requires Ordered(vm)
    ensures var vm' := Map(vm, phys, size, v, perms).1;
            Ordered(vm') && Keeps(vm, vm')
  {
    MapExact(vm, phys, size, v, perms);
    hide Ordered, Map, Translate;
    var (r, vm') := Map(vm, phys, size, v, perms);
    if r == Success {
      forall a | Translate(vm, a).Some?
        ensures Translate(vm', a) == Translate(vm, a)
      {
        assert !(v <= a < v + size);
      }
    }
  }

  lemma HeldRest(m: Memory, m1: Memory, ps: seq<Piece>, from: Owner, to: Owner)
    requires ps != [] && Holds(m, ps, from) && Handed(m, m1, [ps[0]], from, to)
    ensures Holds(m1, ps[1..], from)
  {
    hide OwnerAt;
    forall a | Covers(ps[1..], a)
      ensures OwnerAt(m1.taken, a) == Some(from)
    {
      assert Covers(ps, a);
      assert !Covers([ps[0]], a);
    }
  }

  lemma HeldFirst(m: Memory, ps: seq<Piece>, from: Owner)
    requires ps != [] && Holds(m, ps, from)
    ensures HeldAll(m, [ps[0]], from) && ps[0].pages > 0
  {
    forall a | Covers([ps[0]], a)
      ensures Covers(ps, a)
    {
      CoversOne(ps[0], a);
    }
    assert ps[0] in ps;
  }

  /** Pieces that the old owner holds are all handed over, and appear in the map where there is room. */
  lemma {:induction false} MapPiecesExact(vm: Space, m: Memory, from: Owner, to: Owner, s: Segment, lo: nat, hi: nat)
    requires Ordered(vm) && Phys.Tiles(m, lo, hi) && from != to && to != Nobody && Holds(m, s.pieces, from)
    ensures var r := MapPieces(vm, m, from, to, s.vaddr, s.perms, s.pieces);
            && r.Ok? && Ordered(r.value.0) && Keeps(vm, r.value.0) && Within(vm, r.value.0, s)
            && Phys.Tiles(r.value.1, lo, hi) && Handed(m, r.value.1, s.pieces, from, to)
            && (Unmapped(vm, s.vaddr, Size(s.pieces)) ==> Adds(vm, r.value.0, s))
    decreases |s.pieces|
  {
    hide Ordered, Phys.Tiles, Phys.Transfer, Map, Handed, Holds, Keeps, HeldAll, Adds, Unmapped, Within;
    var ps := s.pieces;
    if ps == [] {
      NothingAdded(vm, m, from, to, s);
    } else {
      HeldFirst(m, ps, from);
      HandOne(m, ps[0], from, to, lo, hi);
      var m1 := Phys.Transfer(m, from, to, ps[0].phys, ps[0].Bytes()).value;
      HeldRest(m, m1, ps, from, to);
      var vm1 := Map(vm, ps[0].phys, ps[0].Bytes(), s.vaddr, s.perms).1;
      MapKeeps(vm, ps[0].phys, ps[0].Bytes(), s.vaddr, s.perms);
      var rest := Segment(s.vaddr + ps[0].Bytes(), s.perms, ps[1..]);
      MapPiecesExact(vm1, m1, from, to, rest, lo, hi);
      var (vm2, m2) := MapPieces(vm1, m1, from, to, rest.vaddr, s.perms, ps[1..]).value;
      assert [ps[0]] + ps[1..] == ps;
      HandBoth(m, m1, m2, [ps[0]], ps[1..], from, to);
      KeepsThen(vm, vm1, vm2);
      MapWithin(vm, s);
      WithinThen(vm, vm1, vm2, s, rest);
      if Unmapped(vm, s.vaddr, Size(ps)) {
        FirstAdded(vm, s);
        AddsThen(vm, vm1, vm2, s, rest);
      }
    }
  }

  lemma NothingAdded(vm: Space, m: Memory, from: Owner, to: Owner, s: Segment)
    requires s.pieces == []
    ensures Keeps(vm, vm) && Handed(m, m, [], from, to) && Adds(vm, vm, s) && Within(vm, vm, s)
  {
  }

  lemma MapWithin(vm: Space, s: Segment)
    requires Ordered(vm) && s.pieces != []
    ensures Within(vm, Map(vm, s.pieces[0].phys, s.pieces[0].Bytes(), s.vaddr, s.perms).1, s)
  {
    hide Ordered, Map, Translate;
    MapExact(vm, s.pieces[0].phys, s.pieces[0].Bytes(), s.vaddr, s.perms);
  }

  lemma WithinThen(vm: Space, vm1: Space, vm2: Space, s: Segment, rest: Segment)
    requires s.pieces != [] && rest == Segment(s.vaddr + s.pieces[0].Bytes(), s.perms, s.pieces[1..])
    requires Within(vm, vm1, s) && Within(vm1, vm2, rest)
    ensures Within(vm, vm2, s)
  {
    hide Translate;
    assert Size(s.pieces) == s.pieces[0].Bytes() + Size(rest.pieces);
    assert forall a | !s.Has(a) :: !rest.Has(a);
  }

  lemma KeepsThen(vm: Space, vm1: Space, vm2: Space)
    requires Keeps(vm, vm1) && Keeps(vm1, vm2)
    ensures Keeps(vm, vm2)
  {
    hide Translate;
  }

  /** The first piece finds its room, and leaves the rest of it free. */
  lemma FirstAdded(vm: Space, s: Segment)
    requires Ordered(vm) && s.pieces != [] && s.pieces[0].pages > 0 && Unmapped(vm, s.vaddr, Size(s.pieces))
    ensures var p := s.pieces[0];
            var vm1 := Map(vm, p.phys, p.Bytes(), s.vaddr, s.perms).1;
            && With(vm, vm1, s.vaddr, p.Bytes(), p.phys, s.perms)
            && Unmapped(vm1, s.vaddr + p.Bytes(), Size(s.pieces[1..]))
  {
    hide Ordered, Map, Translate;
    var p := s.pieces[0];
    assert Unmapped(vm, s.vaddr, p.Bytes());
    MapExact(vm, p.phys, p.Bytes(), s.vaddr, s.perms);
  }

  lemma AddsThen(vm: Space, vm1: Space, vm2: Space, s: Segment, rest: Segment)
    requires s.pieces != [] && rest == Segment(s.vaddr + s.pieces[0].Bytes(), s.perms, s.pieces[1..])
    requires With(vm, vm1, s.vaddr, s.pieces[0].Bytes(), s.pieces[0].phys, s.perms) && Adds(vm1, vm2, rest)
    ensures Adds(vm, vm2, s)
  {
    hide Translate;
    var n := s.pieces[0].Bytes();
    assert Size(s.pieces) == n + Size(rest.pieces);
    forall a | s.Has(a)
      ensures Translate(vm2, a) == Some((ByteAt(s.pieces, a - s.vaddr), s.perms))
    {
      if a < s.vaddr + n {
        assert !rest.Has(a);
      } else {
        assert rest.Has(a);
      }
    }
    forall a | !s.Has(a)
      ensures Translate(vm2, a) == Translate(vm, a)
    {
      assert !rest.Has(a);
    }
  }

  // ---------------------------------------------------------------------------
  // All segments
  // ---------------------------------------------------------------------------

  ghost predicate TargetsApart(s: Segment, t: Segment) {
    forall a :: !(s.Has(a) && t.Has(a))
  }

  /** No two segments claim the same address. */
  ghost predicate NoClash(segs: seq<Segment>) {
    segs == [] || ((forall t | t in segs[1..] :: TargetsApart(segs[0], t)) && NoClash(segs[1..]))
  }

  /** No segment claims the address. */
  ghost predicate Outside(segs: seq<Segment>, a: int) {
    forall s | s in segs :: !s.Has(a)
  }

  ghost predicate AllPlaced(vm: Space, segs: seq<Segment>) {
    forall s | s in segs :: Placed(vm, s)
  }

  lemma HoldsSplit(m: Memory, ps: seq<Piece>, qs: seq<Piece>, w: Owner)
    requires Holds(m, ps + qs, w)
    ensures Holds(m, ps, w) && Holds(m, qs, w) && Apart(ps, qs)
  {
    NoOverlapSplit(ps, qs);
    hide OwnerAt, NoOverlap, Covers;
    forall a
      ensures Covers(ps + qs, a) <==> Covers(ps, a) || Covers(qs, a)
    {
      CoversConcat(ps, qs, a);
    }
    assert forall p | p in ps || p in qs :: p in ps + qs;
  }

  lemma {:induction false} NoOverlapSplit(ps: seq<Piece>, qs: seq<Piece>)
    requires NoOverlap(ps + qs)
    ensures NoOverlap(ps) && NoOverlap(qs) && Apart(ps, qs)
  {
    if ps == [] {
      assert ps + qs == qs;
    } else {
      var rest := ps[1..];
      assert (ps + qs)[1..] == rest + qs;
      NoOverlapSplit(rest, qs);
      assert ps == [ps[0]] + rest;
      forall a
        ensures !(Covers([ps[0]], a) && Covers(rest, a)) && !(Covers(ps, a) && Covers(qs, a))
      {
        CoversConcat([ps[0]], rest, a);
        CoversConcat(rest, qs, a);
        assert !(Covers([ps[0]], a) && Covers(rest + qs, a)) && !(Covers(rest, a) && Covers(qs, a));
      }
    }
  }

  lemma StillHeld(m: Memory, m1: Memory, ps: seq<Piece>, qs: seq<Piece>, from: Owner, to: Owner)
    requires Holds(m, qs, from) && Apart(ps, qs) && Handed(m, m1, ps, from, to)
    ensures Holds(m1, qs, from)
  {
    hide OwnerAt, Covers, NoOverlap;
  }

  lemma {:induction false} MapSegmentsExact(vm: Space, m: Memory, from: Owner, to: Owner, segs: seq<Segment>, lo: nat, hi: nat)
    requires Ordered(vm) && Phys.Tiles(m, lo, hi) && from != to && to != Nobody && Holds(m, SegmentPieces(segs), from)
    ensures var r := MapSegments(vm, m, from, to, segs);
            && r.Ok? && Ordered(r.value.0) && Keeps(vm, r.value.0)
            && Phys.Tiles(r.value.1, lo, hi) && Handed(m, r.value.1, SegmentPieces(segs), from, to)
            && (forall a | Outside(segs, a) :: Translate(r.value.0, a) == Translate(vm, a))
            && (NoClash(segs) && (forall s | s in segs :: Unmapped(vm, s.vaddr, Size(s.pieces)))
                ==> AllPlaced(r.value.0, segs))
    decreases |segs|
  {
    hide Ordered, Phys.Tiles, MapPieces, Handed, Holds, Keeps, Adds, Unmapped, Placed, TargetsApart, Translate;
    if segs == [] {
      assert Keeps(vm, vm) && Handed(m, m, [], from, to) by { NothingAdded(vm, m, from, to, Segment(0, Nothing, [])); }
    } else {
      var s := segs[0];
      var rest := segs[1..];
      HoldsSplit(m, s.pieces, SegmentPieces(rest), from);
      MapPiecesExact(vm, m, from, to, s, lo, hi);
      var (vm1, m1) := MapPieces(vm, m, from, to, s.vaddr, s.perms, s.pieces).value;
      StillHeld(m, m1, s.pieces, SegmentPieces(rest), from, to);
      MapSegmentsExact(vm1, m1, from, to, rest, lo, hi);
      var (vm2, m2) := MapSegments(vm1, m1, from, to, rest).value;
      HandBoth(m, m1, m2, s.pieces, SegmentPieces(rest), from, to);
      KeepsThen(vm, vm1, vm2);
      forall a | Outside(segs, a)
        ensures Translate(vm2, a) == Translate(vm, a)
      {
        assert s in segs && !s.Has(a) && Outside(rest, a);
      }
      if NoClash(segs) && forall t | t in segs :: Unmapped(vm, t.vaddr, Size(t.pieces)) {
        assert s in segs;
        forall t | t in rest
          ensures Unmapped(vm1, t.vaddr, Size(t.pieces))
        {
          assert t in segs;
          StillRoom(vm, vm1, s, t);
        }
        assert Placed(vm2, s) by { StillPlaced(vm, vm1, vm2, s); }
        assert forall t | t in segs :: t == s || t in rest;
      }
    }
  }

  lemma StillRoom(vm: Space, vm1: Space, s: Segment, t: Segment)
    requires Adds(vm, vm1, s) && TargetsApart(s, t) && Unmapped(vm, t.vaddr, Size(t.pieces))
    ensures Unmapped(vm1, t.vaddr, Size(t.pieces))
  {
    hide Translate;
    forall a | t.vaddr <= a < t.vaddr + Size(t.pieces)
      ensures Translate(vm1, a) == None
    {
      assert t.Has(a) && !s.Has(a);
    }
  }

  lemma StillPlaced(vm: Space, vm1: Space, vm2: Space, s: Segment)
    requires Adds(vm, vm1, s) && Keeps(vm1, vm2)
    ensures Placed(vm2, s)
  {
    hide Translate;
  }

  /** Segments that are all where they belong do not clash, since no physical byte is in two of them. */
  lemma {:induction false} PlacedMeansNoClash(vm: Space, segs: seq<Segment>)
    requires AllPlaced(vm, segs) && NoOverlap(SegmentPieces(segs))
    ensures NoClash(segs)
    decreases |segs|
  {
    hide Translate, NoOverlap;
    if segs != [] {
      var s := segs[0];
      var rest := segs[1..];
      NoOverlapSplit(s.pieces, SegmentPieces(rest));
      assert forall t | t in rest :: t in segs;
      PlacedMeansNoClash(vm, rest);
      forall t | t in rest
        ensures TargetsApart(s, t)
      {
        forall a
          ensures !(s.Has(a) && t.Has(a))
        {
          if s.Has(a) && t.Has(a) {
            BothPlaced(vm, s, t, a, rest);
          }
        }
      }
    }
  }

  lemma BothPlaced(vm: Space, s: Segment, t: Segment, a: int, rest: seq<Segment>)
    requires Placed(vm, s) && Placed(vm, t) && s.Has(a) && t.Has(a) && t in rest
    ensures !Apart(s.pieces, SegmentPieces(rest))
  {
    ByteCovered(s.pieces, a - s.vaddr);
    ByteCovered(t.pieces, a - t.vaddr);
    var x := ByteAt(s.pieces, a - s.vaddr);
    assert x == ByteAt(t.pieces, a - t.vaddr);
    InSegments(t, rest, x);
  }

  lemma {:induction false} InSegments(t: Segment, segs: seq<Segment>, x: int)
    requires t in segs && Covers(t.pieces, x)
    ensures Covers(SegmentPieces(segs), x)
    decreases |segs|
  {
    CoversConcat(segs[0].pieces, SegmentPieces(segs[1..]), x);
    if t != segs[0] {
      InSegments(t, segs[1..], x);
    }
  }

  /** A process made from segments that the code set holds: it never fails, the memory goes to the
      process, and every segment is where it belongs exactly if no two claim the same address. */
  lemma ProcessImage(m: Memory, from: Owner, to: Owner, segs: seq<Segment>, lo: nat, hi: nat)
    requires Phys.Tiles(m, lo, hi) && from != to && to != Nobody && Holds(m, SegmentPieces(segs), from)
    ensures var r := MapSegments([], m, from, to, segs);
            && r.Ok? && Ordered(r.value.0) && Phys.Tiles(r.value.1, lo, hi)
            && Handed(m, r.value.1, SegmentPieces(segs), from, to)
            && (AllPlaced(r.value.0, segs) <==> NoClash(segs))
            && (forall a | Outside(segs, a) :: Translate(r.value.0, a) == None)
  {
    MapSegmentsExact([], m, from, to, segs, lo, hi);
    var vm := MapSegments([], m, from, to, segs).value.0;
    if AllPlaced(vm, segs) {
      PlacedMeansNoClash(vm, segs);
    }
  }

  // ---------------------------------------------------------------------------
  // From the loader to the process
  // ---------------------------------------------------------------------------

  function Segments(ss: seq<Section>, pss: seq<seq<Piece>>): (r: seq<Segment>)
    requires |ss| == |pss|
    ensures |r| == |ss| && forall k | 0 <= k < |ss| :: r[k] == Segment(ss[k].vaddr, ss[k].perms, pss[k])
  {
    if ss == [] then [] else [Segment(ss[0].vaddr, ss[0].perms, pss[0])] + Segments(ss[1..], pss[1..])
  }

  /** The segments of the new process: zero-initialised data goes behind the last section. */
  function Layout(ss: seq<Section>, cs: CodeSet): seq<Segment>
    requires |ss| == |cs.pieces|
  {
    var tail := if ss == [] then [] else
      var d := ss[|ss| - 1];
      [Segment(d.vaddr + Size(cs.pieces[|ss| - 1]), d.perms, cs.bss)];
    Segments(ss, cs.pieces) + tail
  }

  lemma {:induction false} SegmentPiecesConcat(x: seq<Segment>, y: seq<Segment>)
    ensures SegmentPieces(x + y) == SegmentPieces(x) + SegmentPieces(y)
  {
    if x == [] {
      assert x + y == y;
    } else {
      assert (x + y)[1..] == x[1..] + y;
      SegmentPiecesConcat(x[1..], y);
    }
  }

  lemma {:induction false} SegmentsFlat(ss: seq<Section>, pss: seq<seq<Piece>>)
    requires |ss| == |pss|
    ensures SegmentPieces(Segments(ss, pss)) == Flat(pss)
  {
    if ss != [] {
      assert Segments(ss, pss)[1..] == Segments(ss[1..], pss[1..]);
      SegmentsFlat(ss[1..], pss[1..]);
    }
  }

  lemma LayoutPieces(ss: seq<Section>, cs: CodeSet)
    requires |ss| == |cs.pieces| && ss != []
    ensures SegmentPieces(Layout(ss, cs)) == AllPieces(cs)
  {
    SegmentsFlat(ss, cs.pieces);
    var d := ss[|ss| - 1];
    var tail := [Segment(d.vaddr + Size(cs.pieces[|ss| - 1]), d.perms, cs.bss)];
    assert tail[1..] == [];
    assert SegmentPieces(tail) == cs.bss + SegmentPieces([]);
    SegmentPiecesConcat(Segments(ss, cs.pieces), tail);
  }

  /** The process as far as its program goes. */
  function CreateProcess(m: Memory, owner: Owner, process: Owner, ss: seq<Section>, cs: CodeSet): Result<(Space, Memory)>
    requires |ss| == |cs.pieces|
  {
    MapSegments([], m, owner, process, Layout(ss, cs))
  }

  /** The new process sees in each section the bytes that the loader had there. */
  ghost predicate KeepsMeaning(src: Space, vm: Space, ss: seq<Section>) {
    forall s, a | s in ss && s.vaddr <= a < s.vaddr + s.Bytes() ::
      Translate(vm, a) == Some((Byte(src, s.data + (a - s.vaddr)), s.perms))
  }

  /** The first address behind the last section. */
  function Behind(ss: seq<Section>): nat
    requires ss != []
  {
    ss[|ss| - 1].vaddr + ss[|ss| - 1].Bytes()
  }

  /** Zero-initialised data is one run of frames right behind the last section, with its permissions. */
  ghost predicate BssBehind(vm: Space, ss: seq<Section>, ps: seq<Piece>, bss: nat)
    requires ss != [] && |ps| == (if bss == 0 then 0 else 1)
  {
    forall a | Behind(ss) <= a < Behind(ss) + bss * PAGE ::
      Translate(vm, a) == Some((ps[0].phys + (a - Behind(ss)), ss[|ss| - 1].perms))
  }

  /** Which range claims the address: that of section k, or, behind them, that of the zero-initialised data. */
  predicate Claims(ss: seq<Section>, bss: nat, k: nat, a: int)
    requires ss != [] && k <= |ss|
  {
    if k < |ss| then ss[k].vaddr <= a < ss[k].vaddr + ss[k].Bytes()
    else Behind(ss) <= a < Behind(ss) + bss * PAGE
  }

  ghost predicate RangesApart(ss: seq<Section>, bss: nat)
    requires ss != []
  {
    forall j: nat, k: nat, a | j < k <= |ss| :: !(Claims(ss, bss, j, a) && Claims(ss, bss, k, a))
  }

  /** Loading code keeps its meaning. If a code set was created, creating the process from it does
      not fail. The process owns the frames and no other byte changed its owner; the loader no longer
      maps the sections. The process maps nothing but the sections and, behind the last one, frames that
      were free for the zero-initialised data; it sees at every address of a section the physical byte that
      the loader had there, and all of the zero-initialised data, if and only if no two of these ranges
      have an address in common. */
  lemma LoadingKeepsMeaning(src: Space, m: Memory, caller: Owner, owner: Owner, process: Owner, ss: seq<Section>, bss: nat, lo: nat, hi: nat)
    requires Ordered(src) && Phys.Tiles(m, lo, hi) && 0 < lo && ss != []
    requires caller != owner && owner != process && owner != Nobody && process != Nobody
    requires CreateCodeSet(src, m, caller, owner, ss, bss).Ok?
    ensures var (cs, src', m') := CreateCodeSet(src, m, caller, owner, ss, bss).value;
            && |cs.pieces| == |ss| && FreshBss(m, cs.bss, bss)
            && var r := CreateProcess(m', owner, process, ss, cs);
            && r.Ok? && Phys.Tiles(r.value.1, lo, hi)
            && Holds(r.value.1, AllPieces(cs), process) && OthersKeep(m, r.value.1, AllPieces(cs))
            && Stripped(src, src', ss)
            && (forall a | (forall k: nat | k <= |ss| :: !Claims(ss, bss, k, a)) :: Translate(r.value.0, a) == None)
            && (KeepsMeaning(src, r.value.0, ss) && BssBehind(r.value.0, ss, cs.bss, bss) <==> RangesApart(ss, bss))
  {
    CodeSetExact(src, m, caller, owner, ss, bss, lo, hi);
    var (cs, src', m') := CreateCodeSet(src, m, caller, owner, ss, bss).value;
    hide CreateCodeSet, Ordered, Phys.Tiles, Stripped, Holds, OthersKeep, MapSegments, Handed, AllPlaced, NoClash,
         KeepsMeaning, BssBehind, RangesApart, FreshBss, Outside, Translate, Claims;
    LayoutPieces(ss, cs);
    var segs := Layout(ss, cs);
    ProcessImage(m', owner, process, segs, lo, hi);
    var (vm, m2) := MapSegments([], m', owner, process, segs).value;
    FinalOwners(m, m', m2, AllPieces(cs), owner, process);
    ImageMeaning(src, m, vm, ss, cs, bss);
    LayoutClaims(src, m, ss, cs, bss);
  }

  lemma FinalOwners(m: Memory, m1: Memory, m2: Memory, ps: seq<Piece>, from: Owner, to: Owner)
    requires Holds(m1, ps, from) && OthersKeep(m, m1, ps) && Handed(m1, m2, ps, from, to)
    ensures Holds(m2, ps, to) && OthersKeep(m, m2, ps)
  {
    hide OwnerAt, Covers, NoOverlap;
  }

  /** The segments have the sections' ranges, and the last one that of the zero-initialised data. */
  lemma LayoutRanges(src: Space, m: Memory, ss: seq<Section>, cs: CodeSet, bss: nat)
    requires ss != [] && AllBacked(src, ss, cs.pieces) && Size(cs.bss) == bss * PAGE
    ensures |Layout(ss, cs)| == |ss| + 1
    ensures forall k: nat | k < |ss| :: Layout(ss, cs)[k] == Segment(ss[k].vaddr, ss[k].perms, cs.pieces[k])
    ensures Layout(ss, cs)[|ss|] == Segment(Behind(ss), ss[|ss| - 1].perms, cs.bss)
    ensures forall k: nat, a | k <= |ss| :: Layout(ss, cs)[k].Has(a) <==> Claims(ss, bss, k, a)
  {
    hide Size, ByteAt, Translate, Byte;
    assert forall k: nat | k < |ss| :: Size(cs.pieces[k]) == ss[k].Bytes();
  }

  /** Segments do not clash exactly if the ranges have nothing in common. */
  lemma LayoutClaims(src: Space, m: Memory, ss: seq<Section>, cs: CodeSet, bss: nat)
    requires ss != [] && AllBacked(src, ss, cs.pieces) && Size(cs.bss) == bss * PAGE
    ensures NoClash(Layout(ss, cs)) <==> RangesApart(ss, bss)
    ensures forall a :: Outside(Layout(ss, cs), a) <==> forall k: nat | k <= |ss| :: !Claims(ss, bss, k, a)
  {
    LayoutRanges(src, m, ss, cs, bss);
    var segs := Layout(ss, cs);
    hide Layout, AllBacked, Size, Claims;
    PairsApart(segs);
    if NoClash(segs) {
      forall j: nat, k: nat, a | j < k <= |ss|
        ensures !(Claims(ss, bss, j, a) && Claims(ss, bss, k, a))
      {
        assert TargetsApart(segs[j], segs[k]);
        assert segs[j].Has(a) <==> Claims(ss, bss, j, a);
        assert segs[k].Has(a) <==> Claims(ss, bss, k, a);
      }
    }
    if RangesApart(ss, bss) {
      forall j: nat, k: nat | j < k < |segs|
        ensures TargetsApart(segs[j], segs[k])
      {
        forall a
          ensures !(segs[j].Has(a) && segs[k].Has(a))
        {
          assert !(Claims(ss, bss, j, a) && Claims(ss, bss, k, a));
        }
      }
    }
    forall a
      ensures Outside(segs, a) <==> forall k: nat | k <= |ss| :: !Claims(ss, bss, k, a)
    {
      if Outside(segs, a) {
        forall k: nat | k <= |ss|
          ensures !Claims(ss, bss, k, a)
        {
          assert segs[k] in segs;
        }
      }
    }
  }

  lemma {:induction false} PairsApart(segs: seq<Segment>)
    ensures NoClash(segs) <==> forall j: nat, k: nat | j < k < |segs| :: TargetsApart(segs[j], segs[k])
  {
    hide TargetsApart;
    if segs != [] {
      var rest := segs[1..];
      PairsApart(rest);
      assert forall k: nat | k < |rest| :: rest[k] == segs[k + 1];
      if NoClash(segs) {
        forall j: nat, k: nat | j < k < |segs|
          ensures TargetsApart(segs[j], segs[k])
        {
          if j == 0 {
            assert rest[k - 1] in rest;
          } else {
            assert TargetsApart(rest[j - 1], rest[k - 1]);
          }
        }
      }
      if forall j: nat, k: nat | j < k < |segs| :: TargetsApart(segs[j], segs[k]) {
        forall j: nat, k: nat | j < k < |rest|
          ensures TargetsApart(rest[j], rest[k])
        {
          assert TargetsApart(segs[j + 1], segs[k + 1]);
        }
        forall t | t in rest
          ensures TargetsApart(segs[0], t)
        {
          var k :| 0 <= k < |rest| && rest[k] == t;
          assert TargetsApart(segs[0], segs[k + 1]);
        }
      }
    }
  }

  /** All segments are in place exactly if the sections keep their meaning and the data is behind them. */
  lemma ImageMeaning(src: Space, m: Memory, vm: Space, ss: seq<Section>, cs: CodeSet, bss: nat)
    requires ss != [] && AllBacked(src, ss, cs.pieces) && Size(cs.bss) == bss * PAGE && FreshBss(m, cs.bss, bss)
    ensures AllPlaced(vm, Layout(ss, cs)) <==> KeepsMeaning(src, vm, ss) && BssBehind(vm, ss, cs.bss, bss)
  {
    LayoutRanges(src, m, ss, cs, bss);
    var segs := Layout(ss, cs);
    hide Layout, Claims, Translate;
    BssPlaced(m, vm, ss, cs.bss, bss);
    hide FreshBss, BssBehind;
    forall k: nat | k < |ss|
      ensures Placed(vm, segs[k]) <==> SectionPlaced(src, vm, ss[k])
    {
      BackedPlaced(src, vm, ss[k], cs.pieces[k]);
    }
    hide AllBacked, Placed, SectionPlaced, Size, ByteAt, Byte;
    MeansPlaced(src, vm, ss);
    if AllPlaced(vm, segs) {
      assert forall k: nat | k < |segs| :: segs[k] in segs;
    }
  }

  ghost predicate SectionPlaced(src: Space, vm: Space, s: Section) {
    forall a | s.vaddr <= a < s.vaddr + s.Bytes() ::
      Translate(vm, a) == Some((Byte(src, s.data + (a - s.vaddr)), s.perms))
  }

  lemma MeansPlaced(src: Space, vm: Space, ss: seq<Section>)
    ensures KeepsMeaning(src, vm, ss) <==> forall k: nat | k < |ss| :: SectionPlaced(src, vm, ss[k])
  {
    hide Translate, Byte;
    if forall k: nat | k < |ss| :: SectionPlaced(src, vm, ss[k]) {
      forall s, a | s in ss && s.vaddr <= a < s.vaddr + s.Bytes()
        ensures Translate(vm, a) == Some((Byte(src, s.data + (a - s.vaddr)), s.perms))
      {
        var k :| 0 <= k < |ss| && ss[k] == s;
        assert SectionPlaced(src, vm, ss[k]);
      }
    }
  }

  lemma BackedPlaced(src: Space, vm: Space, s: Section, ps: seq<Piece>)
    requires Size(ps) == s.Bytes() && Backs(src, s.data, ps)
    ensures Placed(vm, Segment(s.vaddr, s.perms, ps)) <==> SectionPlaced(src, vm, s)
  {
    hide Translate, Byte, ByteAt, Size;
    var seg := Segment(s.vaddr, s.perms, ps);
    forall a | seg.Has(a)
      ensures ByteAt(ps, a - s.vaddr) == Byte(src, s.data + (a - s.vaddr))
    {
      var i := a - s.vaddr;
      assert Byte(src, s.data + i) == ByteAt(ps, i);
    }
  }

  lemma BssPlaced(m: Memory, vm: Space, ss: seq<Section>, ps: seq<Piece>, bss: nat)
    requires ss != [] && Size(ps) == bss * PAGE && FreshBss(m, ps, bss)
    ensures Placed(vm, Segment(Behind(ss), ss[|ss| - 1].perms, ps)) <==> BssBehind(vm, ss, ps, bss)
  {
    hide Translate;
    if bss > 0 {
      assert ps[0] in ps;
    }
  }

  // ---------------------------------------------------------------------------
  // The loops over the objects
  // ---------------------------------------------------------------------------

  function After(acc: seq<Piece>, r: Result<(Memory, seq<Piece>)>): Result<(Memory, seq<Piece>)> {
    if r.Failed? then r else Ok((r.value.0, acc + r.value.1))
  }

  /** Reparents one section. */
  method TakeSection(source: Process, manager: Phys.MemoryManager, from: Owner, to: Owner, start: nat, end: nat)
      returns (r: Result<seq<Piece>>)
    modifies manager
    ensures var c := Collect(source.virtualMemory, old(manager.View()), from, to, start, end);
            if c.Ok? then r == Ok(c.value.1) && manager.View() == c.value.0 else r == Failed(c.fault)
  {
    hide ResolveWithSize, Phys.Transfer;
    ghost var vm := source.virtualMemory;
    var v: nat := start;
    var pieces: seq<Piece> := [];
    ghost var all := Collect(vm, manager.View(), from, to, v, end);
    assert all.Ok? ==> pieces + all.value.1 == all.value.1;
    while v < end
      invariant source.virtualMemory == vm
      invariant After(pieces, Collect(vm, manager.View(), from, to, v, end))
                == Collect(vm, old(manager.View()), from, to, start, end)
      decreases end - v
    {
      var c := ResolveWithSize(source.virtualMemory, v);
      if c.None? || c.value.0 == 0 {
        return Failed(Fault.NotMapped);
      }
      if c.value.1 % PAGE != 0 {
        return Failed(PartialPage);
      }
      var n := Least(c.value.1, end - v);
      var report := manager.TransferOwnership(from, to, c.value.0, n);
      if report.Some? {
        return Failed(NotOwned);
      }
      ghost var later := Collect(vm, manager.View(), from, to, v + n, end);
      assert later.Ok? ==> pieces + ([Piece(c.value.0, n / PAGE)] + later.value.1)
                           == (pieces + [Piece(c.value.0, n / PAGE)]) + later.value.1;
      pieces := pieces + [Piece(c.value.0, n / PAGE)];
      v := v + n;
    }
    assert pieces + [] == pieces;
    r := Ok(pieces);
  }

  /** Maps one segment into the new process. */
  method PlaceSegment(process: Process, manager: Phys.MemoryManager, from: Owner, to: Owner, s: Segment)
      returns (report: Option<Fault>)
    modifies process, manager
    ensures var r := MapPieces(old(process.virtualMemory), old(manager.View()), from, to, s.vaddr, s.perms, s.pieces);
            if r.Ok? then report == None && (process.virtualMemory, manager.View()) == r.value
            else report == Some(r.fault)
  {
    hide Map, Phys.Transfer;
    var v: nat := s.vaddr;
    var i := 0;
    while i < |s.pieces|
      invariant i <= |s.pieces|
      invariant MapPieces(process.virtualMemory, manager.View(), from, to, v, s.perms, s.pieces[i..])
                == MapPieces(old(process.virtualMemory), old(manager.View()), from, to, s.vaddr, s.perms, s.pieces)
    {
      var p := s.pieces[i];
      assert s.pieces[i..][1..] == s.pieces[i + 1..];
      var ignored := process.MapVirtualMemory(p.phys, p.Bytes(), v, s.perms);
      var refused := manager.TransferOwnership(from, to, p.phys, p.Bytes());
      if refused.Some? {
        return Some(NotOwned);
      }
      v := v + p.Bytes();
      i := i + 1;
    }
    report := None;
  }
}
