/**
  Mapped buffers of IPC messages: the pages of the client's buffer are mapped
  into the server for the time of the request, chunk by chunk, and the server's
  reply unmaps them again.
 */
module IpcBuffers {
  import opened Options
  import opened Pages
  import opened Intervals
  import opened AddressSpace

  /** Size of all pages that the buffer touches. */
  function MappedSize(addr: nat, size: nat): (r: nat)
    ensures r % PAGE == 0
    ensures size > 0 ==> PageBase(addr) + r - PAGE < addr + size <= PageBase(addr) + r
  {
    PageBase(addr + size + 0xfff) - PageBase(addr)
  }

  datatype Fault = NoWindow | Unresolved | ChunkRefused | UnmapFailed

  datatype Result<T> = Ok(value: T) | Failed(fault: Fault)

  /** The rest of the mapping loop, when `done` of `total` bytes are mapped. */
  function MapChunks(src: Space, dst: Space, addr: nat, done: nat, total: nat, dest: nat, perms: Permissions): Result<Space>
    decreases total - done
  {
    if done >= total then Ok(dst)
    else
      var c := ResolveWithSize(src, PageBase(addr + done));
      if c.None? then Failed(Unresolved)
      else
        var n := Least(c.value.1, total - done);
        var (r, dst1) := Map(dst, c.value.0, n, dest + done, perms);
        if r != Success then Failed(ChunkRefused) else MapChunks(src, dst1, addr, done + n, total, dest, perms)
  }

  /** A request: the server's new map, and the address the server is told, if the buffer is not empty. */
  function Request(src: Space, dst: Space, addr: nat, size: nat, perms: Permissions): Result<(Space, Option<nat>)> {
    var total := MappedSize(addr, size);
    var dest := FindAvailable(dst, total, 0x1000_0000, 0x2000_0000);
    if size == 0 then Ok((dst, None))
    else if dest.None? then Failed(NoWindow)
    else
      var r := MapChunks(src, dst, addr, 0, total, dest.value, perms);
      if r.Failed? then Failed(r.fault) else Ok((r.value, Some(dest.value + addr % PAGE)))
  }

  /** A reply that names a buffer of the server. */
  function Reply(srv: Space, addr: nat, size: nat): Result<Space> {
    var (r, srv') := Unmap(srv, PageBase(addr), MappedSize(addr, size));
    if size == 0 then Ok(srv)
    else if r == Success then Ok(srv') else Failed(UnmapFailed)
  }

  // ---------------------------------------------------------------------------
  // Aliasing
  // ---------------------------------------------------------------------------

  /** Chunks of the source that end inside [base, base + total) end at a page boundary. */
  ghost predicate PagedEnds(src: Space, base: nat, total: nat) {
    forall i | 0 <= i < |src| :: base < src[i].End() < base + total ==> src[i].End() % PAGE == 0
  }

  /** What the byte at a becomes under other permissions. */
  ghost function Alias(src: Space, a: int, perms: Permissions): Option<(nat, Permissions)> {
    var t := Translate(src, a);
    if t.None? then None else Some((t.value.0, perms))
  }

  /** `dst'` is dst with the bytes [from, total) of the window at dest taken to what src has at base. */
  ghost predicate Shares(src: Space, dst: Space, dst': Space, base: nat, dest: nat, from: nat, total: nat, perms: Permissions) {
    forall a :: Translate(dst', a)
                == if dest + from <= a < dest + total then Alias(src, base + (a - dest), perms) else Translate(dst, a)
  }

  /** A chunk goes on to the end of its block. */
  lemma ChunkEnd(vm: Space, a: nat) returns (i: nat)
    requires Ordered(vm) && ResolveWithSize(vm, a).Some?
    ensures i < |vm| && vm[i].Has(a) && a + ResolveWithSize(vm, a).value.1 == vm[i].End()
  {
    i := UpperBound(vm, a) - 1;
  }

  lemma PageBaseOf(addr: nat, done: nat)
    ensures done % PAGE == 0 <==> PageBase(addr + done) == PageBase(addr) + done
  {
    var off := addr % PAGE;
    var q := addr / PAGE;
    assert addr == q * PAGE + off;
    if done % PAGE == 0 {
      var k := done / PAGE;
      assert addr + done == (q + k) * PAGE + off;
      assert (addr + done) % PAGE == off;
    }
  }

  /** One chunk of the loop, mapped at its place. */
  lemma OneChunk(src: Space, dst: Space, a: nat, p: nat, n: nat, at: nat, perms: Permissions)
    requires Ordered(src) && Ordered(dst) && ResolveWithSize(src, a).Some?
    requires p == ResolveWithSize(src, a).value.0 && 0 < n <= ResolveWithSize(src, a).value.1
    requires Unmapped(dst, at, n)
    ensures var (r, dst1) := Map(dst, p, n, at, perms);
            r == Success && Ordered(dst1) && FullyMapped(src, a, n) && Shares(src, dst, dst1, a, at, 0, n, perms)
  {
    ResolveExact(src, a);
    hide Ordered, Map, ResolveWithSize, Resolve, Translate;
    MapExact(dst, p, n, at, perms);
  }

  lemma SharesThen(src: Space, dst: Space, dst1: Space, dst2: Space, base: nat, dest: nat, done: nat, n: nat, total: nat, perms: Permissions)
    requires done + n <= total
    requires Shares(src, dst, dst1, base + done, dest + done, 0, n, perms)
    requires Shares(src, dst1, dst2, base, dest, done + n, total, perms)
    ensures Shares(src, dst, dst2, base, dest, done, total, perms)
  {
    hide Alias, Translate;
    forall a
      ensures Translate(dst2, a)
              == if dest + done <= a < dest + total then Alias(src, base + (a - dest), perms) else Translate(dst, a)
    {
      assert base + done + (a - (dest + done)) == base + (a - dest);
    }
  }

  /** The loop succeeds exactly if the rest of the pages is mapped in the source; then the server
      sees exactly the client's bytes in the window, and everything else as before. */
  lemma {:induction false} ChunksAlias(src: Space, dst: Space, addr: nat, done: nat, total: nat, dest: nat, perms: Permissions)
    requires Ordered(src) && Ordered(dst) && done <= total && PagedEnds(src, PageBase(addr), total)
    requires done < total ==> done % PAGE == 0
    requires Unmapped(dst, dest + done, total - done)
    ensures var r := MapChunks(src, dst, addr, done, total, dest, perms);
            && (r.Ok? <==> FullyMapped(src, PageBase(addr) + done, total - done))
            && (r.Ok? ==> Ordered(r.value) && Shares(src, dst, r.value, PageBase(addr), dest, done, total, perms))
    decreases total - done
  {
    hide Ordered, Map, ResolveWithSize, Translate, PagedEnds, PageBase;
    var base := PageBase(addr);
    if done < total {
      PageBaseOf(addr, done);
      ResolveExact(src, base + done);
      var c := ResolveWithSize(src, base + done);
      if c.Some? {
        var n := Least(c.value.1, total - done);
        OneChunk(src, dst, base + done, c.value.0, n, dest + done, perms);
        var dst1 := Map(dst, c.value.0, n, dest + done, perms).1;
        NextPage(src, base, done, total);
        assert Unmapped(dst1, dest + done + n, total - done - n);
        assert FullyMapped(src, base + done, total - done) <==> FullyMapped(src, base + done + n, total - done - n) by {
          SplitMapped(src, base + done, n, total - done);
        }
        ChunksAlias(src, dst1, addr, done + n, total, dest, perms);
        var r := MapChunks(src, dst1, addr, done + n, total, dest, perms);
        if r.Ok? {
          SharesThen(src, dst, dst1, r.value, base, dest, done, n, total, perms);
        }
      } else {
        assert Translate(src, base + done).None?;
      }
    }
  }

  lemma SplitMapped(vm: Space, v: nat, n: nat, size: nat)
    requires n <= size && FullyMapped(vm, v, n)
    ensures FullyMapped(vm, v, size) <==> FullyMapped(vm, v + n, size - n)
  {
    hide Translate;
    if FullyMapped(vm, v + n, size - n) {
      forall a | v <= a < v + size
        ensures Translate(vm, a).Some?
      {
        assert a < v + n || v + n <= a;
      }
    }
  }

  /** A chunk that does not reach the end of the buffer ends at a page boundary. */
  lemma NextPage(src: Space, base: nat, done: nat, total: nat)
    requires Ordered(src) && PagedEnds(src, base, total) && base % PAGE == 0
    requires ResolveWithSize(src, base + done).Some? && ResolveWithSize(src, base + done).value.1 > 0
    ensures var n := ResolveWithSize(src, base + done).value.1;
            done + n < total ==> (done + n) % PAGE == 0
  {
    var n := ResolveWithSize(src, base + done).value.1;
    var i := ChunkEnd(src, base + done);
    if done + n < total {
      assert src[i].End() % PAGE == 0;
      var q, k := base / PAGE, src[i].End() / PAGE;
      assert done + n == (k - q) * PAGE;
    }
  }

  // ---------------------------------------------------------------------------
  // The window, whatever the chunks look like
  // ---------------------------------------------------------------------------

  /** The loop touches neither what the server had mapped nor anything outside of the window. */
  lemma {:induction false} ChunksKeep(src: Space, dst: Space, addr: nat, done: nat, total: nat, dest: nat, perms: Permissions)
    requires Ordered(dst) && MapChunks(src, dst, addr, done, total, dest, perms).Ok?
    ensures var r := MapChunks(src, dst, addr, done, total, dest, perms).value;
            && Ordered(r)
            && (forall a | Translate(dst, a).Some? :: Translate(r, a) == Translate(dst, a))
            && (forall a | !(dest + done <= a < dest + total) :: Translate(r, a) == Translate(dst, a))
    decreases total - done
  {
    hide Ordered, Map, ResolveWithSize, Translate, PageBase;
    if done < total {
      var c := ResolveWithSize(src, PageBase(addr + done));
      var n := Least(c.value.1, total - done);
      MapExact(dst, c.value.0, n, dest + done, perms);
      var dst1 := Map(dst, c.value.0, n, dest + done, perms).1;
      ChunksKeep(src, dst1, addr, done + n, total, dest, perms);
      forall a | Translate(dst, a).Some?
        ensures Translate(dst1, a) == Translate(dst, a)
      {
        assert !(dest + done <= a < dest + done + n);
      }
    }
  }

  /** The chunk that the loop maps first. */
  lemma FirstChunk(src: Space, dst: Space, addr: nat, done: nat, total: nat, dest: nat, perms: Permissions)
    requires Ordered(src) && Ordered(dst) && done < total && MapChunks(src, dst, addr, done, total, dest, perms).Ok?
    ensures ResolveWithSize(src, PageBase(addr + done)).Some?
    ensures var x := PageBase(addr + done);
            var c := ResolveWithSize(src, x).value;
            var n := Least(c.1, total - done);
            var (ok, dst1) := Map(dst, c.0, n, dest + done, perms);
            && n > 0 && ok == Success && Ordered(dst1)
            && MapChunks(src, dst, addr, done, total, dest, perms) == MapChunks(src, dst1, addr, done + n, total, dest, perms)
            && (forall a | dest + done <= a < dest + done + n ::
                  Translate(src, x + (a - dest - done)).Some?
                  && Translate(dst1, a) == Alias(src, x + (a - dest - done), perms))
  {
    hide Ordered, Map, ResolveWithSize, Resolve, Translate, PageBase, Unmapped;
    var x := PageBase(addr + done);
    ResolveExact(src, x);
    var c := ResolveWithSize(src, x).value;
    MapExact(dst, c.0, Least(c.1, total - done), dest + done, perms);
  }

  /** Byte o of the window was mapped at some position d of the loop, from the page of that position; if
      no chunk ends inside a page before `limit`, positions up to there are page-aligned. */
  lemma {:induction false} WindowByte(src: Space, dst: Space, addr: nat, done: nat, total: nat, dest: nat, perms: Permissions, o: nat, limit: nat)
      returns (d: nat)
    requires Ordered(src) && Ordered(dst) && done <= o < total && MapChunks(src, dst, addr, done, total, dest, perms).Ok?
    ensures done <= d <= o
    ensures var r := MapChunks(src, dst, addr, done, total, dest, perms).value;
            var y := PageBase(addr + d) + (o - d);
            Translate(src, y).Some? && Translate(r, dest + o) == Alias(src, y, perms)
    ensures done % PAGE == 0 && PagedEnds(src, PageBase(addr), limit) && o < limit ==> d % PAGE == 0
    decreases total - done
  {
    hide Ordered, Map, ResolveWithSize, Translate, PageBase, PagedEnds;
    FirstChunk(src, dst, addr, done, total, dest, perms);
    var x := PageBase(addr + done);
    var c := ResolveWithSize(src, x).value;
    var n := Least(c.1, total - done);
    var dst1 := Map(dst, c.0, n, dest + done, perms).1;
    if o < done + n {
      d := done;
      var a := dest + o;
      assert Translate(dst1, a) == Alias(src, x + (a - dest - done), perms);
      ChunksKeep(src, dst1, addr, done + n, total, dest, perms);
    } else {
      d := WindowByte(src, dst1, addr, done + n, total, dest, perms, o, limit);
      if done % PAGE == 0 && PagedEnds(src, PageBase(addr), limit) && o < limit {
        PageBaseOf(addr, done);
        NextPage(src, PageBase(addr), done, limit);
      }
    }
  }

  // ---------------------------------------------------------------------------
  // Requests
  // ---------------------------------------------------------------------------

  /** Every byte of the buffer is the same physical byte at the address the server was told. */
  ghost predicate Aliased(src: Space, dst': Space, addr: nat, size: nat, told: nat, perms: Permissions) {
    forall a | addr <= a < addr + size ::
      Translate(src, a).Some? && Translate(dst', told + (a - addr)) == Alias(src, a, perms)
  }

  /** A request that succeeds fills a window of the server and changes no other address. If no chunk of
      the client ends inside a page before the end of the buffer, every byte of the buffer is the same
      physical byte in both processes. If no chunk ends inside any page that the buffer touches, the
      request succeeds exactly if these pages are mapped and the server has room. An empty buffer maps and
      unmaps nothing. */
  lemma RequestAliases(src: Space, dst: Space, addr: nat, size: nat, perms: Permissions)
    requires Ordered(src) && Ordered(dst)
    ensures size == 0 ==> Request(src, dst, addr, size, perms) == Ok((dst, None)) && forall a: nat :: Reply(dst, a, size) == Ok(dst)
    ensures size > 0 ==>
              var total := MappedSize(addr, size);
              var dest := FindAvailable(dst, total, 0x1000_0000, 0x2000_0000);
              var r := Request(src, dst, addr, size, perms);
              && (r.Ok? ==>
                    && dest.Some? && r.value.1 == Some(dest.value + addr % PAGE) && Ordered(r.value.0)
                    && Unmapped(dst, dest.value, total) && FullyMapped(r.value.0, dest.value, total)
                    && (forall a | !(dest.value <= a < dest.value + total) :: Translate(r.value.0, a) == Translate(dst, a))
                    && (PagedEnds(src, PageBase(addr), addr + size - PageBase(addr)) ==>
                          Aliased(src, r.value.0, addr, size, r.value.1.value, perms)))
              && (PagedEnds(src, PageBase(addr), total) ==>
                    (r.Ok? <==> dest.Some? && FullyMapped(src, PageBase(addr), total)))
  {
    hide Ordered, FindAvailable, MapChunks, PagedEnds, MappedSize, Translate, Alias, PageBase, Shares, Unmapped, Map,
         FullyMapped, Aliased, Unmap;
    if size > 0 {
      var total := MappedSize(addr, size);
      FindAvailableExact(dst, total, 0x1000_0000, 0x2000_0000);
      var dest := FindAvailable(dst, total, 0x1000_0000, 0x2000_0000);
      if dest.Some? {
        if PagedEnds(src, PageBase(addr), total) {
          ChunksAlias(src, dst, addr, 0, total, dest.value, perms);
        }
        if Request(src, dst, addr, size, perms).Ok? {
          ChunksKeep(src, dst, addr, 0, total, dest.value, perms);
          WindowFilled(src, dst, addr, total, dest.value, perms);
          if PagedEnds(src, PageBase(addr), addr + size - PageBase(addr)) {
            BufferBytes(src, dst, addr, size, dest.value, perms);
          }
        }
      }
    }
  }

  lemma WindowFilled(src: Space, dst: Space, addr: nat, total: nat, dest: nat, perms: Permissions)
    requires Ordered(src) && Ordered(dst) && MapChunks(src, dst, addr, 0, total, dest, perms).Ok?
    ensures FullyMapped(MapChunks(src, dst, addr, 0, total, dest, perms).value, dest, total)
  {
    hide Ordered, MapChunks, Translate, PageBase;
    var r := MapChunks(src, dst, addr, 0, total, dest, perms).value;
    forall a | dest <= a < dest + total
      ensures Translate(r, a).Some?
    {
      var d := WindowByte(src, dst, addr, 0, total, dest, perms, a - dest, 0);
    }
  }

  lemma BufferBytes(src: Space, dst: Space, addr: nat, size: nat, dest: nat, perms: Permissions)
    requires Ordered(src) && Ordered(dst) && size > 0
    requires MapChunks(src, dst, addr, 0, MappedSize(addr, size), dest, perms).Ok?
    requires PagedEnds(src, PageBase(addr), addr + size - PageBase(addr))
    ensures Aliased(src, MapChunks(src, dst, addr, 0, MappedSize(addr, size), dest, perms).value, addr, size, dest + addr % PAGE, perms)
  {
    hide Ordered, MapChunks, Translate, PagedEnds, MappedSize, Alias;
    var total := MappedSize(addr, size);
    var r := MapChunks(src, dst, addr, 0, total, dest, perms).value;
    var limit := addr + size - PageBase(addr);
    forall a | addr <= a < addr + size
      ensures Translate(src, a).Some? && Translate(r, dest + addr % PAGE + (a - addr)) == Alias(src, a, perms)
    {
      var o := a - PageBase(addr);
      var d := WindowByte(src, dst, addr, 0, total, dest, perms, o, limit);
      PageBaseOf(addr, d);
      assert PageBase(addr + d) + (o - d) == a && dest + o == dest + addr % PAGE + (a - addr);
    }
  }

  // ---------------------------------------------------------------------------
  // When a chunk ends inside a page
  // ---------------------------------------------------------------------------

  /** No physical byte is visible at two addresses. */
  ghost predicate Injective(vm: Space) {
    forall a, b :: Translate(vm, a).Some? && Translate(vm, b).Some? && a != b
                   ==> Translate(vm, a).value.0 != Translate(vm, b).value.0
  }

  /** A byte of the window that was mapped at an unaligned position is the wrong one. */
  lemma WrongSource(src: Space, addr: nat, d: nat, o: nat, perms: Permissions)
    requires Injective(src) && d <= o && d % PAGE != 0
    requires Translate(src, PageBase(addr + d) + (o - d)).Some?
    ensures Alias(src, PageBase(addr) + o, perms) != Alias(src, PageBase(addr + d) + (o - d), perms)
  {
    PageBaseOf(addr, d);
    hide Translate, PageBase;
    var y := PageBase(addr + d) + (o - d);
    assert y != PageBase(addr) + o;
  }

  /** If a chunk ends inside a page before the end of the buffer, some byte of the buffer is the wrong one. */
  lemma {:induction false} ChunksBreak(src: Space, dst: Space, addr: nat, done: nat, total: nat, limit: nat, dest: nat, perms: Permissions, i: nat)
      returns (k: nat)
    requires Ordered(src) && Ordered(dst) && Injective(src) && done % PAGE == 0
    requires addr - PageBase(addr) < limit <= total
    requires i < |src| && PageBase(addr) + done < src[i].End() < PageBase(addr) + limit && src[i].End() % PAGE != 0
    requires MapChunks(src, dst, addr, done, total, dest, perms).Ok?
    ensures var r := MapChunks(src, dst, addr, done, total, dest, perms).value;
            addr - PageBase(addr) <= k < limit && Translate(r, dest + k) != Alias(src, PageBase(addr) + k, perms)
    decreases total - done
  {
    hide Map, ResolveWithSize, Translate, PageBase, Injective, Alias;
    var base := PageBase(addr);
    PageBaseOf(addr, done);
    FirstChunk(src, dst, addr, done, total, dest, perms);
    var c := ResolveWithSize(src, base + done).value;
    var n := Least(c.1, total - done);
    var dst1 := Map(dst, c.0, n, dest + done, perms).1;
    var j := ChunkEnd(src, base + done);
    assert src[j].End() <= src[i].End();
    assert n == c.1;
    hide Ordered, MapChunks;
    var next := done + n;
    if next % PAGE == 0 {
      AlignedEnd(base, next);
      assert src[j].End() == base + next;
      k := ChunksBreak(src, dst1, addr, next, total, limit, dest, perms, i);
    } else {
      k := if next < addr - base then addr - base else next;
      var d := WindowByte(src, dst1, addr, next, total, dest, perms, k, 0);
      UnalignedBetween(addr, next, d, k);
      WrongSource(src, addr, d, k, perms);
    }
  }

  /** Positions from an unaligned one up to the buffer's first byte are unaligned too. */
  lemma UnalignedBetween(addr: nat, next: nat, d: nat, k: nat)
    requires next % PAGE != 0 && next <= d <= k && k == if next < addr - PageBase(addr) then addr - PageBase(addr) else next
    ensures d % PAGE != 0
  {
  }

  lemma AlignedEnd(base: nat, n: nat)
    requires base % PAGE == 0 && n % PAGE == 0
    ensures (base + n) % PAGE == 0
  {
    var q, k := base / PAGE, n / PAGE;
    assert base + n == (q + k) * PAGE;
  }

  /** Of a client that sees no physical byte twice, a request that succeeds shares the bytes of the buffer
      exactly if no chunk ends inside a page before the end of the buffer. */
  lemma AliasIffPaged(src: Space, dst: Space, addr: nat, size: nat, perms: Permissions)
    requires Ordered(src) && Ordered(dst) && Injective(src) && size > 0
    ensures var r := Request(src, dst, addr, size, perms);
            r.Ok? ==>
              && r.value.1.Some?
              && (Aliased(src, r.value.0, addr, size, r.value.1.value, perms)
                  <==> PagedEnds(src, PageBase(addr), addr + size - PageBase(addr)))
  {
    hide Ordered, FindAvailable, MapChunks, Translate, PageBase, MappedSize, Injective, Alias, FullyMapped, Aliased, Unmapped;
    RequestAliases(src, dst, addr, size, perms);
    var r := Request(src, dst, addr, size, perms);
    var limit := addr + size - PageBase(addr);
    if r.Ok? && !PagedEnds(src, PageBase(addr), limit) {
      var total := MappedSize(addr, size);
      var i :| 0 <= i < |src| && PageBase(addr) < src[i].End() < PageBase(addr) + limit && src[i].End() % PAGE != 0;
      var dest := FindAvailable(dst, total, 0x1000_0000, 0x2000_0000).value;
      var k := ChunksBreak(src, dst, addr, 0, total, limit, dest, perms, i);
      WrongByte(src, r.value.0, addr, size, dest, k, perms);
    }
  }

  lemma WrongByte(src: Space, dst': Space, addr: nat, size: nat, dest: nat, k: nat, perms: Permissions)
    requires addr - PageBase(addr) <= k < addr + size - PageBase(addr)
    requires Translate(dst', dest + k) != Alias(src, PageBase(addr) + k, perms)
    ensures !Aliased(src, dst', addr, size, dest + addr % PAGE, perms)
  {
    hide Translate, Alias;
    var a := PageBase(addr) + k;
    assert dest + addr % PAGE + (a - addr) == dest + k;
  }

  /** Two half-page chunks: the server sees the first half twice. */
  lemma HalfPagesRepeat(p: nat, q: nat)
    ensures var src := [Block(0, 0x800, Frame(p, ReadWrite)), Block(0x800, 0x800, Frame(q, ReadWrite))];
            var r := MapChunks(src, [], 0, 0, 0x1000, 0x1000_0000, Read);
            r == Ok([Block(0x1000_0000, 0x800, Frame(p, Read)), Block(0x1000_0800, 0x800, Frame(p, Read))])
  {
    var src := [Block(0, 0x800, Frame(p, ReadWrite)), Block(0x800, 0x800, Frame(q, ReadWrite))];
    assert UpperBound(src, 0) == 1 by { assert UpperBound(src[1..], 0) == 0; }
    assert ResolveWithSize(src, 0) == Some((p, 0x800));
    var b1 := Block(0x1000_0000, 0x800, Frame(p, Read));
    var b2 := Block(0x1000_0800, 0x800, Frame(p, Read));
    var none: Space := [];
    assert Insert(none, b1) == [b1];
    assert Map(none, p, 0x800, 0x1000_0000, Read) == (Success, [b1]);
    assert LowerBound([b1], 0x1000_0800) == 1;
    assert [b1][1..] == [];
    assert Insert([b1], b2) == [b1, b2];
    assert Map([b1], p, 0x800, 0x1000_0800, Read) == (Success, [b1, b2]);
    assert MapChunks(src, [b1, b2], 0, 0x1000, 0x1000, 0x1000_0000, Read) == Ok([b1, b2]);
    assert MapChunks(src, [b1], 0, 0x800, 0x1000, 0x1000_0000, Read) == Ok([b1, b2]);
  }

  // ---------------------------------------------------------------------------
  // Request and reply
  // ---------------------------------------------------------------------------

  lemma {:induction false} CandidatePaged(vm: Space, size: nat, from: nat)
    requires forall b | b in vm :: b.End() % PAGE == 0
    requires from % PAGE == 0
    ensures Candidate(vm, size, from) % PAGE == 0
  {
    if vm != [] {
      if vm[0].End() < from {
        CandidatePaged(vm[1..], size, from);
      } else {
        CandidatePaged(vm[1..], size, vm[0].End());
      }
    }
  }

  /** The server names the buffer by the address and size it was given: that denotes the window. */
  lemma SameWindow(dest: nat, addr: nat, size: nat)
    requires dest % PAGE == 0 && size > 0
    ensures PageBase(dest + addr % PAGE) == dest
    ensures MappedSize(dest + addr % PAGE, size) == MappedSize(addr, size)
  {
    var q, d := addr / PAGE, dest / PAGE;
    var off := addr % PAGE;
    assert addr == q * PAGE + off && dest == d * PAGE;
    assert (dest + off) % PAGE == off;
    var w := off + size + 0xfff;
    var wq, wr := w / PAGE, w % PAGE;
    assert addr + size + 0xfff == (q + wq) * PAGE + wr;
    assert dest + off + size + 0xfff == (d + wq) * PAGE + wr;
  }

  /** The window starts a page exactly if the server is told an address with the client's page offset. */
  lemma ToldOffset(dest: nat, addr: nat)
    ensures (dest + addr % PAGE) % PAGE == addr % PAGE <==> dest % PAGE == 0
  {
    var d, e, off := dest / PAGE, dest % PAGE, addr % PAGE;
    assert dest + off == d * PAGE + (e + off);
  }

  /** Otherwise the page that the reply starts with begins before the window, or behind its first byte. */
  lemma ReplyStart(dest: nat, addr: nat, size: nat)
    requires dest % PAGE != 0 && size > 0
    ensures var v := PageBase(dest + addr % PAGE);
            v < dest < v + MappedSize(dest + addr % PAGE, size) || dest < v
  {
  }

  /** A window that does not start a page lies directly behind a mapping of the server. */
  lemma WindowBehind(dst: Space, total: nat, dest: nat)
    requires Ordered(dst) && total > 0 && dest % PAGE != 0
    requires FindAvailable(dst, total, 0x1000_0000, 0x2000_0000) == Some(dest)
    ensures dest > 0 && Translate(dst, dest - 1).Some?
  {
    FindAvailableExact(dst, total, 0x1000_0000, 0x2000_0000);
    hide FindAvailable, Ordered, Translate, Room;
    var before := dest - 1;
    assert !Room(dst, before, total) && !Unmapped(dst, before, total);
  }

  /** Unmapping from before the window on takes a byte that is not the window's. */
  lemma TakesServerByte(dst: Space, dst1: Space, v: nat, size: nat, dest: nat, total: nat)
    requires Ordered(dst1) && v < dest < v + size && Translate(dst, dest - 1).Some?
    requires forall a | !(dest <= a < dest + total) :: Translate(dst1, a) == Translate(dst, a)
    ensures !Same(dst, Unmap(dst1, v, size).1)
  {
    FoundMeans(dst1, v, size);
    var i := Found(dst1, v, size);
    assert Translate(dst1, dest - 1).Some?;
    assert i < |dst1| && dst1[i].start <= dest - 1;
    UnmapTakesFirst(dst1, v, size);
    var f := FirstOf(dst1[i], v);
    assert dst1[i].size > 0 && dst1[i].Has(f);
    TranslateOf(dst1, i, f);
    hide Unmap, Translate, Found;
    assert f < dest && Translate(dst, f).Some?;
    assert Translate(Unmap(dst1, v, size).1, f) == None;
  }

  /** Unmapping from behind the first byte of the window on leaves that byte. */
  lemma LeavesWindowByte(dst: Space, dst1: Space, v: nat, size: nat, dest: nat, total: nat)
    requires Ordered(dst1) && dest < v && total > 0 && Unmapped(dst, dest, total) && FullyMapped(dst1, dest, total)
    ensures !Same(dst, Unmap(dst1, v, size).1)
  {
    UnmapFrame(dst1, v, size);
    hide Unmap, Translate;
    assert Translate(dst1, dest).Some? && Translate(dst, dest) == None;
  }

  /** After any request that succeeded, the reply that names the address and size the server was given
      restores the server's translation and permissions at every address exactly if that address has
      the page offset of the client's buffer. */
  lemma ReplyRestores(src: Space, dst: Space, addr: nat, size: nat, perms: Permissions)
    requires Ordered(src) && Ordered(dst) && size > 0
    requires Request(src, dst, addr, size, perms).Ok?
    ensures var (dst1, told) := Request(src, dst, addr, size, perms).value;
            && told.Some?
            && var r := Reply(dst1, told.value, size);
            && (r.Ok? && Same(dst, r.value) <==> told.value % PAGE == addr % PAGE)
            && (r.Ok? ==> Ordered(r.value))
  {
    hide Ordered, FindAvailable, MapChunks, Translate, PageBase, PagedEnds, Unmap, MappedSize,
         Map, Aliased, FullyMapped, Without, Same, Unmapped, OnlyFrom;
    var total := MappedSize(addr, size);
    var (dst1, told) := Request(src, dst, addr, size, perms).value;
    RequestAliases(src, dst, addr, size, perms);
    var dest := FindAvailable(dst, total, 0x1000_0000, 0x2000_0000).value;
    ToldOffset(dest, addr);
    var v, n := PageBase(told.value), MappedSize(told.value, size);
    UnmapFrame(dst1, v, n);
    if dest % PAGE == 0 {
      SameWindow(dest, addr, size);
      UnmapExact(dst1, dest, total);
      Restored(dst, dst1, Unmap(dst1, dest, total).1, dest, total);
    } else {
      ReplyStart(dest, addr, size);
      if dest < v {
        LeavesWindowByte(dst, dst1, v, n, dest, total);
      } else {
        WindowBehind(dst, total, dest);
        TakesServerByte(dst, dst1, v, n, dest, total);
      }
    }
  }

  /** That is so in a server whose mappings all end at page boundaries. */
  lemma PagedServerRestores(src: Space, dst: Space, addr: nat, size: nat, perms: Permissions)
    requires Ordered(src) && Ordered(dst) && size > 0 && (forall b | b in dst :: b.End() % PAGE == 0)
    requires Request(src, dst, addr, size, perms).Ok?
    ensures var (dst1, told) := Request(src, dst, addr, size, perms).value;
            && told.Some?
            && var r := Reply(dst1, told.value, size);
            r.Ok? && Same(dst, r.value)
  {
    hide Ordered, FindAvailable, MapChunks, PageBase, MappedSize, Reply, Same, Unmapped, FullyMapped, Aliased, PagedEnds, Translate;
    RequestAliases(src, dst, addr, size, perms);
    var dest := FindAvailable(dst, MappedSize(addr, size), 0x1000_0000, 0x2000_0000).value;
    WindowPaged(dst, MappedSize(addr, size), dest);
    ToldOffset(dest, addr);
    ReplyRestores(src, dst, addr, size, perms);
  }

  lemma WindowPaged(dst: Space, total: nat, dest: nat)
    requires forall b | b in dst :: b.End() % PAGE == 0
    requires FindAvailable(dst, total, 0x1000_0000, 0x2000_0000) == Some(dest)
    ensures dest % PAGE == 0
  {
    CandidatePaged(dst, total, 0x1000_0000);
  }

  /** A server with half a page of its own, and a client's buffer of a few bytes: the reply is accepted,
      takes the server's own bytes away and leaves half of the window. */
  lemma ReplyDamagesServer(p: nat, q: nat)
    ensures var src := [Block(0, 0x1000, Frame(q, ReadWrite))];
            var own := Block(0x1000_0000, 0x800, Frame(p, ReadWrite));
            var window := Block(0x1000_0800, 0x1000, Frame(q, Read));
            && Request(src, [own], 0, 0x10, Read) == Ok(([own, window], Some(0x1000_0800)))
            && Reply([own, window], 0x1000_0800, 0x10) == Ok([Block(0x1000_1000, 0x800, Frame(q + 0x800, Read))])
  {
    HalfPageRequest(p, q);
    HalfPageReply(p, q);
  }

  lemma HalfPageRequest(p: nat, q: nat)
    ensures var src := [Block(0, 0x1000, Frame(q, ReadWrite))];
            var own := Block(0x1000_0000, 0x800, Frame(p, ReadWrite));
            Request(src, [own], 0, 0x10, Read) == Ok(([own, Block(0x1000_0800, 0x1000, Frame(q, Read))], Some(0x1000_0800)))
  {
    var src := [Block(0, 0x1000, Frame(q, ReadWrite))];
    var own := Block(0x1000_0000, 0x800, Frame(p, ReadWrite));
    var window := Block(0x1000_0800, 0x1000, Frame(q, Read));
    var none: Space := [];
    assert MappedSize(0, 0x10) == 0x1000 && PageBase(0) == 0;
    assert [own][1..] == none && Candidate(none, 0x1000, 0x1000_0800) == 0x1000_0800;
    assert Candidate([own], 0x1000, 0x1000_0000) == 0x1000_0800;
    assert FindAvailable([own], 0x1000, 0x1000_0000, 0x2000_0000) == Some(0x1000_0800);
    assert src[1..] == none && UpperBound(none, 0) == 0 && UpperBound(src, 0) == 1;
    assert ResolveWithSize(src, 0) == Some((q, 0x1000));
    assert LowerBound(none, 0x1000_0800) == 0 && LowerBound([own], 0x1000_0800) == 1;
    assert Insert(none, window) == [window] && Insert([own], window) == [own, window];
    assert Map([own], q, 0x1000, 0x1000_0800, Read) == (Success, [own, window]);
    hide Map, ResolveWithSize, FindAvailable;
    assert MapChunks(src, [own, window], 0, 0x1000, 0x1000, 0x1000_0800, Read) == Ok([own, window]);
    assert MapChunks(src, [own], 0, 0, 0x1000, 0x1000_0800, Read) == Ok([own, window]);
  }

  lemma HalfPageReply(p: nat, q: nat)
    ensures var own := Block(0x1000_0000, 0x800, Frame(p, ReadWrite));
            var window := Block(0x1000_0800, 0x1000, Frame(q, Read));
            Reply([own, window], 0x1000_0800, 0x10) == Ok([Block(0x1000_1000, 0x800, Frame(q + 0x800, Read))])
  {
    var own := Block(0x1000_0000, 0x800, Frame(p, ReadWrite));
    var window := Block(0x1000_0800, 0x1000, Frame(q, Read));
    var rest := Block(0x1000_1000, 0x800, Frame(q + 0x800, Read));
    var none: Space := [];
    assert PageBase(0x1000_0800) == 0x1000_0000 && MappedSize(0x1000_0800, 0x10) == 0x1000;
    assert [own, window][1..] == [window] && [window][1..] == none;
    assert UpperBound(none, 0x1000_0800) == 0 && UpperBound([window], 0x1000_0800) == 1;
    assert UpperBound([window], 0x1000_0000) == 0 && UpperBound([own, window], 0x1000_0000) == 1;
    assert Found([window], 0x1000_0800, 0x800) == 0 && Found([own, window], 0x1000_0000, 0x1000) == 0;
    assert Erase([window], 0) == none && Erase([own, window], 0) == [window];
    assert Cut([window], 0, 0x1000_0800, 0x800) == [rest] && Cut([own, window], 0, 0x1000_0000, 0x1000) == [window];
    UnmapRound([window], 0x1000_0800, 0x800);
    UnmapRound([own, window], 0x1000_0000, 0x1000);
    hide Unmap, Found, Cut;
    assert Unmap([own, window], 0x1000_0000, 0x1000) == (Success, [rest]);
  }

  lemma Restored(dst: Space, dst1: Space, dst2: Space, dest: nat, total: nat)
    requires Unmapped(dst, dest, total) && Without(dst1, dst2, dest, total)
    requires forall a | !(dest <= a < dest + total) :: Translate(dst1, a) == Translate(dst, a)
    ensures Same(dst, dst2)
  {
    hide Translate;
  }

  /** The mapping loop. */
  method MapBuffer(client: Process, server: Process, addr: nat, total: nat, dest: nat, perms: Permissions)
      returns (report: Option<Fault>)
    requires client != server
    modifies server
    ensures var r := MapChunks(client.virtualMemory, old(server.virtualMemory), addr, 0, total, dest, perms);
            if r.Ok? then report == None && server.virtualMemory == r.value else report == Some(r.fault)
  {
    hide Map, ResolveWithSize, PageBase;
    var mapped: nat := 0;
    while mapped < total
      invariant client.virtualMemory == old(client.virtualMemory)
      invariant MapChunks(client.virtualMemory, server.virtualMemory, addr, mapped, total, dest, perms)
                == MapChunks(client.virtualMemory, old(server.virtualMemory), addr, 0, total, dest, perms)
      decreases total - mapped
    {
      var c := ResolveWithSize(client.virtualMemory, PageBase(addr + mapped));
      if c.None? {
        return Some(Unresolved);
      }
      var n := Least(c.value.1, total - mapped);
      var success := server.MapVirtualMemory(c.value.0, n, dest + mapped, perms);
      if success != Success {
        return Some(ChunkRefused);
      }
      mapped := mapped + n;
    }
    report := None;
  }
}
