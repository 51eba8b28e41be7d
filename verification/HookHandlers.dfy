/**
  Which handler a hooked byte is served by. Touching ranges are merged whatever
  their handlers, so that a hook can end up with the handler of its neighbour;
  when that happens is decided by the two neighbouring bytes.
 */
module HookHandlers {
  import opened Options
  import opened Pages
  import opened Intervals
  import opened HookLists
  import opened MemoryHooks

  /** The handler of the byte at a, if it is hooked. */
  ghost function HandlerAt(hs: Hooks, a: int): Option<Handler> {
    if At(hs, a).None? then None else Some(At(hs, a).value.tag)
  }

  // ---------------------------------------------------------------------------
  // One list
  // ---------------------------------------------------------------------------

  ghost function First(x: Option<Handler>, y: Option<Handler>): Option<Handler> {
    if x.Some? then x else y
  }

  lemma HandlerConcat(x: Hooks, y: Hooks, a: int)
    ensures HandlerAt(x + y, a) == First(HandlerAt(x, a), HandlerAt(y, a))
  {
    AtConcat(x, y, a);
  }

  lemma HandlerOne(h: Hook, a: int)
    ensures HandlerAt([h], a) == if h.Has(a) then Some(h.tag) else None
  {
    var none: Hooks := [];
    assert [h][1..] == none;
    assert At(none, a) == None;
  }

  lemma HandlerOfRange(hs: Hooks, i: nat, a: int)
    requires Spaced(hs) && i < |hs| && hs[i].Has(a)
    ensures At(hs, a) == Some(hs[i]) && HandlerAt(hs, a) == Some(hs[i].tag)
  {
    assert Ordered(hs);
    AtOf(hs, i, a);
  }

  lemma NotHooked(hs: Hooks, a: int)
    requires forall j | 0 <= j < |hs| :: !hs[j].Has(a)
    ensures At(hs, a) == None && HandlerAt(hs, a) == None
  {
    if At(hs, a).Some? {
      var j := AtWitness(hs, a);
    }
  }

  /** The ranges before position lo end before a. */
  lemma NotBefore(hs: Hooks, lo: nat, a: int)
    requires Spaced(hs) && lo <= |hs| && (lo > 0 ==> hs[lo - 1].End() <= a)
    ensures HandlerAt(hs[..lo], a) == None
  {
    forall j | 0 <= j < lo
      ensures !hs[..lo][j].Has(a)
    {
      assert j < lo - 1 ==> hs[j].End() < hs[lo - 1].start;
    }
    NotHooked(hs[..lo], a);
  }

  lemma ThreeParts(x: Hooks, m: Hooks, y: Hooks, a: int)
    ensures HandlerAt(x + m + y, a) == First(HandlerAt(x, a), First(HandlerAt(m, a), HandlerAt(y, a)))
  {
    HandlerConcat(x + m, y, a);
    HandlerConcat(x, m, a);
  }

  /** A stretch of the list is replaced by one range that has all its bytes. */
  lemma Replaced(hs: Hooks, lo: nat, hi: nat, h: Hook, a: int)
    requires Spaced(hs) && lo <= hi <= |hs|
    requires lo > 0 ==> hs[lo - 1].End() <= h.start
    requires hi < |hs| ==> h.End() <= hs[hi].start
    requires forall j | lo <= j < hi :: h.start <= hs[j].start && hs[j].End() <= h.End()
    ensures HandlerAt(hs[..lo] + [h] + hs[hi..], a) == if h.Has(a) then Some(h.tag) else HandlerAt(hs, a)
  {
    ThreeParts(hs[..lo], [h], hs[hi..], a);
    HandlerOne(h, a);
    if h.Has(a) {
      NotBefore(hs, lo, a);
    } else {
      assert hs == hs[..lo] + hs[lo..hi] + hs[hi..];
      ThreeParts(hs[..lo], hs[lo..hi], hs[hi..], a);
      assert forall j | 0 <= j < hi - lo :: hs[lo..hi][j] == hs[lo + j];
      NotHooked(hs[lo..hi], a);
    }
  }

  /** The handler that the bytes of a new hook get: that of the hook right in front of it, or else of the one
      right behind it, or else their own. */
  ghost function Winner(hs: Hooks, start: nat, n: nat, handler: Handler): Handler {
    if HandlerAt(hs, start - 1).Some? then HandlerAt(hs, start - 1).value
    else if HandlerAt(hs, start + n).Some? then HandlerAt(hs, start + n).value
    else handler
  }

  /** a is in the hook right behind the new one, and that is merged with the hook in front. */
  ghost predicate TakenOver(hs: Hooks, start: nat, n: nat, a: int) {
    At(hs, start - 1).Some? && At(hs, start + n).Some? && At(hs, start + n).value.Has(a)
  }

  ghost predicate Hands(hs: Hooks, hs': Hooks, start: nat, n: nat, handler: Handler) {
    forall a :: HandlerAt(hs', a) == if start <= a < start + n then Some(Winner(hs, start, n, handler))
                                     else if TakenOver(hs, start, n, a) then HandlerAt(hs, start - 1)
                                     else HandlerAt(hs, a)
  }

  /** The handlers are what was asked for: the new bytes have the given one, and all others keep theirs. */
  ghost predicate HandsAsAsked(hs: Hooks, hs': Hooks, start: nat, n: nat, handler: Handler) {
    forall a :: HandlerAt(hs', a) == if start <= a < start + n then Some(handler) else HandlerAt(hs, a)
  }

  /** The neighbours decide whether there is something to merge with. */
  lemma Neighbours(hs: Hooks, start: nat, n: nat)
    requires Spaced(hs) && n > 0 && (forall a | start <= a < start + n :: !Covered(hs, a))
    ensures var i := Behind(hs, start);
            && (i > 0 ==> hs[i - 1].End() <= start) && (i < |hs| ==> start + n <= hs[i].start)
            && At(hs, start - 1) == (if i > 0 && hs[i - 1].End() == start then Some(hs[i - 1]) else None)
            && At(hs, start + n) == (if i < |hs| && hs[i].start == start + n then Some(hs[i]) else None)
  {
    NeighboursDecide(hs, start, n);
    var i := Behind(hs, start);
    hide Covered;
    if i > 0 && hs[i - 1].End() == start {
      HandlerOfRange(hs, i - 1, start - 1);
    } else {
      forall j | 0 <= j < |hs|
        ensures !hs[j].Has(start - 1)
      {
        assert j < i - 1 ==> hs[j].End() < hs[i - 1].start;
        assert i < j ==> hs[i].End() < hs[j].start;
      }
      NotHooked(hs, start - 1);
    }
    if i < |hs| && hs[i].start == start + n {
      HandlerOfRange(hs, i, start + n);
    } else {
      forall j | 0 <= j < |hs|
        ensures !hs[j].Has(start + n)
      {
        assert j < i - 1 ==> hs[j].End() < hs[i - 1].start;
        assert i < j ==> hs[i].End() < hs[j].start;
      }
      NotHooked(hs, start + n);
    }
  }

  /** The merged range has the bytes of the ranges it takes the place of, and no others. */
  lemma MergeFits(hs: Hooks, i: nat, start: nat, n: nat, handler: Handler)
    requires Spaced(hs) && n > 0 && i <= |hs|
    requires (i > 0 ==> hs[i - 1].End() <= start) && (i < |hs| ==> start + n <= hs[i].start)
    ensures var (lo, hi, h) := Merge(hs, i, start, n, handler);
            && lo <= hi <= |hs| && (lo > 0 ==> hs[lo - 1].End() <= h.start) && (hi < |hs| ==> h.End() <= hs[hi].start)
            && forall j | lo <= j < hi :: h.start <= hs[j].start && hs[j].End() <= h.End()
  {
    var (lo, hi, h) := Merge(hs, i, start, n, handler);
    assert 0 < lo < i ==> hs[lo - 1].End() < hs[lo].start;
    assert i < hi < |hs| ==> hs[i].End() < hs[hi].start;
  }

  /** Who serves which byte once a hook is set. */
  lemma SetHands(hs: Hooks, start: nat, n: nat, handler: Handler)
    requires Spaced(hs) && n > 0 && Set(hs, start, n, handler).Ok?
    ensures Hands(hs, Set(hs, start, n, handler).hooks, start, n, handler)
  {
    SetExact(hs, start, n, handler);
    Neighbours(hs, start, n);
    var i := Behind(hs, start);
    var (lo, hi, h) := Merge(hs, i, start, n, handler);
    ExtendedIs(hs, i, start, n, handler);
    MergeFits(hs, i, start, n, handler);
    assert Set(hs, start, n, handler).hooks == hs[..lo] + [h] + hs[hi..];
    hide Set, Extended, Covered, Spaced, Winner, TakenOver, Merge, At;
    forall a
      ensures HandlerAt(hs[..lo] + [h] + hs[hi..], a)
              == if start <= a < start + n then Some(Winner(hs, start, n, handler))
                 else if TakenOver(hs, start, n, a) then HandlerAt(hs, start - 1)
                 else HandlerAt(hs, a)
    {
      Replaced(hs, lo, hi, h, a);
      Merged(hs, i, start, n, handler, a);
    }
  }

  /** Who serves the bytes of the merged range. */
  lemma Merged(hs: Hooks, i: nat, start: nat, n: nat, handler: Handler, a: int)
    requires Spaced(hs) && n > 0 && i == Behind(hs, start)
    requires At(hs, start - 1) == (if i > 0 && hs[i - 1].End() == start then Some(hs[i - 1]) else None)
    requires At(hs, start + n) == (if i < |hs| && hs[i].start == start + n then Some(hs[i]) else None)
    ensures var h := Merge(hs, i, start, n, handler).2;
            && h.tag == Winner(hs, start, n, handler)
            && (start <= a < start + n ==> h.Has(a))
            && (TakenOver(hs, start, n, a) ==> h.Has(a) && HandlerAt(hs, start - 1) == Some(h.tag))
            && (h.Has(a) && !(start <= a < start + n) && !TakenOver(hs, start, n, a) ==> HandlerAt(hs, a) == Some(h.tag))
  {
    var before := i > 0 && hs[i - 1].End() == start;
    var after := i < |hs| && hs[i].start == start + n;
    if before && hs[i - 1].Has(a) {
      HandlerOfRange(hs, i - 1, a);
    }
    if after && hs[i].Has(a) {
      HandlerOfRange(hs, i, a);
    }
  }

  ghost predicate Agrees(x: Option<Handler>, handler: Handler) {
    x == None || x == Some(handler)
  }

  /** The handlers are what was asked for exactly if the bytes right before and right behind the hook are not
      hooked, or hooked with the same handler. */
  lemma HandsAsAskedIff(hs: Hooks, start: nat, n: nat, handler: Handler)
    requires Spaced(hs) && n > 0 && Set(hs, start, n, handler).Ok?
    ensures HandsAsAsked(hs, Set(hs, start, n, handler).hooks, start, n, handler)
            <==> Agrees(HandlerAt(hs, start - 1), handler) && Agrees(HandlerAt(hs, start + n), handler)
  {
    SetHands(hs, start, n, handler);
    SetExact(hs, start, n, handler);
    Neighbours(hs, start, n);
    hide Set, Covered;
    var hs' := Set(hs, start, n, handler).hooks;
    if HandsAsAsked(hs, hs', start, n, handler) {
      assert HandlerAt(hs', start) == Some(handler) && HandlerAt(hs', start + n) == HandlerAt(hs, start + n);
    } else {
      var a :| HandlerAt(hs', a) != if start <= a < start + n then Some(handler) else HandlerAt(hs, a);
      if !(start <= a < start + n) && TakenOver(hs, start, n, a) {
        HandlerOfRange(hs, Behind(hs, start), a);
      }
    }
  }

  /** What clearing leaves keeps its handler. */
  lemma {:induction false} ClearHands(hs: Hooks, start: nat, n: nat, a: int)
    ensures HandlerAt(Clear(hs, start, n), a) == if start <= a < start + n then None else HandlerAt(hs, a)
  {
    if hs != [] {
      ClearHands(hs[1..], start, n, a);
      HandlerConcat(Remains(hs[0], start, n), Clear(hs[1..], start, n), a);
      HandlerConcat([hs[0]], hs[1..], a);
      HandlerOne(hs[0], a);
      RemainsHands(hs[0], start, n, a);
      assert [hs[0]] + hs[1..] == hs;
    }
  }

  lemma RemainsHands(h: Hook, start: nat, n: nat, a: int)
    ensures HandlerAt(Remains(h, start, n), a) == if h.Has(a) && !(start <= a < start + n) then Some(h.tag) else None
  {
    var r := Remains(h, start, n);
    if |r| == 1 {
      HandlerOne(r[0], a);
      assert r == [r[0]];
    } else if |r| == 2 {
      assert r == [r[0]] + [r[1]];
      HandlerConcat([r[0]], [r[1]], a);
      HandlerOne(r[0], a);
      HandlerOne(r[1], a);
    }
  }

  // ---------------------------------------------------------------------------
  // The bus
  // ---------------------------------------------------------------------------

  /** The handler for accesses of kind k to the byte at a, if they are hooked. */
  ghost function HandlerOf(b: Bus, k: Kind, a: int): Option<Handler>
    requires WellFormed(b)
  {
    if b.base <= a < b.base + |b.read| * PAGE then HandlerAt(List(b, k, PageOf(b, a)), a) else None
  }

  /** Accesses of kind k to the given bytes have the handler, and all others the one they had. */
  ghost predicate Assigns(b: Bus, b': Bus, k: Kind, start: nat, n: nat, handler: Handler)
    requires WellFormed(b) && WellFormed(b')
  {
    forall k', a :: HandlerOf(b', k', a) == if k' == k && start <= a < start + n then Some(handler) else HandlerOf(b, k', a)
  }

  lemma HandlerAfter(b: Bus, k: Kind, p: nat, hs: Hooks, k': Kind, a: int)
    requires WellFormed(b) && p < |b.read|
    ensures HandlerOf(Update(b, k, p, hs), k', a)
            == if k' == k && b.base + p * PAGE <= a < b.base + (p + 1) * PAGE then HandlerAt(hs, a) else HandlerOf(b, k', a)
  {
    hide HandlerAt;
    if b.base <= a < b.base + |b.read| * PAGE {
      var q := PageOf(b, a);
      assert q == p <==> b.base + p * PAGE <= a < b.base + (p + 1) * PAGE;
    }
  }

  /** A hook is served by its own handler and leaves all others theirs exactly if no hook of the same kind with
      another handler touches it on its page. */
  lemma SetHookHandsIff(s: State, k: Kind, start: nat, n: nat, handler: Handler)
    requires Inv(s) && InPage(s.bus, start, n) && SetHook(s, k, start, n, handler).Done?
    ensures WellFormed(SetHook(s, k, start, n, handler).state.bus) && PageOf(s.bus, start) < |s.bus.read|
    ensures var hs := List(s.bus, k, PageOf(s.bus, start));
            Assigns(s.bus, SetHook(s, k, start, n, handler).state.bus, k, start, n, handler)
            <==> Agrees(HandlerAt(hs, start - 1), handler) && Agrees(HandlerAt(hs, start + n), handler)
  {
    InPageBytes(s.bus, k, start, n);
    var p := PageOf(s.bus, start);
    var hs := List(s.bus, k, p);
    assert ListOk(s.bus, p, hs);
    var hs' := Set(hs, start, n, handler).hooks;
    assert ListOk(s.bus, p, hs') by { SetHookExact(s, k, start, n, handler); SetExact(hs, start, n, handler); }
    HandsAsAskedIff(hs, start, n, handler);
    hide Set, Inv, Agrees;
    AssignsIff(s.bus, k, p, hs', start, n, handler);
  }

  lemma AssignsIff(b: Bus, k: Kind, p: nat, hs': Hooks, start: nat, n: nat, handler: Handler)
    requires WellFormed(b) && p < |b.read| && ListOk(b, p, List(b, k, p)) && ListOk(b, p, hs')
    requires b.base + p * PAGE <= start && start + n <= b.base + (p + 1) * PAGE
    ensures Assigns(b, Update(b, k, p, hs'), k, start, n, handler)
            <==> HandsAsAsked(List(b, k, p), hs', start, n, handler)
  {
    hide Spaced;
    var b' := Update(b, k, p, hs');
    var hs := List(b, k, p);
    forall k', a
      ensures HandlerOf(b', k', a) == if k' == k && b.base + p * PAGE <= a < b.base + (p + 1) * PAGE then HandlerAt(hs', a) else HandlerOf(b, k', a)
      ensures HandlerOf(b, k', a) == if k' == k && b.base + p * PAGE <= a < b.base + (p + 1) * PAGE then HandlerAt(hs, a) else HandlerOf(b, k', a)
    {
      HandlerAfter(b, k, p, hs', k', a);
      HandlerAfter(b, k, p, hs, k', a);
      assert Update(b, k, p, hs) == b;
    }
    forall a | !(b.base + p * PAGE <= a < b.base + (p + 1) * PAGE)
      ensures HandlerAt(hs, a) == None && HandlerAt(hs', a) == None
    {
      assert !Covered(hs, a) && !Covered(hs', a);
    }
    hide HandlerOf, HandlerAt, ListOk;
    if Assigns(b, b', k, start, n, handler) {
      forall a
        ensures HandlerAt(hs', a) == if start <= a < start + n then Some(handler) else HandlerAt(hs, a)
      {
        assert HandlerOf(b', k, a) == if start <= a < start + n then Some(handler) else HandlerOf(b, k, a);
      }
    }
  }

  /** The lists of pages [p, end) are cleared. */
  ghost predicate Cleared(b: Bus, b': Bus, x: Access, p: nat, end: nat, start: nat, n: nat)
    requires WellFormed(b)
  {
    && WellFormed(b') && SameSize(b, b')
    && forall k, q: nat | q < |b.read| ::
         List(b', k, q) == if p <= q < end && x.Means(k) then Clear(List(b, k, q), start, n) else List(b, k, q)
  }

  lemma ClearPageLists(s: State, x: Access, p: nat, start: nat, n: nat)
    requires WellFormed(s.bus) && p < |s.bus.read| && ClearPage(s, x, p, start, n).Done?
    ensures Cleared(s.bus, ClearPage(s, x, p, start, n).state.bus, x, p, p + 1, start, n)
  {
    hide Clear;
  }

  lemma {:induction false} ClearPagesLists(s: State, x: Access, p: nat, end: nat, start: nat, n: nat)
    requires WellFormed(s.bus) && end <= |s.bus.read| && ClearPages(s, x, p, end, start, n).Done?
    ensures Cleared(s.bus, ClearPages(s, x, p, end, start, n).state.bus, x, p, end, start, n)
    decreases end - p
  {
    hide ClearPage, Cleared;
    if p >= end {
      NothingCleared(s.bus, x, p, end, start, n);
    } else {
      ClearPageLists(s, x, p, start, n);
      var s1 := ClearPage(s, x, p, start, n).state;
      ClearedWell(s.bus, s1.bus, x, p, p + 1, start, n);
      assert ClearPages(s, x, p, end, start, n) == ClearPages(s1, x, p + 1, end, start, n);
      hide ClearPages, WellFormed;
      ClearPagesLists(s1, x, p + 1, end, start, n);
      ClearedThen(s.bus, s1.bus, ClearPages(s1, x, p + 1, end, start, n).state.bus, x, p, end, start, n);
    }
  }

  lemma NothingCleared(b: Bus, x: Access, p: nat, end: nat, start: nat, n: nat)
    requires WellFormed(b) && p >= end
    ensures Cleared(b, b, x, p, end, start, n)
  {
    hide Clear;
  }

  lemma ClearedThen(b: Bus, b1: Bus, b2: Bus, x: Access, p: nat, end: nat, start: nat, n: nat)
    requires WellFormed(b) && WellFormed(b1) && p < end
    requires Cleared(b, b1, x, p, p + 1, start, n) && Cleared(b1, b2, x, p + 1, end, start, n)
    ensures Cleared(b, b2, x, p, end, start, n)
  {
    hide Clear;
  }

  /** Clearing takes the handlers of exactly the bytes of the range; what remains of a hook that is shortened or
      split keeps its handler. */
  lemma ClearHookHands(s: State, x: Access, start: nat, n: nat)
    requires WellFormed(s.bus) && OnBus(s.bus, start, n) && ClearHook(s, x, start, n).Done?
    ensures var b' := ClearHook(s, x, start, n).state.bus;
            && WellFormed(b') && SameSize(s.bus, b')
            && forall k, a :: HandlerOf(b', k, a)
                              == if x.Means(k) && start <= a < start + n then None else HandlerOf(s.bus, k, a)
  {
    PagesOnBus(s.bus, start, n);
    var b := s.bus;
    var p, end := PageOf(b, start), EndPage(b, start, n);
    ClearPagesLists(s, x, p, end, start, n);
    var b' := ClearHook(s, x, start, n).state.bus;
    assert start + n <= b.base + end * PAGE;
    hide ClearPages, HandlerOf, Cleared;
    forall k, a
      ensures HandlerOf(b', k, a) == if x.Means(k) && start <= a < start + n then None else HandlerOf(b, k, a)
    {
      ClearedByte(b, b', x, p, end, start, n, k, a);
    }
    assert WellFormed(b') && SameSize(b, b') by { ClearedWell(b, b', x, p, end, start, n); }
  }

  lemma ClearedWell(b: Bus, b': Bus, x: Access, p: nat, end: nat, start: nat, n: nat)
    requires WellFormed(b) && Cleared(b, b', x, p, end, start, n)
    ensures WellFormed(b') && SameSize(b, b')
  {
  }

  lemma ClearedByte(b: Bus, b': Bus, x: Access, p: nat, end: nat, start: nat, n: nat, k: Kind, a: int)
    requires WellFormed(b) && Cleared(b, b', x, p, end, start, n)
    requires b.base + p * PAGE <= start && start + n <= b.base + end * PAGE
    ensures WellFormed(b')
    ensures HandlerOf(b', k, a) == if x.Means(k) && start <= a < start + n then None else HandlerOf(b, k, a)
  {
    hide HandlerAt, Clear;
    if b.base <= a < b.base + |b.read| * PAGE {
      var q := PageOf(b, a);
      ClearHands(List(b, k, q), start, n, a);
      if start <= a < start + n {
        assert p <= q < end;
      }
    }
  }
}
