/**
  One page's list of hooked ranges: sorted, disjoint and with gaps in between.
  Ranges are extended and merged when a hook is set, and shortened, split or
  dropped when one is cleared. The tag of a range is its handler; merging keeps
  only one of the handlers, so that the facts here are about bytes.
 */
module HookLists {
  import opened Options
  import opened Intervals

  type Handler = nat
  type Hook = Block<Handler>
  type Hooks = seq<Hook>

  datatype Outcome = Ok(hooks: Hooks) | Refused

  /** Sorted, disjoint, not touching, not empty. */
  ghost predicate Spaced(hs: Hooks) {
    && (forall i | 0 <= i < |hs| :: hs[i].size > 0)
    && (forall i, j | 0 <= i < j < |hs| :: hs[i].End() < hs[j].start)
  }

  /** The byte at a is hooked. */
  ghost predicate Covered(hs: Hooks, a: int) {
    At(hs, a).Some?
  }

  predicate Overlaps(h: Hook, start: nat, n: nat) {
    !(h.End() <= start || start + n <= h.start)
  }

  // ---------------------------------------------------------------------------
  // Setting
  // ---------------------------------------------------------------------------

  /** Position of the first range that does not start below `start`. */
  function Behind(hs: Hooks, start: nat): (i: nat)
    ensures i <= |hs|
    ensures i < |hs| ==> start <= hs[i].start
    ensures forall j | 0 <= j < i :: hs[j].start < start
  {
    if hs == [] || start <= hs[0].start then 0 else 1 + Behind(hs[1..], start)
  }

  /** The list with [start, start + n) added in front of position i, merged with its neighbours. */
  function Extended(hs: Hooks, i: nat, start: nat, n: nat, handler: Handler): Hooks
    requires i <= |hs| && (i < |hs| ==> n <= hs[i].start)
  {
    var meetsAfter := i < |hs| && hs[i].start == start + n;
    if i > 0 && hs[i - 1].End() == start then
      var b := hs[i - 1];
      if meetsAfter
      then hs[..i - 1] + [b.(size := b.size + n + hs[i].size)] + hs[i + 1..]
      else hs[..i - 1] + [b.(size := b.size + n)] + hs[i..]
    else if meetsAfter then hs[..i] + [hs[i].(start := hs[i].start - n, size := hs[i].size + n)] + hs[i + 1..]
    else hs[..i] + [Block(start, n, handler)] + hs[i..]
  }

  function Set(hs: Hooks, start: nat, n: nat, handler: Handler): Outcome {
    var i := Behind(hs, start);
    if i > 0 && hs[i - 1].End() > start then Refused
    else if i < |hs| && hs[i].start < start + n then Refused
    else Ok(Extended(hs, i, start, n, handler))
  }

  lemma CoveredConcat(x: Hooks, y: Hooks, a: int)
    ensures Covered(x + y, a) <==> Covered(x, a) || Covered(y, a)
  {
    AtConcat(x, y, a);
  }

  lemma CoveredOne(h: Hook, a: int)
    ensures Covered([h], a) <==> h.Has(a)
  {
    var none: Hooks := [];
    assert [h][1..] == none;
    assert At(none, a) == None;
  }

  lemma {:induction false} CoveredBy(hs: Hooks, i: nat, a: int)
    requires i < |hs| && hs[i].Has(a)
    ensures Covered(hs, a)
  {
    if i > 0 {
      CoveredBy(hs[1..], i - 1, a);
    }
  }

  lemma CoverWitness(hs: Hooks, a: int) returns (i: nat)
    requires Covered(hs, a)
    ensures i < |hs| && hs[i].Has(a)
  {
    i := AtWitness(hs, a);
  }

  /** A list in three parts. */
  lemma CoveredParts(x: Hooks, h: Hook, y: Hooks, a: int)
    ensures Covered(x + [h] + y, a) <==> Covered(x, a) || h.Has(a) || Covered(y, a)
  {
    CoveredConcat(x + [h], y, a);
    CoveredConcat(x, [h], a);
    CoveredOne(h, a);
  }

  /** Spacing of a list in three parts. */
  lemma SpacedParts(x: Hooks, h: Hook, y: Hooks)
    requires Spaced(x) && Spaced(y) && h.size > 0
    requires x != [] ==> x[|x| - 1].End() < h.start
    requires y != [] ==> h.End() < y[0].start
    ensures Spaced(x + [h] + y)
  {
    var r := x + [h] + y;
    forall i, j | 0 <= i < j < |r|
      ensures r[i].End() < r[j].start
    {
      assert i < |x| - 1 ==> x[i].End() < x[|x| - 1].start;
      assert j > |x| + 1 ==> y[0].End() < y[j - |x| - 1].start;
      if i < |x| && j > |x| {
        assert r[i].End() < h.start;
      }
    }
  }

  /** In a spaced list the two neighbours decide whether a range is free of hooks. */
  lemma NeighboursDecide(hs: Hooks, start: nat, n: nat)
    requires Spaced(hs) && n > 0
    ensures var i := Behind(hs, start);
            (i > 0 && hs[i - 1].End() > start) || (i < |hs| && hs[i].start < start + n)
            <==> exists a :: start <= a < start + n && Covered(hs, a)
  {
    var i := Behind(hs, start);
    if i > 0 && hs[i - 1].End() > start {
      CoveredBy(hs, i - 1, start);
    } else if i < |hs| && hs[i].start < start + n {
      CoveredBy(hs, i, hs[i].start);
    } else {
      forall a | start <= a < start + n
        ensures !Covered(hs, a)
      {
        if Covered(hs, a) {
          var k := CoverWitness(hs, a);
          assert false;
        }
      }
    }
  }

  /** What Extended does to the covered bytes, and that the list stays spaced. */
  lemma ExtendedExact(hs: Hooks, i: nat, start: nat, n: nat, handler: Handler)
    requires Spaced(hs) && n > 0 && i <= |hs|
    requires i > 0 ==> hs[i - 1].End() <= start
    requires i < |hs| ==> start + n <= hs[i].start
    ensures var r := Extended(hs, i, start, n, handler);
            && r != [] && Spaced(r)
            && forall a :: Covered(r, a) <==> Covered(hs, a) || start <= a < start + n
  {
    var (lo, hi, h) := Merge(hs, i, start, n, handler);
    hide Extended, Covered;
    SpacedSlices(hs, lo, hi);
    SpacedParts(hs[..lo], h, hs[hi..]);
    ExtendedIs(hs, i, start, n, handler);
    hide Spaced;
    forall a
      ensures Covered(Extended(hs, i, start, n, handler), a) <==> Covered(hs, a) || start <= a < start + n
    {
      CoveredParts(hs[..lo], h, hs[hi..], a);
      MiddleCovered(hs, lo, i, hi, a);
    }
  }

  /** The merged range, and which positions it takes the place of. */
  function Merge(hs: Hooks, i: nat, start: nat, n: nat, handler: Handler): (nat, nat, Hook)
    requires i <= |hs|
  {
    var before := i > 0 && hs[i - 1].End() == start;
    var after := i < |hs| && hs[i].start == start + n;
    (if before then i - 1 else i,
     if after then i + 1 else i,
     Block(if before then hs[i - 1].start else start,
           (if before then hs[i - 1].size else 0) + n + (if after then hs[i].size else 0),
           if before then hs[i - 1].tag else if after then hs[i].tag else handler))
  }

  lemma ExtendedIs(hs: Hooks, i: nat, start: nat, n: nat, handler: Handler)
    requires i <= |hs| && (i < |hs| ==> start + n <= hs[i].start)
    ensures var (lo, hi, h) := Merge(hs, i, start, n, handler);
            Extended(hs, i, start, n, handler) == hs[..lo] + [h] + hs[hi..]
  {
  }

  lemma SpacedSlices(hs: Hooks, lo: nat, hi: nat)
    requires Spaced(hs) && lo <= |hs| && hi <= |hs|
    ensures Spaced(hs[..lo]) && Spaced(hs[hi..])
  {
  }

  /** The list around position i: what is left of lo, the neighbours, and what is right of hi. */
  lemma MiddleCovered(hs: Hooks, lo: nat, i: nat, hi: nat, a: int)
    requires lo <= i <= hi <= |hs| && i - lo <= 1 && hi - i <= 1
    ensures Covered(hs, a) <==> Covered(hs[..lo], a) || Covered(hs[hi..], a)
                                || (lo < i && hs[lo].Has(a)) || (i < hi && hs[i].Has(a))
  {
    assert hs[i..] == hs[i..hi] + hs[hi..];
    assert hs[lo..] == hs[lo..i] + hs[i..];
    assert hs == hs[..lo] + hs[lo..];
    CoveredConcat(hs[..lo], hs[lo..], a);
    CoveredConcat(hs[lo..i], hs[i..], a);
    CoveredConcat(hs[i..hi], hs[hi..], a);
    if lo < i {
      assert hs[lo..i] == [hs[lo]];
      CoveredOne(hs[lo], a);
    }
    if i < hi {
      assert hs[i..hi] == [hs[i]];
      CoveredOne(hs[i], a);
    }
  }

  /** Setting a hook is refused exactly if one of its bytes is hooked already, and otherwise
      hooks exactly its bytes. */
  lemma SetExact(hs: Hooks, start: nat, n: nat, handler: Handler)
    requires Spaced(hs) && n > 0
    ensures var r := Set(hs, start, n, handler);
            && (r.Ok? <==> forall a | start <= a < start + n :: !Covered(hs, a))
            && (r.Ok? ==>
                  && r.hooks != [] && Spaced(r.hooks)
                  && forall a :: Covered(r.hooks, a) <==> Covered(hs, a) || start <= a < start + n)
  {
    hide Spaced, Extended, Covered;
    NeighboursDecide(hs, start, n);
    if Set(hs, start, n, handler).Ok? {
      ExtendedExact(hs, Behind(hs, start), start, n, handler);
    }
  }

  // ---------------------------------------------------------------------------
  // Clearing
  // ---------------------------------------------------------------------------

  /** What remains of one range. */
  function Remains(h: Hook, start: nat, n: nat): Hooks {
    if !Overlaps(h, start, n) then [h]
    else
      var left := if h.start < start then [h.(size := start - h.start)] else [];
      var right := if h.End() > start + n then [Block(start + n, h.End() - (start + n), h.tag)] else [];
      left + right
  }

  function Clear(hs: Hooks, start: nat, n: nat): Hooks {
    if hs == [] then [] else Remains(hs[0], start, n) + Clear(hs[1..], start, n)
  }

  lemma RemainsExact(h: Hook, start: nat, n: nat, a: int)
    requires h.size > 0
    ensures Covered(Remains(h, start, n), a) <==> h.Has(a) && !(start <= a < start + n)
    ensures forall k | k in Remains(h, start, n) :: k.size > 0 && h.start <= k.start && k.End() <= h.End()
    ensures n > 0 ==> Spaced(Remains(h, start, n))
  {
    var r := Remains(h, start, n);
    if |r| == 1 {
      CoveredOne(r[0], a);
      assert r == [r[0]];
    } else if |r| == 2 {
      assert r == [r[0]] + [r[1]];
      CoveredConcat([r[0]], [r[1]], a);
      CoveredOne(r[0], a);
      CoveredOne(r[1], a);
    }
  }

  lemma {:induction false} ClearCovered(hs: Hooks, start: nat, n: nat, a: int)
    requires Spaced(hs)
    ensures Covered(Clear(hs, start, n), a) <==> Covered(hs, a) && !(start <= a < start + n)
  {
    if hs != [] {
      ClearCovered(hs[1..], start, n, a);
      RemainsExact(hs[0], start, n, a);
      CoveredConcat(Remains(hs[0], start, n), Clear(hs[1..], start, n), a);
      CoveredConcat([hs[0]], hs[1..], a);
      CoveredOne(hs[0], a);
      assert [hs[0]] + hs[1..] == hs;
    }
  }

  lemma {:induction false} ClearSpaced(hs: Hooks, start: nat, n: nat)
    requires Spaced(hs) && n > 0
    ensures Spaced(Clear(hs, start, n))
    ensures forall k | k in Clear(hs, start, n) :: exists h | h in hs :: h.start <= k.start && k.End() <= h.End()
  {
    if hs != [] {
      ClearSpaced(hs[1..], start, n);
      RemainsExact(hs[0], start, n, 0);
      var x, y := Remains(hs[0], start, n), Clear(hs[1..], start, n);
      forall k | k in y
        ensures hs[0].End() < k.start && exists h | h in hs :: h.start <= k.start && k.End() <= h.End()
      {
        var h :| h in hs[1..] && h.start <= k.start && k.End() <= h.End();
        assert hs[0].End() < h.start && h in hs;
      }
      SpacedConcat(x, y, hs[0].End());
      assert hs[0] in hs;
    }
  }

  lemma SpacedConcat(x: Hooks, y: Hooks, m: nat)
    requires Spaced(x) && Spaced(y)
    requires (forall h | h in x :: h.End() <= m) && (forall h | h in y :: m < h.start)
    ensures Spaced(x + y)
  {
    var r := x + y;
    forall i, j | 0 <= i < j < |r|
      ensures r[i].End() < r[j].start
    {
      if i < |x| <= j {
        assert r[i] in x && r[j] in y;
      }
    }
  }

  /** No range has bytes on both sides of `start`. */
  ghost predicate NoStraddle(hs: Hooks, start: nat) {
    forall h | h in hs :: !(h.start < start < h.End())
  }

  /** Clearing no bytes changes nothing unless a range straddles the address. */
  lemma {:induction false} ClearNoBytes(hs: Hooks, start: nat)
    requires NoStraddle(hs, start)
    ensures Clear(hs, start, 0) == hs
  {
    if hs != [] {
      assert hs[0] in hs;
      ClearNoBytes(hs[1..], start);
      assert [hs[0]] + hs[1..] == hs;
    }
  }

  /** A range that straddles the address is cut into two that touch. */
  lemma {:induction false} ClearCuts(hs: Hooks, start: nat)
    requires !NoStraddle(hs, start)
    ensures !Spaced(Clear(hs, start, 0))
    decreases |hs|
  {
    var r := Clear(hs, start, 0);
    if hs[0].start < start < hs[0].End() {
      assert r[0].End() == r[1].start;
    } else {
      var rest := Clear(hs[1..], start, 0);
      assert r == [hs[0]] + rest;
      assert r[1..] == rest;
      ClearCuts(hs[1..], start);
      if Spaced(r) {
        SpacedSlices(r, 0, 1);
      }
    }
  }

  /** Clearing removes exactly the bytes of the range; the list stays spaced exactly if there are bytes to
      clear, or no range straddles the address. */
  lemma ClearExact(hs: Hooks, start: nat, n: nat)
    requires Spaced(hs)
    ensures Spaced(Clear(hs, start, n)) <==> n > 0 || NoStraddle(hs, start)
    ensures forall a :: Covered(Clear(hs, start, n), a) <==> Covered(hs, a) && !(start <= a < start + n)
  {
    hide Spaced, Clear, Covered, NoStraddle;
    if n > 0 {
      ClearSpaced(hs, start, n);
    } else if NoStraddle(hs, start) {
      ClearNoBytes(hs, start);
    } else {
      ClearCuts(hs, start);
    }
    forall a {
      ClearCovered(hs, start, n, a);
    }
  }

  /** Clearing no bytes in the middle of a range cuts it into two that touch. */
  lemma EmptyClearSplits(handler: Handler)
    ensures Spaced([Block(0, 8, handler)])
    ensures Clear([Block(0, 8, handler)], 4, 0) == [Block(0, 4, handler), Block(4, 4, handler)]
    ensures !Spaced(Clear([Block(0, 8, handler)], 4, 0))
  {
    var h := Block(0, 8, handler);
    var none: Hooks := [];
    assert [h][1..] == none;
    var r := Remains(h, 4, 0);
    assert r == [Block(0, 4, handler), Block(4, 4, handler)];
    assert Clear([h], 4, 0) == r;
    assert r[0].End() == r[1].start;
  }

  // ---------------------------------------------------------------------------
  // The loops
  // ---------------------------------------------------------------------------

  method InsertRange(hooks: Hooks, start: nat, n: nat, handler: Handler) returns (r: Outcome)
    ensures r == Set(hooks, start, n, handler)
  {
    var i := 0;
    while i < |hooks| && hooks[i].start < start
      invariant i <= |hooks| && Behind(hooks, start) == i + Behind(hooks[i..], start)
    {
      assert hooks[i..][1..] == hooks[i + 1..];
      i := i + 1;
    }
    if i > 0 && hooks[i - 1].End() > start {
      return Refused;
    }
    if i < |hooks| && hooks[i].start < start + n {
      return Refused;
    }
    var list := Splice(hooks, i, start, n, handler);
    r := Ok(list);
  }

  /** Extends a neighbour, merges all three, or adds a new entry. */
  method Splice(hooks: Hooks, i: nat, start: nat, n: nat, handler: Handler) returns (list: Hooks)
    requires i <= |hooks| && (i < |hooks| ==> n <= hooks[i].start)
    ensures list == Extended(hooks, i, start, n, handler)
  {
    list := hooks;
    var meetsAfter := i < |list| && list[i].start == start + n;
    if i > 0 && list[i - 1].End() == start {
      list := list[i - 1 := list[i - 1].(size := list[i - 1].size + n)];
      if meetsAfter {
        var after := list[i].size;
        list := list[..i] + list[i + 1..];
        list := list[i - 1 := list[i - 1].(size := list[i - 1].size + after)];
      }
    } else if meetsAfter {
      list := list[i := list[i].(start := list[i].start - n, size := list[i].size + n)];
    } else {
      list := list[..i] + [Block(start, n, handler)] + list[i..];
    }
  }

  /** Ranges that clearing would cut into two. */
  function ToSplit(hs: Hooks, start: nat, n: nat): nat {
    if hs == [] then 0 else (if Splits(hs[0], start, n) then 1 else 0) + ToSplit(hs[1..], start, n)
  }

  predicate Splits(h: Hook, start: nat, n: nat) {
    Overlaps(h, start, n) && h.start < start && h.End() > start + n
  }

  /** The walk that shortens, splits and drops the ranges in place. */
  method RemoveRange(hooks: Hooks, start: nat, n: nat) returns (r: Hooks)
    ensures r == Clear(hooks, start, n)
  {
    hide Clear;
    var done: Hooks, todo: Hooks := [], hooks;
    assert done + Clear(todo, start, n) == Clear(hooks, start, n);
    while todo != []
      invariant done + Clear(todo, start, n) == Clear(hooks, start, n)
      decreases ToSplit(todo, start, n), |todo|
    {
      var h := todo[0];
      ghost var rest := todo[1..];
      ClearStep(todo, start, n);
      if Overlaps(h, start, n) {
        if h.start < start && h.End() > start + n {
          var left := h.(size := start - h.start);
          var right := Block(start + n, h.End() - (start + n), h.tag);
          todo := [left, right] + todo[1..];
          SplitStep(left, right, rest, start, n);
        } else if h.start < start {
          done, todo := done + [h.(size := start - h.start)], todo[1..];
        } else if h.End() > start + n {
          done, todo := done + [Block(start + n, h.End() - (start + n), h.tag)], todo[1..];
        } else {
          todo := todo[1..];
        }
      } else {
        done, todo := done + [h], todo[1..];
      }
    }
    ClearNothing(start, n);
    r := done;
  }

  lemma ClearNothing(start: nat, n: nat)
    ensures Clear([], start, n) == []
  {
  }

  lemma ClearStep(hs: Hooks, start: nat, n: nat)
    requires hs != []
    ensures Clear(hs, start, n) == Remains(hs[0], start, n) + Clear(hs[1..], start, n)
  {
  }

  /** The two halves are walked over, and not split again. */
  lemma SplitStep(left: Hook, right: Hook, rest: Hooks, start: nat, n: nat)
    requires left.End() == start && right.start == start + n
    ensures Clear([left, right] + rest, start, n) == [left, right] + Clear(rest, start, n)
    ensures ToSplit([left, right] + rest, start, n) == ToSplit(rest, start, n)
  {
    var hs := [left, right] + rest;
    assert hs[1..] == [right] + rest && hs[1..][1..] == rest;
  }
}
