/** Physical memory blocks: who owns each byte, and merging of neighbours with equal owner. */
module Blocks {
  import opened Options
  import opened Intervals

  /** A process, shared memory block or code set; free blocks have no owner. */
  datatype Owner = Nobody | Party(id: nat)

  type Owned = Block<Owner>

  /** No block could be merged with the next one. */
  ghost predicate Merged(bs: seq<Owned>) {
    forall i | 0 <= i < |bs| - 1 :: !Joins(bs[i], bs[i + 1])
  }

  predicate Joins(b: Owned, c: Owned) {
    b.End() == c.start && b.tag == c.tag
  }

  /** The owner of the byte at a, if some block has it. */
  ghost function OwnerAt(bs: seq<Owned>, a: int): Option<Owner> {
    if At(bs, a).Some? then Some(At(bs, a).value.tag) else None
  }

  function Total(bs: seq<Owned>): nat {
    if bs == [] then 0 else bs[0].size + Total(bs[1..])
  }

  lemma OwnerAtOf(bs: seq<Owned>, i: nat, a: int)
    requires Ordered(bs) && i < |bs| && bs[i].Has(a)
    ensures OwnerAt(bs, a) == Some(bs[i].tag)
  {
    AtOf(bs, i, a);
  }

  lemma OwnerAtWitness(bs: seq<Owned>, a: int) returns (i: nat)
    requires OwnerAt(bs, a).Some?
    ensures i < |bs| && bs[i].Has(a) && OwnerAt(bs, a) == Some(bs[i].tag)
  {
    i := AtWitness(bs, a);
  }

  /** Unfolding of OwnerAt at the first block. */
  lemma OwnerAtFirst(bs: seq<Owned>, a: int)
    ensures bs == [] ==> OwnerAt(bs, a) == None
    ensures bs != [] ==> OwnerAt(bs, a) == if bs[0].Has(a) then Some(bs[0].tag) else OwnerAt(bs[1..], a)
  {
  }

  /** Equally owned bytes in a row lie in one block if nothing is left to merge. */
  lemma RunInOneBlock(bs: seq<Owned>, lo: int, hi: int, w: Owner) returns (i: nat)
    requires Ordered(bs) && Merged(bs) && lo < hi
    requires forall a | lo <= a < hi :: OwnerAt(bs, a) == Some(w)
    ensures i < |bs| && bs[i].start <= lo && hi <= bs[i].End() && bs[i].tag == w
  {
    assert OwnerAt(bs, lo) == Some(w);
    i := AtWitness(bs, lo);
    var e := bs[i].End();
    if e < hi {
      assert OwnerAt(bs, e) == Some(w);
      var j := AtWitness(bs, e);
      BlockAfter(bs, i, j);
      assert false;
    }
  }

  // ---------------------------------------------------------------------------
  // Erasing and inserting, as owners see it
  // ---------------------------------------------------------------------------

  lemma OwnersAfterErase(bs: seq<Owned>, i: nat)
    requires Ordered(bs) && i < |bs|
    ensures Ordered(Erase(bs, i))
    ensures forall a :: OwnerAt(Erase(bs, i), a) == if bs[i].Has(a) then None else OwnerAt(bs, a)
    ensures Total(Erase(bs, i)) + bs[i].size == Total(bs)
  {
    hide Ordered, Erase, At;
    EraseExact(bs, i);
    EraseTotal(bs, i);
  }

  lemma {:induction false} EraseTotal(bs: seq<Owned>, i: nat)
    requires i < |bs|
    ensures Total(Erase(bs, i)) + bs[i].size == Total(bs)
  {
    if i == 0 {
      assert Erase(bs, 0) == bs[1..];
    } else {
      assert Erase(bs, i)[1..] == Erase(bs[1..], i - 1);
      EraseTotal(bs[1..], i - 1);
    }
  }

  lemma OwnersAfterInsert(bs: seq<Owned>, b: Owned)
    requires Ordered(bs) && ClearOf(bs, b) && b.size > 0
    ensures Ordered(Insert(bs, b))
    ensures forall a :: OwnerAt(Insert(bs, b), a) == if b.Has(a) then Some(b.tag) else OwnerAt(bs, a)
    ensures Total(Insert(bs, b)) == Total(bs) + b.size
  {
    hide Ordered, Insert, At, ClearOf;
    InsertExact(bs, b);
    InsertTotal(bs, b);
  }

  lemma {:induction false} InsertTotal(bs: seq<Owned>, b: Owned)
    requires Ordered(bs) && ClearOf(bs, b) && b.size > 0
    ensures Total(Insert(bs, b)) == Total(bs) + b.size
    decreases |bs|
  {
    if bs != [] && bs[0].start < b.start {
      InsertTotal(bs[1..], b);
      assert Insert(bs, b)[1..] == Insert(bs[1..], b);
    } else {
      assert Insert(bs, b) == [b] + bs && ([b] + bs)[1..] == bs;
    }
  }

  lemma UnownedIsClear(bs: seq<Owned>, b: Owned)
    requires Ordered(bs) && b.size > 0
    requires forall a | b.Has(a) :: OwnerAt(bs, a) == None
    ensures ClearOf(bs, b)
  {
    assert forall a | b.Has(a) :: OwnerAt(bs, a) == None ==> At(bs, a) == None;
    UnmappedIsClear(bs, b);
  }

  // ---------------------------------------------------------------------------
  // Merging
  // ---------------------------------------------------------------------------

  function Join(b: Owned, c: Owned): Owned {
    Block(b.start, b.size + c.size, b.tag)
  }

  /** Merges neighbours until none can be merged. */
  function Coalesce(bs: seq<Owned>): (r: seq<Owned>)
    ensures |r| <= |bs|
    decreases |bs|
  {
    if |bs| <= 1 then bs
    else if Joins(bs[0], bs[1]) then Coalesce([Join(bs[0], bs[1])] + bs[2..])
    else [bs[0]] + Coalesce(bs[1..])
  }

  lemma {:induction false} CoalesceOrdered(bs: seq<Owned>)
    requires Ordered(bs)
    ensures Ordered(Coalesce(bs)) && Merged(Coalesce(bs))
    ensures Total(Coalesce(bs)) == Total(bs)
    ensures bs != [] ==> Coalesce(bs) != [] && Coalesce(bs)[0].start == bs[0].start
                         && Coalesce(bs)[0].tag == bs[0].tag
    decreases |bs|
  {
    if |bs| >= 2 {
      if Joins(bs[0], bs[1]) {
        JoinOrdered(bs);
        CoalesceOrdered([Join(bs[0], bs[1])] + bs[2..]);
      } else {
        CoalesceOrdered(bs[1..]);
        var r := Coalesce(bs[1..]);
        assert Coalesce(bs) == [bs[0]] + r && ([bs[0]] + r)[1..] == r;
        assert bs[0].size > 0 && bs[0].End() <= bs[1].start;
        hide Coalesce;
        KeptInFront(bs[0], r);
      }
    }
  }

  /** A block that cannot be merged with the first of a merged list goes in front of it. */
  lemma KeptInFront(b: Owned, r: seq<Owned>)
    requires Ordered(r) && Merged(r) && r != [] && b.size > 0 && b.End() <= r[0].start && !Joins(b, r[0])
    ensures Ordered([b] + r) && Merged([b] + r)
  {
    forall j | 0 <= j < |r|
      ensures b.End() <= r[j].start
    {
      assert j > 0 ==> r[0].End() <= r[j].start;
    }
  }

  lemma JoinOrdered(bs: seq<Owned>)
    requires Ordered(bs) && |bs| >= 2 && Joins(bs[0], bs[1])
    ensures Ordered([Join(bs[0], bs[1])] + bs[2..])
    ensures Total([Join(bs[0], bs[1])] + bs[2..]) == Total(bs)
  {
    var bs' := [Join(bs[0], bs[1])] + bs[2..];
    assert bs'[1..] == bs[2..] && bs[1..][1..] == bs[2..];
  }

  lemma {:induction false} CoalesceOwner(bs: seq<Owned>, a: int)
    requires Ordered(bs)
    ensures OwnerAt(Coalesce(bs), a) == OwnerAt(bs, a)
    decreases |bs|
  {
    if |bs| >= 2 {
      OwnerAtFirst(bs, a);
      if Joins(bs[0], bs[1]) {
        var bs' := [Join(bs[0], bs[1])] + bs[2..];
        JoinOrdered(bs);
        CoalesceOwner(bs', a);
        OwnerAtFirst(bs', a);
        OwnerAtFirst(bs[1..], a);
        assert bs'[1..] == bs[2..] && bs[1..][1..] == bs[2..];
      } else {
        CoalesceOwner(bs[1..], a);
        OwnerAtFirst(Coalesce(bs), a);
        assert Coalesce(bs)[1..] == Coalesce(bs[1..]);
      }
    }
  }

  /** Merging changes no byte's owner and no size, and leaves nothing to merge. */
  lemma CoalesceExact(bs: seq<Owned>)
    requires Ordered(bs)
    ensures Ordered(Coalesce(bs)) && Merged(Coalesce(bs))
    ensures forall a :: OwnerAt(Coalesce(bs), a) == OwnerAt(bs, a)
    ensures Total(Coalesce(bs)) == Total(bs)
  {
    CoalesceOrdered(bs);
    hide Ordered, Merged, Coalesce, OwnerAt;
    forall a {
      CoalesceOwner(bs, a);
    }
  }

  /** Merging has nothing to do on a list that is merged already. */
  lemma {:induction false} CoalesceMerged(bs: seq<Owned>)
    requires Merged(bs)
    ensures Coalesce(bs) == bs
    decreases |bs|
  {
    if |bs| >= 2 {
      assert !Joins(bs[0], bs[1]);
      CoalesceMerged(bs[1..]);
    }
  }

  /** The in-place merge loop: compare neighbours, swallow the second, or move on. */
  method Defragment(blocks: seq<Owned>) returns (r: seq<Owned>)
    ensures r == Coalesce(blocks)
  {
    r := blocks;
    var i := 0;
    while i + 1 < |r|
      invariant i <= |r| && (i == |r| ==> r == [])
      invariant r[..i] + Coalesce(r[i..]) == Coalesce(blocks)
      decreases |r| - i
    {
      ghost var before := r;
      if Joins(r[i], r[i + 1]) {
        r := r[..i] + [Join(r[i], r[i + 1])] + r[i + 2..];
        assert r[..i] == before[..i];
        assert r[i..] == [Join(before[i], before[i + 1])] + before[i..][2..];
      } else {
        assert r[..i + 1] == r[..i] + [r[i]];
        assert r[i..][1..] == r[i + 1..];
        i := i + 1;
      }
    }
    assert r == r[..i] + r[i..];
  }
}
