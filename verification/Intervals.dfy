/**
  Ordered lists of tagged address ranges: what std::map from start address to
  block looks like when it is iterated. `At` is the meaning of such a list.
 */
module Intervals {
  import opened Options

  datatype Block<+T> = Block(start: nat, size: nat, tag: T) {
    function End(): nat { start + size }
    predicate Has(a: int) { start <= a < start + size }
  }

  /** In address order, without overlap, without empty blocks. */
  ghost predicate Ordered<T>(bs: seq<Block<T>>) {
    && (forall i | 0 <= i < |bs| :: bs[i].size > 0)
    && (forall i, j | 0 <= i < j < |bs| :: bs[i].End() <= bs[j].start)
  }

  /** The block that has the byte at a, if any. */
  ghost function At<T>(bs: seq<Block<T>>, a: int): Option<Block<T>> {
    if bs == [] then None
    else if bs[0].Has(a) then Some(bs[0])
    else At(bs[1..], a)
  }

  // ---------------------------------------------------------------------------
  // Looking up
  // ---------------------------------------------------------------------------

  lemma {:induction false} AtConcat<T>(x: seq<Block<T>>, y: seq<Block<T>>, a: int)
    ensures At(x + y, a) == if At(x, a).Some? then At(x, a) else At(y, a)
  {
    if x == [] {
      assert x + y == y;
    } else {
      assert (x + y)[1..] == x[1..] + y;
      AtConcat(x[1..], y, a);
    }
  }

  lemma {:induction false} AtWitness<T>(bs: seq<Block<T>>, a: int) returns (i: nat)
    requires At(bs, a).Some?
    ensures i < |bs| && bs[i].Has(a) && At(bs, a) == Some(bs[i])
  {
    if bs[0].Has(a) {
      i := 0;
    } else {
      var j := AtWitness(bs[1..], a);
      i := j + 1;
    }
  }

  /** In an ordered list at most one block has a byte. */
  lemma {:induction false} AtOf<T>(bs: seq<Block<T>>, i: nat, a: int)
    requires Ordered(bs) && i < |bs| && bs[i].Has(a)
    ensures At(bs, a) == Some(bs[i])
  {
    if i > 0 {
      assert bs[0].End() <= bs[i].start;
      AtOf(bs[1..], i - 1, a);
    }
  }

  /** No block has a byte below all of them. */
  lemma {:induction false} NothingBefore<T>(bs: seq<Block<T>>, a: int)
    requires forall i | 0 <= i < |bs| :: a < bs[i].start
    ensures At(bs, a) == None
  {
    if bs != [] {
      NothingBefore(bs[1..], a);
    }
  }

  /** Whatever block has the byte right after block i is the next one, and starts there. */
  lemma BlockAfter<T>(bs: seq<Block<T>>, i: nat, j: nat)
    requires Ordered(bs) && i < |bs| && j < |bs| && bs[j].Has(bs[i].End())
    ensures j == i + 1 && bs[j].start == bs[i].End()
  {
    if i + 1 < |bs| {
      assert bs[i + 1].size > 0;
    }
  }

  // ---------------------------------------------------------------------------
  // Erasing and inserting
  // ---------------------------------------------------------------------------

  function Erase<T>(bs: seq<Block<T>>, i: nat): (r: seq<Block<T>>)
    requires i < |bs|
    ensures |r| == |bs| - 1
  {
    bs[..i] + bs[i + 1..]
  }

  lemma EraseExact<T>(bs: seq<Block<T>>, i: nat)
    requires Ordered(bs) && i < |bs|
    ensures Ordered(Erase(bs, i))
    ensures forall a :: At(Erase(bs, i), a) == if bs[i].Has(a) then None else At(bs, a)
  {
    EraseOrdered(bs, i);
    hide Erase, Ordered;
    forall a {
      EraseAt(bs, i, a);
    }
  }

  lemma EraseOrdered<T>(bs: seq<Block<T>>, i: nat)
    requires Ordered(bs) && i < |bs|
    ensures Ordered(Erase(bs, i))
  {
    var r := Erase(bs, i);
    assert forall k | 0 <= k < |r| :: r[k] == bs[if k < i then k else k + 1];
  }

  lemma {:induction false} EraseAt<T>(bs: seq<Block<T>>, i: nat, a: int)
    requires Ordered(bs) && i < |bs|
    ensures At(Erase(bs, i), a) == if bs[i].Has(a) then None else At(bs, a)
  {
    if i == 0 {
      assert Erase(bs, 0) == bs[1..];
      if bs[0].Has(a) {
        NothingBefore(bs[1..], a);
      }
    } else {
      assert Erase(bs, i)[1..] == Erase(bs[1..], i - 1);
      assert bs[0].End() <= bs[i].start;
      EraseAt(bs[1..], i - 1, a);
    }
  }

  /** map[b.start] = b. */
  function Insert<T>(bs: seq<Block<T>>, b: Block<T>): (r: seq<Block<T>>)
    ensures |r| <= |bs| + 1
  {
    if bs == [] || b.start < bs[0].start then [b] + bs
    else if b.start == bs[0].start then [b] + bs[1..]
    else [bs[0]] + Insert(bs[1..], b)
  }

  /** b shares no byte with any block of the list. */
  ghost predicate ClearOf<T>(bs: seq<Block<T>>, b: Block<T>) {
    forall i | 0 <= i < |bs| :: bs[i].End() <= b.start || b.End() <= bs[i].start
  }

  lemma {:induction false} InsertOrdered<T>(bs: seq<Block<T>>, b: Block<T>)
    requires Ordered(bs) && ClearOf(bs, b) && b.size > 0
    ensures Ordered(Insert(bs, b)) && |Insert(bs, b)| == |bs| + 1
    ensures forall c | c in Insert(bs, b) :: c == b || c in bs
    decreases |bs|
  {
    if bs != [] && bs[0].start < b.start {
      InsertOrdered(bs[1..], b);
      assert bs[0].End() <= b.start;
      var r := Insert(bs[1..], b);
      assert Insert(bs, b) == [bs[0]] + r;
      forall j | 0 <= j < |r|
        ensures bs[0].End() <= r[j].start
      {
        assert r[j] in r;
      }
    } else {
      assert Insert(bs, b) == [b] + bs;
    }
  }

  lemma {:induction false} InsertAt<T>(bs: seq<Block<T>>, b: Block<T>, a: int)
    requires Ordered(bs) && ClearOf(bs, b) && b.size > 0
    ensures At(Insert(bs, b), a) == if b.Has(a) then Some(b) else At(bs, a)
    decreases |bs|
  {
    if bs != [] && bs[0].start < b.start {
      InsertAt(bs[1..], b, a);
      var r := Insert(bs[1..], b);
      assert bs[0].End() <= b.start;
      assert Insert(bs, b) == [bs[0]] + r && ([bs[0]] + r)[1..] == r;
    } else {
      assert Insert(bs, b) == [b] + bs && ([b] + bs)[1..] == bs;
    }
  }

  /** The order of two insertions does not matter. */
  lemma {:induction false} InsertCommutes<T>(bs: seq<Block<T>>, b: Block<T>, c: Block<T>)
    requires b.start != c.start
    ensures Insert(Insert(bs, b), c) == Insert(Insert(bs, c), b)
    decreases |bs|
  {
    if bs != [] && bs[0].start < b.start && bs[0].start < c.start {
      InsertCommutes(bs[1..], b, c);
    }
  }

  lemma InsertExact<T>(bs: seq<Block<T>>, b: Block<T>)
    requires Ordered(bs) && ClearOf(bs, b) && b.size > 0
    ensures Ordered(Insert(bs, b))
    ensures forall a :: At(Insert(bs, b), a) == if b.Has(a) then Some(b) else At(bs, a)
  {
    InsertOrdered(bs, b);
    hide Ordered, ClearOf, Insert;
    forall a {
      InsertAt(bs, b, a);
    }
  }

  /** An erased block, and every part of it, is clear of the others. */
  lemma ErasedIsClear<T>(bs: seq<Block<T>>, i: nat, b: Block<T>)
    requires Ordered(bs) && i < |bs| && bs[i].start <= b.start && b.End() <= bs[i].End()
    ensures ClearOf(Erase(bs, i), b)
  {
    var r := Erase(bs, i);
    assert forall k | 0 <= k < |r| :: r[k] == bs[if k < i then k else k + 1];
  }

  lemma InsertClear<T>(bs: seq<Block<T>>, b: Block<T>, c: Block<T>)
    requires Ordered(bs) && ClearOf(bs, b) && b.size > 0 && ClearOf(bs, c)
    requires b.End() <= c.start || c.End() <= b.start
    ensures ClearOf(Insert(bs, b), c)
  {
    InsertOrdered(bs, b);
    var r := Insert(bs, b);
    forall i | 0 <= i < |r|
      ensures r[i].End() <= c.start || c.End() <= r[i].start
    {
      assert r[i] in r;
    }
  }

  /** A range that no block has is clear of every block. */
  lemma UnmappedIsClear<T>(bs: seq<Block<T>>, b: Block<T>)
    requires Ordered(bs) && b.size > 0
    requires forall a | b.Has(a) :: At(bs, a) == None
    ensures ClearOf(bs, b)
  {
    forall i | 0 <= i < |bs|
      ensures bs[i].End() <= b.start || b.End() <= bs[i].start
    {
      var a := if bs[i].start < b.start then b.start else bs[i].start;
      if bs[i].Has(a) {
        AtOf(bs, i, a);
      }
    }
  }
}
