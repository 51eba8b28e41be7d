/** Facts about sequences used as the kernel's lists and queues. */
module Lists {

  /** How often x occurs in s. */
  function Count<T(==)>(s: seq<T>, x: T): (n: nat)
    ensures n > 0 <==> x in s
    ensures n <= |s|
  {
    if s == [] then 0 else (if s[0] == x then 1 else 0) + Count(s[1..], x)
  }

  lemma {:induction false} CountConcat<T>(s: seq<T>, t: seq<T>, x: T)
    ensures Count(s + t, x) == Count(s, x) + Count(t, x)
  {
    if s == [] {
      assert s + t == t;
    } else {
      assert (s + t)[1..] == s[1..] + t;
      CountConcat(s[1..], t, x);
    }
  }

  /** Position of the first occurrence of x, as std::find_if reports it. */
  function IndexOf<T(==)>(s: seq<T>, x: T): (i: nat)
    requires x in s
    ensures i < |s| && s[i] == x
    ensures forall j :: 0 <= j < i ==> s[j] != x
  {
    if s[0] == x then 0 else 1 + IndexOf(s[1..], x)
  }

  /** The list after erasing the element at position i. */
  function RemoveAt<T(!new)>(s: seq<T>, i: nat): (r: seq<T>)
    requires i < |s|
    ensures |r| == |s| - 1
    ensures forall x :: x in r ==> x in s
  {
    s[..i] + s[i + 1..]
  }

  lemma {:induction false} RemoveAtCount<T(!new)>(s: seq<T>, i: nat, x: T)
    requires i < |s|
    ensures Count(RemoveAt(s, i), x) + (if x == s[i] then 1 else 0) == Count(s, x)
  {
    if i == 0 {
      assert RemoveAt(s, i) == s[1..];
    } else {
      RemoveAtCount(s[1..], i - 1, x);
      assert RemoveAt(s, i)[1..] == RemoveAt(s[1..], i - 1);
    }
  }

  /** The list after erasing the first occurrence of x. */
  function RemoveFirst<T(==, !new)>(s: seq<T>, x: T): (r: seq<T>)
    requires x in s
    ensures |r| == |s| - 1
    ensures forall y :: y in r ==> y in s
  {
    if s[0] == x then s[1..] else [s[0]] + RemoveFirst(s[1..], x)
  }

  lemma {:induction false} RemoveFirstCount<T(!new)>(s: seq<T>, x: T, y: T)
    requires x in s
    ensures Count(RemoveFirst(s, x), y) + (if y == x then 1 else 0) == Count(s, y)
  {
    if s[0] != x {
      RemoveFirstCount(s[1..], x, y);
      assert RemoveFirst(s, x)[1..] == RemoveFirst(s[1..], x);
    }
  }

  /** The list after erasing every occurrence of x, as std::list::remove_if does. */
  function RemoveAll<T(==, !new)>(s: seq<T>, x: T): (r: seq<T>)
    ensures forall y :: y in r <==> y in s && y != x
  {
    if s == [] then []
    else if s[0] == x then RemoveAll(s[1..], x)
    else [s[0]] + RemoveAll(s[1..], x)
  }

  /** Moves the front element to the back. */
  function Rotate<T(!new)>(s: seq<T>): (r: seq<T>)
    ensures forall y :: y in r <==> y in s
  {
    if s == [] then s else s[1..] + [s[0]]
  }
}
