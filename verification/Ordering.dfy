/** Sorted enumerations of finite sets: one answer whatever the order the elements came in. */
module Ordering {

  ghost predicate Injective<K(!new)>(rank: K -> int) {
    forall x, y :: rank(x) == rank(y) ==> x == y
  }

  ghost predicate Ascending<K>(s: seq<K>, rank: K -> int) {
    forall i, j :: 0 <= i < j < |s| ==> rank(s[i]) < rank(s[j])
  }

  function Elements<K>(s: seq<K>): set<K> {
    set x | x in s
  }

  /** The elements of a set in strictly ascending rank. */
  ghost function Sorted<K(!new)>(elems: set<K>, rank: K -> int): seq<K>
    decreases |elems|
  {
    if elems == {} then [] else
      var x := Least(elems, rank);
      [x] + Sorted(elems - {x}, rank)
  }

  ghost function Least<K(!new)>(elems: set<K>, rank: K -> int): (x: K)
    requires elems != {}
    ensures x in elems
    ensures forall y :: y in elems ==> rank(x) <= rank(y)
    decreases |elems|
  {
    var x :| x in elems;
    if elems == {x} then x else
      assert elems - {x} != {};
      var y := Least(elems - {x}, rank);
      if rank(x) <= rank(y) then x else y
  }

  lemma {:induction false} SortedProperties<K(!new)>(elems: set<K>, rank: K -> int)
    requires Injective(rank)
    ensures Elements(Sorted(elems, rank)) == elems
    ensures Ascending(Sorted(elems, rank), rank)
    ensures |Sorted(elems, rank)| == |elems|
    decreases |elems|
  {
    if elems != {} {
      var x := Least(elems, rank);
      var rest := Sorted(elems - {x}, rank);
      SortedProperties(elems - {x}, rank);
      forall j | 0 <= j < |rest|
        ensures rank(x) < rank(rest[j])
      {
        assert rest[j] in Elements(rest);
      }
      var s := Sorted(elems, rank);
      assert s == [x] + rest;
      forall y
        ensures y in Elements(s) <==> y in elems
      {
        assert y in s <==> y == x || y in Elements(rest);
      }
    }
  }

  lemma {:induction false} SortedMember<K(!new)>(elems: set<K>, rank: K -> int, i: nat)
    requires i < |Sorted(elems, rank)|
    ensures Sorted(elems, rank)[i] in elems
    decreases |elems|
  {
    if elems != {} && i > 0 {
      SortedMember(elems - {Least(elems, rank)}, rank, i - 1);
    }
  }

  /** Two ascending sequences with the same elements are the same sequence. */
  lemma {:induction false} AscendingUnique<K(!new)>(s: seq<K>, t: seq<K>, rank: K -> int)
    requires Ascending(s, rank) && Ascending(t, rank)
    requires Elements(s) == Elements(t)
    ensures s == t
    decreases |s|
  {
    assert s != [] ==> s[0] in Elements(s);
    assert t != [] ==> t[0] in Elements(t);
    if s != [] {
      var i :| 0 <= i < |s| && s[i] == t[0];
      var j :| 0 <= j < |t| && t[j] == s[0];
      assert s[0] == t[0];
      forall x
        ensures x in Elements(s[1..]) <==> x in Elements(t[1..])
      {
        TailElements(s, rank, x);
        TailElements(t, rank, x);
      }
      AscendingUnique(s[1..], t[1..], rank);
    }
  }

  lemma TailElements<K>(s: seq<K>, rank: K -> int, x: K)
    requires s != [] && Ascending(s, rank)
    ensures x in Elements(s[1..]) <==> x in Elements(s) && x != s[0]
  {
    if x in s[1..] {
      var i :| 0 <= i < |s| - 1 && s[1..][i] == x;
      assert s[i + 1] == x;
    }
    if x in s && x != s[0] {
      var i :| 0 <= i < |s| && s[i] == x;
      assert s[1..][i - 1] == x;
    }
  }

  lemma {:induction false} SubsetSize<K>(a: set<K>, b: set<K>)
    requires a <= b
    ensures |a| <= |b|
  {
    if a != {} {
      var x :| x in a;
      SubsetSize(a - {x}, b - {x});
    }
  }
}
