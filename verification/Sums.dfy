/** Sums over finite maps: the value does not depend on the order in which the entries are visited. */
module Sums {

  /** The sum of f over the values of m. Proofs use it only through SumEmpty and SumRemove: the two
      intermediate functions keep the verifier from unfolding it elsewhere. */
  ghost function SumBy<K(!new), V>(m: map<K, V>, f: V -> int): int
    decreases |m|, 2
  {
    SumFolded(m, f)
  }

  ghost function SumFolded<K(!new), V>(m: map<K, V>, f: V -> int): int
    decreases |m|, 1
  {
    SumFrom(m, f)
  }

  /** The next key is an arbitrary one, as in a Go map range. */
  ghost function SumFrom<K(!new), V>(m: map<K, V>, f: V -> int): int
    decreases |m|, 0
  {
    if m == map[] then 0 else
      var k :| k in m;
      f(m[k]) + SumBy(m - {k}, f)
  }

  lemma SumUnfold<K(!new), V>(m: map<K, V>, f: V -> int)
    ensures SumBy(m, f) == SumFrom(m, f)
  {
    assert SumBy(m, f) == SumFolded(m, f);
    assert SumFolded(m, f) == SumFrom(m, f);
  }

  lemma SumEmpty<K(!new), V>(m: map<K, V>, f: V -> int)
    requires m == map[]
    ensures SumBy(m, f) == 0
  {
    SumUnfold(m, f);
  }

  /** Whichever key is taken out first, the sum is the same. */
  lemma {:induction false} SumRemove<K(!new), V>(m: map<K, V>, k: K, f: V -> int)
    requires k in m
    ensures SumBy(m, f) == f(m[k]) + SumBy(m - {k}, f)
    decreases |m|
  {
    SumUnfold(m, f);
    var first :| first in m && SumFrom(m, f) == f(m[first]) + SumBy(m - {first}, f);
    if first != k {
      SumRemove(m - {first}, k, f);
      SumRemove(m - {k}, first, f);
      assert m - {first} - {k} == m - {k} - {first};
    }
  }

  /** Changing or adding one entry changes the sum by exactly the difference at that key. */
  lemma SumUpdate<K(!new), V>(m: map<K, V>, k: K, v: V, f: V -> int)
    ensures SumBy(m[k := v], f) == SumBy(m, f) - (if k in m then f(m[k]) else 0) + f(v)
  {
    SumRemove(m[k := v], k, f);
    if k in m {
      SumRemove(m, k, f);
      assert m[k := v] - {k} == m - {k};
    } else {
      assert m[k := v] - {k} == m;
    }
  }

  /** A sum of non-negative values is non-negative and bounds every value from above. */
  lemma {:induction false} SumBounds<K(!new), V>(m: map<K, V>, f: V -> int)
    requires forall k :: k in m ==> f(m[k]) >= 0
    ensures SumBy(m, f) >= 0
    ensures forall k :: k in m ==> f(m[k]) <= SumBy(m, f)
    decreases |m|
  {
    forall k | k in m
      ensures f(m[k]) <= SumBy(m, f)
    {
      SumRemove(m, k, f);
      SumBounds(m - {k}, f);
    }
    if m != map[] {
      var k :| k in m;
      assert f(m[k]) <= SumBy(m, f);
    } else {
      SumEmpty(m, f);
    }
  }

  /** Maps with the same keys and pointwise equal measures have the same sum. */
  lemma {:induction false} SumPointwise<K(!new), V, W>(m: map<K, V>, f: V -> int, n: map<K, W>, g: W -> int)
    requires m.Keys == n.Keys
    requires forall k :: k in m ==> f(m[k]) == g(n[k])
    ensures SumBy(m, f) == SumBy(n, g)
    decreases |m|
  {
    if m != map[] {
      var k :| k in m;
      SumRemove(m, k, f);
      SumRemove(n, k, g);
      SumPointwise(m - {k}, f, n - {k}, g);
    } else {
      SumEmpty(m, f);
      SumEmpty(n, g);
    }
  }
}
