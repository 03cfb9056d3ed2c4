/** Building the active validator set: collect in map order, then sort in place by address. */
module ValidatorSort {
  import opened Words
  import opened Types
  import opened Ordering
  import opened Ledger
  import opened WorldStates

  ghost predicate DistinctAddresses(vs: seq<Validator>) {
    forall i, j :: 0 <= i < j < |vs| ==> vs[i].address != vs[j].address
  }

  ghost predicate InOrder(vs: seq<Validator>) {
    forall i, j :: 0 <= i < j < |vs| ==> vs[i].address <= vs[j].address
  }

  /** The same entries, possibly in another order. */
  ghost predicate Shuffled(before: seq<Validator>, after: seq<Validator>) {
    && |after| == |before|
    && multiset(after) == multiset(before)
    && (DistinctAddresses(before) ==> DistinctAddresses(after))
  }

  method SwapDown(vs: array<Validator>, j: nat)
    requires 0 < j < vs.Length
    modifies vs
    ensures vs[..] == old(vs[..])[j := old(vs[j - 1])][j - 1 := old(vs[j])]
    ensures Shuffled(old(vs[..]), vs[..])
  {
    vs[j], vs[j - 1] := vs[j - 1], vs[j];
    SwapShuffles(old(vs[..]), j);
  }

  lemma SwapShuffles(s: seq<Validator>, j: nat)
    requires 0 < j < |s|
    ensures Shuffled(s, s[j := s[j - 1]][j - 1 := s[j]])
  {}

  /** The first i + 1 entries are in order, except that entry j may be too small for its place. */
  ghost predicate InOrderExcept(s: seq<Validator>, i: nat, j: nat)
    requires j <= i < |s|
  {
    forall k, l :: 0 <= k < l <= i && l != j ==> s[k].address <= s[l].address
  }

  lemma SwapKeepsOrder(s: seq<Validator>, i: nat, j: nat)
    requires 0 < j <= i < |s| && InOrderExcept(s, i, j) && s[j].address < s[j - 1].address
    ensures InOrderExcept(s[j := s[j - 1]][j - 1 := s[j]], i, j - 1)
  {}

  lemma InPlace(s: seq<Validator>, i: nat, j: nat)
    requires j <= i < |s| && InOrderExcept(s, i, j)
    requires j > 0 ==> s[j - 1].address <= s[j].address
    ensures InOrder(s[..i + 1])
  {}

  lemma ShuffledTransitive(a: seq<Validator>, b: seq<Validator>, c: seq<Validator>)
    requires Shuffled(a, b) && Shuffled(b, c)
    ensures Shuffled(a, c)
  {}

  /** Moves entry i down into its place among the sorted entries before it. */
  method Insert(vs: array<Validator>, i: nat)
    requires i < vs.Length && InOrder(vs[..i])
    modifies vs
    ensures Shuffled(old(vs[..]), vs[..])
    ensures InOrder(vs[..i + 1])
  {
    var j := i;
    assert InOrderExcept(vs[..], i, i);
    while j > 0 && vs[j].address < vs[j - 1].address
      invariant 0 <= j <= i
      invariant Shuffled(old(vs[..]), vs[..])
      invariant InOrderExcept(vs[..], i, j)
    {
      ghost var before := vs[..];
      SwapKeepsOrder(before, i, j);
      SwapDown(vs, j);
      ShuffledTransitive(old(vs[..]), before, vs[..]);
      j := j - 1;
    }
    InPlace(vs[..], i, j);
    assert vs[..][..i + 1] == vs[..i + 1];
  }

  /** Insertion sort: a permutation of the entries, in ascending address order. */
  method SortValidatorSet(vs: array<Validator>)
    modifies vs
    ensures Shuffled(old(vs[..]), vs[..])
    ensures InOrder(vs[..])
  {
    var i := 1;
    while i < vs.Length
      invariant 1 <= i
      invariant Shuffled(old(vs[..]), vs[..])
      invariant i <= vs.Length ==> InOrder(vs[..i])
      invariant i > vs.Length ==> vs.Length == 0
    {
      Insert(vs, i);
      i := i + 1;
    }
    assert vs.Length > 0 ==> vs[..i] == vs[..];
  }

  function Entry(s: State, a: Address): Validator
    requires a in s.accounts
  {
    Validator(a, KeyFor(s.validators, a), s.accounts[a].staked)
  }

  /** Every eligible account outside todo has its entry in out, once, and nothing else is there. */
  ghost predicate Collected(s: State, minStake: int, out: seq<Validator>, todo: set<Address>) {
    && (forall v :: v in out ==>
          v.address in Eligible(s, minStake) && v.address !in todo && v == Entry(s, v.address))
    && DistinctAddresses(out)
    && (forall a :: a in Eligible(s, minStake) && a !in todo ==> Entry(s, a) in out)
  }

  lemma CollectMore(s: State, minStake: int, out: seq<Validator>, todo: set<Address>, a: Address)
    requires Collected(s, minStake, out, todo) && a in todo && a in s.accounts
    ensures a in Eligible(s, minStake) ==> Collected(s, minStake, out + [Entry(s, a)], todo - {a})
    ensures a !in Eligible(s, minStake) ==> Collected(s, minStake, out, todo - {a})
  {
    var more := out + [Entry(s, a)];
    assert forall v :: v in more <==> v in out || v == Entry(s, a);
    assert forall i :: 0 <= i < |out| ==> out[i] in out;
  }

  lemma AddressRankInjective()
    ensures Injective(AddressRank)
  {}

  function AddressesOf(vs: seq<Validator>): seq<Address> {
    seq(|vs|, i requires 0 <= i < |vs| => vs[i].address)
  }

  lemma SameEntries(out: seq<Validator>, sorted: seq<Validator>, v: Validator)
    requires multiset(out) == multiset(sorted)
    ensures v in out <==> v in sorted
  {
    assert v in out <==> v in multiset(out);
    assert v in sorted <==> v in multiset(sorted);
  }

  lemma ShuffledCollected(s: State, minStake: int, out: seq<Validator>, sorted: seq<Validator>)
    requires Collected(s, minStake, out, {}) && Shuffled(out, sorted)
    ensures Collected(s, minStake, sorted, {})
  {
    forall v
      ensures v in out <==> v in sorted
    {
      SameEntries(out, sorted, v);
    }
  }

  lemma CollectedAddresses(s: State, minStake: int, sorted: seq<Validator>)
    requires Collected(s, minStake, sorted, {}) && InOrder(sorted)
    ensures Elements(AddressesOf(sorted)) == Eligible(s, minStake)
    ensures Ascending(AddressesOf(sorted), AddressRank)
  {
    var order: seq<Address> := AddressesOf(sorted);
    forall a | a in Eligible(s, minStake)
      ensures a in order
    {
      var i :| 0 <= i < |sorted| && sorted[i] == Entry(s, a);
      assert order[i] == a;
    }
    forall a | a in order
      ensures a in Eligible(s, minStake)
    {
      var i :| 0 <= i < |order| && order[i] == a;
      assert sorted[i] in sorted;
    }
  }

  /** A sorted, complete collection is the active set: there is only one. */
  lemma SortedCollectionIsActiveSet(s: State, minStake: int, out: seq<Validator>, sorted: seq<Validator>)
    requires Collected(s, minStake, out, {}) && Shuffled(out, sorted) && InOrder(sorted)
    ensures sorted == ActiveSet(s, minStake)
  {
    ShuffledCollected(s, minStake, out, sorted);
    CollectedAddresses(s, minStake, sorted);
    var order: seq<Address> := AddressesOf(sorted);
    AddressRankInjective();
    SortedProperties<Address>(Eligible(s, minStake), AddressRank);
    AscendingUnique<Address>(order, Sorted<Address>(Eligible(s, minStake), AddressRank), AddressRank);
    EntriesInOrder(s, minStake, sorted);
  }

  lemma EntriesInOrder(s: State, minStake: int, sorted: seq<Validator>)
    requires Collected(s, minStake, sorted, {})
    requires AddressesOf(sorted) == Sorted<Address>(Eligible(s, minStake), AddressRank)
    ensures sorted == ActiveSet(s, minStake)
  {
    var active: seq<Validator> := ActiveSet(s, minStake);
    assert |active| == |sorted|;
    forall i | 0 <= i < |sorted|
      ensures sorted[i] == active[i]
    {
      assert sorted[i] in sorted && AddressesOf(sorted)[i] == sorted[i].address;
    }
  }

  /** The executor's recomputation: whatever order the accounts come in, the result is the active set. */
  method ComputeActiveValidatorSet(ws: WorldState, minStake: Uint64) returns (sorted: seq<Validator>)
    ensures sorted == ActiveSet(ws.View(), minStake)
  {
    ghost var s := ws.View();
    var out: seq<Validator> := [];
    var todo: set<Address> := ws.accounts.Keys;
    while todo != {}
      invariant todo <= s.accounts.Keys
      invariant Collected(s, minStake, out, todo)
      decreases todo
    {
      var a: Address :| a in todo;
      CollectMore(s, minStake, out, todo, a);
      if ws.accounts[a].staked >= minStake {
        var key := ws.PubKeyForAccount(a);
        out := out + [Validator(a, key, ws.accounts[a].staked)];
      }
      todo := todo - {a};
    }
    var vs := new Validator[|out|](i requires 0 <= i < |out| => out[i]);
    assert vs[..] == out;
    SortValidatorSet(vs);
    SortedCollectionIsActiveSet(s, minStake, out, vs[..]);
    sorted := vs[..];
  }
}
