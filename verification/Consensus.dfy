/** Stake-weighted proposer choice and quorum certificates. */
module Consensus {
  import opened Words
  import opened Types
  import opened SafeMath
  import opened ValidatorSort

  const NO_VALIDATOR := Validator(NO_ADDRESS, NO_KEY, 0)

  function StakeSum(vs: seq<Validator>): int {
    if vs == [] then 0 else StakeSum(vs[..|vs| - 1]) + vs[|vs| - 1].stake
  }

  predicate StakesFit(vs: seq<Validator>) {
    forall i :: 0 <= i < |vs| ==> 0 <= vs[i].stake < TWO64
  }

  /** The uint64 total, which wraps when the stakes exceed it. */
  method TotalStake(vs: seq<Validator>) returns (total: Uint64)
    requires StakesFit(vs)
    ensures total == Wrap(StakeSum(vs))
  {
    total := 0;
    for i := 0 to |vs|
      invariant total == Wrap(StakeSum(vs[..i]))
    {
      assert vs[..i + 1][..i] == vs[..i];
      WrapShift(StakeSum(vs[..i]), vs[i].stake);
      total := Wrap(total + vs[i].stake);
    }
    assert vs[..|vs|] == vs;
  }

  /** The first validator whose cumulative stake exceeds the slot; the last one if none does. */
  function AtSlot(vs: seq<Validator>, slot: int, i: nat): Validator
    requires i < |vs|
    decreases |vs| - i
  {
    if slot < Wrap(StakeSum(vs[..i + 1])) || i == |vs| - 1 then vs[i] else AtSlot(vs, slot, i + 1)
  }

  function Proposer(vs: seq<Validator>, height: Uint64): Validator {
    if vs == [] then NO_VALIDATOR else
      var total := Wrap(StakeSum(vs));
      if total == 0 then vs[height % |vs|] else AtSlot(vs, height % total, 0)
  }

  method ProposerForHeight(vs: seq<Validator>, height: Uint64) returns (v: Validator)
    requires StakesFit(vs)
    ensures v == Proposer(vs, height)
  {
    if |vs| == 0 {
      return NO_VALIDATOR;
    }
    var total := TotalStake(vs);
    if total == 0 {
      return vs[height % |vs|];
    }
    var slot := height % total;
    var cumulative: Uint64 := 0;
    for i := 0 to |vs|
      invariant cumulative == Wrap(StakeSum(vs[..i]))
      invariant i < |vs| ==> AtSlot(vs, slot, 0) == AtSlot(vs, slot, i)
      invariant i == |vs| ==> AtSlot(vs, slot, 0) == vs[|vs| - 1]
    {
      assert vs[..i + 1][..i] == vs[..i];
      WrapShift(StakeSum(vs[..i]), vs[i].stake);
      cumulative := Wrap(cumulative + vs[i].stake);
      if slot < cumulative {
        return vs[i];
      }
    }
    return vs[|vs| - 1];
  }

  // ---------- Fairness ----------

  lemma {:induction false} PartialStake(vs: seq<Validator>, i: nat, j: nat)
    requires i <= j <= |vs| && StakesFit(vs)
    ensures 0 <= StakeSum(vs[..i]) <= StakeSum(vs[..j])
    decreases j
  {
    if j > 0 {
      assert vs[..j][..j - 1] == vs[..j - 1];
      if i < j {
        PartialStake(vs, i, j - 1);
      } else {
        PartialStake(vs, j - 1, j - 1);
      }
    }
  }

  /** The slots of validator k are exactly its share of the cumulative stake; the fallback is never used. */
  lemma {:induction false} SlotOwner(vs: seq<Validator>, slot: int, i: nat, k: nat)
    requires StakesFit(vs) && StakeSum(vs) < TWO64 && i <= k < |vs|
    requires StakeSum(vs[..k]) <= slot < StakeSum(vs[..k + 1])
    ensures AtSlot(vs, slot, i) == vs[k] && slot < Wrap(StakeSum(vs[..k + 1]))
    decreases k - i
  {
    PartialStake(vs, i + 1, |vs|);
    PartialStake(vs, k + 1, |vs|);
    assert vs[..|vs|] == vs;
    if i < k {
      PartialStake(vs, i + 1, k);
      SlotOwner(vs, slot, i + 1, k);
    }
  }

  /** Every slot below the total has an owner. */
  lemma {:induction false} OwnerExists(vs: seq<Validator>, slot: int, n: nat) returns (k: nat)
    requires n <= |vs| && StakesFit(vs) && 0 <= slot < StakeSum(vs[..n])
    ensures k < n && StakeSum(vs[..k]) <= slot < StakeSum(vs[..k + 1])
  {
    assert n > 0 ==> vs[..n][..n - 1] == vs[..n - 1];
    if slot < StakeSum(vs[..n - 1]) {
      k := OwnerExists(vs, slot, n - 1);
    } else {
      k := n - 1;
    }
  }

  lemma ProposerIsSlotOwner(vs: seq<Validator>, height: Uint64, k: nat)
    requires StakesFit(vs) && 0 < StakeSum(vs) < TWO64 && DistinctAddresses(vs) && k < |vs|
    ensures Proposer(vs, height).address == vs[k].address <==>
            StakeSum(vs[..k]) <= height % StakeSum(vs) < StakeSum(vs[..k + 1])
  {
    var slot := height % StakeSum(vs);
    assert vs[..|vs|] == vs;
    var owner := OwnerExists(vs, slot, |vs|);
    SlotOwner(vs, slot, 0, owner);
    if owner < k {
      PartialStake(vs, owner + 1, k);
    } else if k < owner {
      PartialStake(vs, k + 1, owner);
    }
  }

  /** Without any stake the validators take turns: the k-th proposes at exactly the heights that leave rest k. */
  lemma WithoutStakeTakingTurns(vs: seq<Validator>, height: Uint64, k: nat)
    requires StakesFit(vs) && StakeSum(vs) == 0 && DistinctAddresses(vs) && k < |vs|
    ensures Proposer(vs, height).address == vs[k].address <==> height % |vs| == k
  {}

  /** How many of the n heights from start fall, modulo total, into [lo, hi). */
  function SlotCount(start: nat, n: nat, total: nat, lo: int, hi: int): nat
    requires total > 0
  {
    if n == 0 then 0 else
      SlotCount(start, n - 1, total, lo, hi) + if lo <= (start + n - 1) % total < hi then 1 else 0
  }

  lemma {:induction false} SlotCountFront(start: nat, n: nat, total: nat, lo: int, hi: int)
    requires total > 0
    ensures SlotCount(start, n + 1, total, lo, hi)
            == SlotCount(start + 1, n, total, lo, hi) + if lo <= start % total < hi then 1 else 0
  {
    if n > 0 {
      SlotCountFront(start, n - 1, total, lo, hi);
    }
  }

  lemma {:induction false} AlignedCount(n: nat, total: nat, lo: nat, hi: nat)
    requires n <= total && total > 0 && lo <= hi
    ensures SlotCount(0, n, total, lo, hi) == if n <= lo then 0 else if n <= hi then n - lo else hi - lo
  {
    if n > 0 {
      AlignedCount(n - 1, total, lo, hi);
      SmallMod(n - 1, total);
    }
  }

  lemma SmallMod(x: nat, total: nat)
    requires x < total
    ensures x % total == x && (x + total) % total == x
  {}

  lemma Periodic(x: nat, total: nat)
    requires total > 0
    ensures (x + total) % total == x % total
  {
    assert x == total * (x / total) + x % total;
    var r := x % total;
    var q := x / total;
    assert x + total == total * (q + 1) + r;
    DivUnique(x + total, total, q + 1, r);
  }

  /** A window of total consecutive heights meets each slot range equally often wherever it starts. */
  lemma {:induction false} WindowCount(start: nat, total: nat, lo: nat, hi: nat)
    requires total > 0 && lo <= hi <= total
    ensures SlotCount(start, total, total, lo, hi) == hi - lo
    decreases start
  {
    if start == 0 {
      AlignedCount(total, total, lo, hi);
    } else {
      WindowCount(start - 1, total, lo, hi);
      SlotCountFront(start - 1, total, total, lo, hi);
      Periodic(start - 1, total);
    }
  }

  /** How many of the n heights from start have the given proposer. */
  function ProposalCount(vs: seq<Validator>, a: Address, start: nat, n: nat): nat
    requires start + n <= TWO64
  {
    if n == 0 then 0 else
      ProposalCount(vs, a, start, n - 1) + if Proposer(vs, start + n - 1).address == a then 1 else 0
  }

  lemma {:induction false} CountsAgree(vs: seq<Validator>, k: nat, start: nat, n: nat)
    requires StakesFit(vs) && 0 < StakeSum(vs) < TWO64 && DistinctAddresses(vs) && k < |vs| && start + n <= TWO64
    ensures ProposalCount(vs, vs[k].address, start, n)
            == SlotCount(start, n, StakeSum(vs), StakeSum(vs[..k]), StakeSum(vs[..k + 1]))
  {
    if n > 0 {
      CountsAgree(vs, k, start, n - 1);
      ProposerIsSlotOwner(vs, start + n - 1, k);
    }
  }

  /** Proposer fairness: in any window of as many consecutive heights as there is stake, aligned or not, each
      validator proposes exactly as often as it has stake. */
  lemma ProposerFairness(vs: seq<Validator>, k: nat, start: nat)
    requires StakesFit(vs) && 0 < StakeSum(vs) < TWO64 && DistinctAddresses(vs) && k < |vs|
    requires start + StakeSum(vs) <= TWO64
    ensures ProposalCount(vs, vs[k].address, start, StakeSum(vs)) == vs[k].stake
  {
    CountsAgree(vs, k, start, StakeSum(vs));
    PartialStake(vs, k, k + 1);
    PartialStake(vs, k + 1, |vs|);
    assert vs[..|vs|] == vs && vs[..k + 1][..k] == vs[..k];
    WindowCount(start, StakeSum(vs), StakeSum(vs[..k]), StakeSum(vs[..k + 1]));
  }
}
