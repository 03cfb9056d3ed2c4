/** Slashing: exact, single, and confined to the offender. */
module Slashing {
  import opened Words
  import opened Types
  import opened SafeMath
  import opened Sums
  import opened Ledger
  import opened Invariant

  ghost predicate Positive(q: seq<Unbonding>) {
    forall i :: 0 <= i < |q| ==> q[i].amount > 0
  }

  lemma {:induction false} QueueForBounds(q: seq<Unbonding>, a: Address)
    requires forall i :: 0 <= i < |q| ==> q[i].amount >= 0
    ensures 0 <= QueueFor(q, a) <= QueueTotal(q)
  {
    if q != [] {
      QueueForBounds(q[..|q| - 1], a);
    }
  }

  lemma CutPrefix(q: seq<Unbonding>, a: Address, x: int, n: nat)
    requires n <= |q|
    ensures CutQueue(q, a, x)[..n] == CutQueue(q[..n], a, x)
  {
    forall i | 0 <= i < n
      ensures CutQueue(q, a, x)[i] == CutQueue(q[..n], a, x)[i]
    {
      assert q[..n][..i] == q[..i];
    }
  }

  /** Cutting x takes exactly x from the entries of a (or all they hold), and nothing from anybody else. */
  lemma {:induction false} CutTotals(q: seq<Unbonding>, a: Address, x: nat)
    requires forall i :: 0 <= i < |q| ==> q[i].amount >= 0
    ensures var cut := CutQueue(q, a, x);
            && (forall i :: 0 <= i < |cut| ==> 0 <= cut[i].amount <= q[i].amount)
            && QueueTotal(cut) == QueueTotal(q) - Min(x, QueueFor(q, a))
            && QueueFor(cut, a) == QueueFor(q, a) - Min(x, QueueFor(q, a))
  {
    var cut := CutQueue(q, a, x);
    if q != [] {
      var n := |q| - 1;
      CutTotals(q[..n], a, x);
      CutPrefix(q, a, x, n);
      assert forall i :: 0 <= i < n ==> cut[i] == cut[..n][i] && q[..n][i] == q[i];
      QueueForBounds(q[..n], a);
    }
  }

  lemma {:induction false} QueueForGrows(q: seq<Unbonding>, a: Address, i: nat, j: nat)
    requires i < j <= |q| && q[i].address == a && forall k :: 0 <= k < |q| ==> q[k].amount >= 0
    ensures QueueFor(q[..j], a) >= QueueFor(q[..i], a) + q[i].amount
    decreases j
  {
    assert q[..j][..j - 1] == q[..j - 1];
    if i < j - 1 {
      QueueForGrows(q, a, i, j - 1);
    }
  }

  /** Queue order: an entry is touched only after every earlier entry of the same address is used up. */
  lemma CutInOrder(q: seq<Unbonding>, a: Address, x: int, i: nat, j: nat)
    requires i < j < |q| && q[i].address == a && forall k :: 0 <= k < |q| ==> q[k].amount >= 0
    requires CutQueue(q, a, x)[j] != q[j]
    ensures CutQueue(q, a, x)[i].amount == 0
  {
    QueueForGrows(q, a, i, j);
  }

  lemma {:induction false} CutSparesOthers(q: seq<Unbonding>, a: Address, x: int, b: Address)
    requires b != a
    ensures QueueFor(CutQueue(q, a, x), b) == QueueFor(q, b)
  {
    if q != [] {
      var n := |q| - 1;
      CutSparesOthers(q[..n], a, x, b);
      CutPrefix(q, a, x, n);
    }
  }

  /** Dropping empty entries changes no total. */
  lemma {:induction false} DropEmptyTotals(q: seq<Unbonding>, a: Address)
    requires forall i :: 0 <= i < |q| ==> q[i].amount >= 0
    ensures QueueTotal(DropEmpty(q)) == QueueTotal(q)
    ensures QueueFor(DropEmpty(q), a) == QueueFor(q, a)
    ensures Positive(DropEmpty(q))
  {
    if q != [] {
      var n := |q| - 1;
      DropEmptyTotals(q[..n], a);
      var d := DropEmpty(q);
      if q[n].amount > 0 {
        assert d[..|d| - 1] == DropEmpty(q[..n]);
      } else {
        assert d == DropEmpty(q[..n]);
      }
    }
  }

  /** The slash never exceeds what is at risk. */
  lemma SlashFits(p: Params, atRisk: int)
    requires GoodParams(p) && atRisk > 0
    ensures 1 <= SlashAmount(p, atRisk) <= atRisk
  {
    FloorFacts(atRisk, p.slashPercent, 100);
    DivBounds(atRisk * p.slashPercent, 100, 0);
  }

  /** What is left in the queue after an accepted piece of evidence. */
  lemma SlashedQueue(q: seq<Unbonding>, a: Address, x: nat, b: Address)
    requires Positive(q) && x <= QueueFor(q, a)
    ensures var r := DropEmpty(CutQueue(q, a, x));
            && Positive(r)
            && QueueTotal(r) == QueueTotal(q) - x
            && QueueFor(r, a) == QueueFor(q, a) - x
            && (b != a ==> QueueFor(r, b) == QueueFor(q, b))
  {
    CutTotals(q, a, x);
    DropEmptyTotals(CutQueue(q, a, x), a);
    DropEmptyTotals(CutQueue(q, a, x), b);
    if b != a {
      CutSparesOthers(q, a, x, b);
    }
  }

  lemma PenaltyFacts(s: State, a: Address, h: Uint64, x: nat, b: Address)
    requires NonNegative(s) && a in s.accounts && x <= AtRisk(s, a)
    ensures var r := Penalized(s, a, h, x);
            && AtRisk(r, a) == AtRisk(s, a) - x
            && QueueTotal(r.queue) + r.accounts[a].staked + x == QueueTotal(s.queue) + s.accounts[a].staked
            && Positive(r.queue)
            && (b != a ==> QueueFor(r.queue, b) == QueueFor(s.queue, b))
  {
    var rest := x - Min(x, s.accounts[a].staked);
    if rest > 0 {
      SlashedQueue(s.queue, a, rest, b);
    }
  }

  /** Accepted evidence takes the slash from stake first and then from unbonding, burns exactly that much,
      records the offence, and touches nobody else. */
  lemma SlashIsExact(p: Params, s: State, ev: Evidence, b: Address)
    requires NonNegative(s) && GoodParams(p) && Slashable(p, s, ev)
    ensures var a := ev.voteA.voter;
            var r := ApplyEvidence(p, s, ev);
            var x := SlashAmount(p, AtRisk(s, a));
            && 1 <= x <= AtRisk(s, a)
            && AtRisk(r, a) == AtRisk(s, a) - x
            && r.accounts[a].staked == s.accounts[a].staked - Min(x, s.accounts[a].staked)
            && (x <= s.accounts[a].staked ==> r.queue == s.queue)
            && r.burned == s.burned + x
            && r.slashed == s.slashed + {SlashKey(a, ev.voteA.height)}
            && QueueTotal(r.queue) + r.accounts[a].staked + x == QueueTotal(s.queue) + s.accounts[a].staked
            && Positive(r.queue)
    ensures b != ev.voteA.voter ==>
              var r := ApplyEvidence(p, s, ev);
              QueueFor(r.queue, b) == QueueFor(s.queue, b) && (b in r.accounts <==> b in s.accounts)
              && (b in s.accounts ==> r.accounts[b] == s.accounts[b])
  {
    var a := ev.voteA.voter;
    QueueForBounds(s.queue, a);
    SlashFits(p, AtRisk(s, a));
    PenaltyFacts(s, a, ev.voteA.height, SlashAmount(p, AtRisk(s, a)), b);
  }

  lemma EvidenceStep(p: Params, s: State, ev: Evidence)
    requires Inv(p, s) && GoodParams(p)
    ensures Inv(p, ApplyEvidence(p, s, ev)) && Wealth(ApplyEvidence(p, s, ev)) == Wealth(s)
    ensures ApplyEvidence(p, s, ev).issued == s.issued
    ensures s.slashed <= ApplyEvidence(p, s, ev).slashed
    ensures forall k: nat :: NonceRoom(s, k) ==> NonceRoom(ApplyEvidence(p, s, ev), k)
  {
    if Slashable(p, s, ev) {
      var a := ev.voteA.voter;
      var r := ApplyEvidence(p, s, ev);
      SlashIsExact(p, s, ev, a);
      SumUpdate(s.accounts, a, r.accounts[a], Holdings);
      SlashKeepsInv(p, s, r, a);
    }
  }

  lemma SlashKeepsInv(p: Params, s: State, r: State, a: Address)
    requires Inv(p, s) && a in s.accounts && a in r.accounts
    requires r == s.(accounts := s.accounts[a := s.accounts[a].(staked := r.accounts[a].staked)],
                     queue := r.queue, slashed := r.slashed, burned := r.burned)
    requires r.accounts[a].staked >= 0 && r.burned >= s.burned && Positive(r.queue)
    ensures Inv(p, r)
  {
    GrowsKeepsInv(p, s, r);
  }

  lemma {:induction false} EvidencesStep(p: Params, s: State, evs: seq<Evidence>)
    requires Inv(p, s) && GoodParams(p)
    ensures Inv(p, ApplyEvidences(p, s, evs)) && Wealth(ApplyEvidences(p, s, evs)) == Wealth(s)
    ensures ApplyEvidences(p, s, evs).issued == s.issued
    ensures s.slashed <= ApplyEvidences(p, s, evs).slashed
    ensures forall k: nat :: NonceRoom(s, k) ==> NonceRoom(ApplyEvidences(p, s, evs), k)
  {
    if evs != [] {
      EvidencesStep(p, s, evs[..|evs| - 1]);
      EvidenceStep(p, ApplyEvidences(p, s, evs[..|evs| - 1]), evs[|evs| - 1]);
    }
  }
}
