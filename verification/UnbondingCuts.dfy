/** What slashing takes from unbonding coins: the entries due soonest, down to the last coin, before any later one. */
module UnbondingCuts {
  import opened Words
  import opened Types
  import opened Ledger
  import opened Invariant
  import opened Slashing

  /** What address a has in the queue for release at height r. */
  function Due(q: seq<Unbonding>, a: Address, r: int): int {
    if q == [] then 0 else
      Due(q[..|q| - 1], a, r)
      + if q[|q| - 1].address == a && q[|q| - 1].release == r then q[|q| - 1].amount else 0
  }

  /** What address a has in the queue for release no later than height r. */
  function DueBy(q: seq<Unbonding>, a: Address, r: int): int {
    if q == [] then 0 else
      DueBy(q[..|q| - 1], a, r)
      + if q[|q| - 1].address == a && q[|q| - 1].release <= r then q[|q| - 1].amount else 0
  }

  /** All entries are due later than low and no later than high. */
  ghost predicate Window(q: seq<Unbonding>, low: int, high: int) {
    forall i :: 0 <= i < |q| ==> low < q[i].release <= high
  }

  /** Entries stand in the order of their release. */
  ghost predicate InOrder(q: seq<Unbonding>) {
    forall i, j :: 0 <= i < j < |q| ==> q[i].release <= q[j].release
  }

  ghost predicate NoDebt(q: seq<Unbonding>) {
    forall i :: 0 <= i < |q| ==> q[i].amount >= 0
  }

  lemma DueAppend(q: seq<Unbonding>, e: Unbonding, a: Address, r: int)
    ensures Due(q + [e], a, r) == Due(q, a, r) + if e.address == a && e.release == r then e.amount else 0
    ensures DueBy(q + [e], a, r) == DueBy(q, a, r) + if e.address == a && e.release <= r then e.amount else 0
  {
    assert (q + [e])[..|q|] == q;
  }

  lemma {:induction false} DueOutside(q: seq<Unbonding>, low: int, high: int, a: Address, r: int)
    requires Window(q, low, high) && !(low < r <= high)
    ensures Due(q, a, r) == 0
  {
    if q != [] {
      DueOutside(q[..|q| - 1], low, high, a, r);
    }
  }

  lemma {:induction false} DueSplits(q: seq<Unbonding>, a: Address, r: int)
    requires NoDebt(q)
    ensures Due(q, a, r) == DueBy(q, a, r) - DueBy(q, a, r - 1) >= 0
    ensures DueBy(q, a, r - 1) >= 0
  {
    if q != [] {
      var init, last := q[..|q| - 1], q[|q| - 1];
      assert q == init + [last];
      DueSplits(init, a, r);
      DueAppend(init, last, a, r);
      DueAppend(init, last, a, r - 1);
    }
  }

  lemma {:induction false} DueByAll(q: seq<Unbonding>, a: Address, r: int)
    requires Window(q, -1, r)
    ensures DueBy(q, a, r) == QueueFor(q, a)
  {
    if q != [] {
      DueByAll(q[..|q| - 1], a, r);
    }
  }

  lemma OrderAppend(q: seq<Unbonding>, e: Unbonding)
    ensures InOrder(q + [e]) <==> InOrder(q) && Window(q, -1, e.release)
  {
    var all := q + [e];
    if InOrder(all) {
      assert forall i :: 0 <= i < |q| ==> all[i] == q[i] && all[i].release <= all[|q|].release;
      assert forall i, j :: 0 <= i < j < |q| ==> all[i] == q[i] && all[j] == q[j] && all[i].release <= all[j].release;
    }
  }

  // ---------- Dropping emptied entries ----------

  lemma DropAppend(q: seq<Unbonding>, x: Unbonding)
    ensures DropEmpty(q + [x]) == if x.amount > 0 then DropEmpty(q) + [x] else DropEmpty(q)
  {
    assert (q + [x])[..|q|] == q;
    assert DropEmpty(q) + [] == DropEmpty(q);
  }

  lemma {:induction false} DropDue(q: seq<Unbonding>, a: Address, r: int)
    requires NoDebt(q)
    ensures Due(DropEmpty(q), a, r) == Due(q, a, r)
  {
    if q != [] {
      var init, last := q[..|q| - 1], q[|q| - 1];
      assert q == init + [last];
      DropDue(init, a, r);
      DropAppend(init, last);
      DueAppend(init, last, a, r);
      DueAppend(DropEmpty(init), last, a, r);
    }
  }

  lemma {:induction false} DropWindow(q: seq<Unbonding>, low: int, high: int)
    requires Window(q, low, high)
    ensures Window(DropEmpty(q), low, high)
  {
    if q != [] {
      DropWindow(q[..|q| - 1], low, high);
    }
  }

  lemma {:induction false} DropOrder(q: seq<Unbonding>)
    requires InOrder(q)
    ensures InOrder(DropEmpty(q))
  {
    if q != [] {
      var init, last := q[..|q| - 1], q[|q| - 1];
      assert q == init + [last];
      OrderAppend(init, last);
      DropOrder(init);
      DropAppend(init, last);
      DropWindow(init, -1, last.release);
      OrderAppend(DropEmpty(init), last);
    }
  }

  // ---------- One slash ----------

  /** What a slash of x takes from the entries of a that are due at r, when the entries due sooner go first. */
  function CutAt(q: seq<Unbonding>, a: Address, x: int, r: int): int {
    Min(x, DueBy(q, a, r)) - Min(x, DueBy(q, a, r - 1))
  }

  lemma CutAppend(q: seq<Unbonding>, e: Unbonding, a: Address, x: int) returns (rest: int)
    ensures CutQueue(q + [e], a, x) == CutQueue(q, a, x) + [e.(amount := rest)]
    ensures e.address != a ==> rest == e.amount
  {
    var all := q + [e];
    rest := e.amount - Cut(all, a, x, |q|);
    assert all[..|q|] == q;
    CutPrefix(all, a, x, |q|);
    var cut := CutQueue(all, a, x);
    assert cut == cut[..|q|] + [cut[|q|]];
  }

  /** All that is due by r, in an ordered queue, is cut down to what x leaves of it. */
  lemma {:induction false} CutDueBy(q: seq<Unbonding>, a: Address, x: nat, r: int)
    requires NoDebt(q) && InOrder(q)
    ensures DueBy(CutQueue(q, a, x), a, r) == DueBy(q, a, r) - Min(x, DueBy(q, a, r))
  {
    if q != [] {
      var init, last := q[..|q| - 1], q[|q| - 1];
      assert q == init + [last];
      OrderAppend(init, last);
      if last.release <= r {
        CutDueByAll(q, a, x, r);
      } else {
        CutDueBy(init, a, x, r);
        CutDueByLater(init, last, a, x, r);
      }
    }
  }

  lemma CutDueByAll(q: seq<Unbonding>, a: Address, x: nat, r: int)
    requires NoDebt(q) && Window(q, -1, r)
    ensures DueBy(CutQueue(q, a, x), a, r) == DueBy(q, a, r) - Min(x, DueBy(q, a, r))
  {
    CutTotals(q, a, x);
    DueByAll(q, a, r);
    assert Window(CutQueue(q, a, x), -1, r);
    DueByAll(CutQueue(q, a, x), a, r);
  }

  lemma CutDueByLater(q: seq<Unbonding>, e: Unbonding, a: Address, x: nat, r: int)
    requires e.release > r
    ensures DueBy(q + [e], a, r) == DueBy(q, a, r)
    ensures DueBy(CutQueue(q + [e], a, x), a, r) == DueBy(CutQueue(q, a, x), a, r)
  {
    var rest := CutAppend(q, e, a, x);
    DueAppend(q, e, a, r);
    DueAppend(CutQueue(q, a, x), e.(amount := rest), a, r);
  }

  lemma {:induction false} CutDueOther(q: seq<Unbonding>, b: Address, x: nat, a: Address, r: int)
    requires a != b
    ensures Due(CutQueue(q, b, x), a, r) == Due(q, a, r)
  {
    if q != [] {
      var init, last := q[..|q| - 1], q[|q| - 1];
      assert q == init + [last];
      CutDueOther(init, b, x, a, r);
      var rest := CutAppend(init, last, b, x);
      DueAppend(init, last, a, r);
      DueAppend(CutQueue(init, b, x), last.(amount := rest), a, r);
    }
  }

  /** In an ordered queue a slash of x takes from each release height exactly what the earlier ones leave of it. */
  lemma SlashedDue(q: seq<Unbonding>, b: Address, x: nat, a: Address, r: int)
    requires Positive(q) && InOrder(q)
    ensures var cut := if a == b then CutAt(q, a, x, r) else 0;
            && Due(DropEmpty(CutQueue(q, b, x)), a, r) == Due(q, a, r) - cut
            && 0 <= cut <= Due(q, a, r)
  {
    CutTotals(q, b, x);
    DropDue(CutQueue(q, b, x), a, r);
    DueSplits(q, a, r);
    if a != b {
      CutDueOther(q, b, x, a, r);
    } else {
      DueSplits(CutQueue(q, b, x), a, r);
      CutDueBy(q, a, x, r);
      CutDueBy(q, a, x, r - 1);
    }
  }

  lemma SlashedShape(q: seq<Unbonding>, b: Address, x: nat, low: int, high: int)
    requires Window(q, low, high) && InOrder(q)
    ensures Window(DropEmpty(CutQueue(q, b, x)), low, high) && InOrder(DropEmpty(CutQueue(q, b, x)))
  {
    DropWindow(CutQueue(q, b, x), low, high);
    DropOrder(CutQueue(q, b, x));
  }

  // ---------- Evidence ----------

  /** What a piece of evidence takes from the coins of a that are due at r: nothing unless it is accepted against a,
      and then what the slash leaves over after the stake and the entries due before r. */
  ghost function EvidenceCut(p: Params, s: State, ev: Evidence, a: Address, r: int): int {
    if Slashable(p, s, ev) && ev.voteA.voter == a then
      var slash := SlashAmount(p, AtRisk(s, a));
      CutAt(s.queue, a, slash - Min(slash, s.accounts[a].staked), r)
    else 0
  }

  /** What a list of evidence takes from them. */
  ghost function EvidencesCut(p: Params, s: State, evs: seq<Evidence>, a: Address, r: int): int {
    if evs == [] then 0 else
      var init := evs[..|evs| - 1];
      EvidencesCut(p, s, init, a, r) + EvidenceCut(p, ApplyEvidences(p, s, init), evs[|evs| - 1], a, r)
  }

  lemma EvidenceDue(p: Params, s: State, ev: Evidence, a: Address, r: int)
    requires Positive(s.queue) && InOrder(s.queue)
    ensures Due(ApplyEvidence(p, s, ev).queue, a, r) == Due(s.queue, a, r) - EvidenceCut(p, s, ev, a, r)
    ensures 0 <= EvidenceCut(p, s, ev, a, r) <= Due(s.queue, a, r)
  {
    DueSplits(s.queue, a, r);
    if Slashable(p, s, ev) {
      var slash := SlashAmount(p, AtRisk(s, ev.voteA.voter));
      SlashedDue(s.queue, ev.voteA.voter, slash - Min(slash, s.accounts[ev.voteA.voter].staked), a, r);
    }
  }

  lemma EvidenceShape(p: Params, s: State, ev: Evidence, low: int, high: int)
    requires Window(s.queue, low, high) && InOrder(s.queue)
    ensures Window(ApplyEvidence(p, s, ev).queue, low, high) && InOrder(ApplyEvidence(p, s, ev).queue)
  {
    if Slashable(p, s, ev) {
      var slash := SlashAmount(p, AtRisk(s, ev.voteA.voter));
      SlashedShape(s.queue, ev.voteA.voter, slash - Min(slash, s.accounts[ev.voteA.voter].staked), low, high);
    }
  }

  lemma {:induction false} EvidencesShape(p: Params, s: State, evs: seq<Evidence>, low: int, high: int)
    requires Window(s.queue, low, high) && InOrder(s.queue)
    ensures Window(ApplyEvidences(p, s, evs).queue, low, high) && InOrder(ApplyEvidences(p, s, evs).queue)
  {
    if evs != [] {
      EvidencesShape(p, s, evs[..|evs| - 1], low, high);
      EvidenceShape(p, ApplyEvidences(p, s, evs[..|evs| - 1]), evs[|evs| - 1], low, high);
    }
  }

  /** A list of evidence takes exactly its cuts from the coins of a that are due at r. */
  lemma {:induction false} EvidencesDue(p: Params, s: State, evs: seq<Evidence>, low: int, high: int,
                                        a: Address, r: int)
    requires Inv(p, s) && GoodParams(p) && Window(s.queue, low, high) && InOrder(s.queue)
    ensures Due(ApplyEvidences(p, s, evs).queue, a, r) == Due(s.queue, a, r) - EvidencesCut(p, s, evs, a, r)
    ensures 0 <= EvidencesCut(p, s, evs, a, r) <= Due(s.queue, a, r)
  {
    if evs == [] {
      DueSplits(s.queue, a, r);
    } else {
      var init := evs[..|evs| - 1];
      EvidencesDue(p, s, init, low, high, a, r);
      EvidencesStep(p, s, init);
      EvidencesShape(p, s, init, low, high);
      EvidenceDue(p, ApplyEvidences(p, s, init), evs[|evs| - 1], a, r);
    }
  }

  /** No evidence in the list names a. */
  predicate Spares(evs: seq<Evidence>, a: Address) {
    forall i :: 0 <= i < |evs| ==> evs[i].voteA.voter != a
  }

  lemma {:induction false} SparedCut(p: Params, s: State, evs: seq<Evidence>, a: Address, r: int)
    requires Spares(evs, a)
    ensures EvidencesCut(p, s, evs, a, r) == 0
  {
    if evs != [] {
      SparedCut(p, s, evs[..|evs| - 1], a, r);
    }
  }
}
