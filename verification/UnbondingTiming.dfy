/** When unstaked coins come back: once, exactly one unbonding period after the block that unstaked them. */
module UnbondingTiming {
  import opened Words
  import opened Types
  import opened Ledger
  import opened Invariant
  import opened Blocks
  import opened Runs
  import opened UnbondingCuts

  /** What a block's transactions unstake for address a. */
  function UnstakedIn(txs: seq<Tx>, a: Address): int {
    if txs == [] then 0 else
      UnstakedIn(txs[..|txs| - 1], a)
      + if txs[|txs| - 1].kind == TX_UNSTAKE && txs[|txs| - 1].sender == a then txs[|txs| - 1].amount else 0
  }

  // ---------- Release ----------

  lemma SplitAppend(q: seq<Unbonding>, e: Unbonding, h: int)
    ensures Matured(q + [e], h) == if e.release <= h then Matured(q, h) + [e] else Matured(q, h)
    ensures Pending(q + [e], h) == if e.release <= h then Pending(q, h) else Pending(q, h) + [e]
  {
    assert (q + [e])[..|q|] == q;
    assert Matured(q, h) + [] == Matured(q, h) && Pending(q, h) + [] == Pending(q, h);
  }

  lemma MaturedIsDueNext(q: seq<Unbonding>, e: Unbonding, h: int, a: Address)
    requires QueueFor(Matured(q, h), a) == Due(q, a, h) && e.release >= h
    ensures QueueFor(Matured(q + [e], h), a) == Due(q + [e], a, h)
  {
    SplitAppend(q, e, h);
    QueueAppend(Matured(q, h), e, a);
    DueAppend(q, e, a, h);
  }

  lemma {:induction false} MaturedIsDue(q: seq<Unbonding>, h: int, high: int, a: Address)
    requires Window(q, h - 1, high)
    ensures QueueFor(Matured(q, h), a) == Due(q, a, h)
  {
    if q != [] {
      MaturedIsDue(q[..|q| - 1], h, high, a);
      MaturedIsDueNext(q[..|q| - 1], q[|q| - 1], h, a);
      assert q == q[..|q| - 1] + [q[|q| - 1]];
    }
  }

  lemma {:induction false} PendingWindow(q: seq<Unbonding>, h: int, high: int)
    requires Window(q, h - 1, high)
    ensures Window(Pending(q, h), h, high)
  {
    if q != [] {
      PendingWindow(q[..|q| - 1], h, high);
    }
  }

  lemma {:induction false} PendingOrder(q: seq<Unbonding>, h: int)
    requires InOrder(q)
    ensures InOrder(Pending(q, h))
  {
    if q != [] {
      var init, last := q[..|q| - 1], q[|q| - 1];
      assert q == init + [last];
      OrderAppend(init, last);
      PendingOrder(init, h);
      SplitAppend(init, last, h);
      PendingUntil(init, h, last.release);
      OrderAppend(Pending(init, h), last);
    }
  }

  lemma {:induction false} PendingUntil(q: seq<Unbonding>, h: int, high: int)
    requires Window(q, -1, high)
    ensures Window(Pending(q, h), -1, high)
  {
    if q != [] {
      PendingUntil(q[..|q| - 1], h, high);
    }
  }

  lemma PendingDueNext(q: seq<Unbonding>, e: Unbonding, h: int, a: Address, r: int)
    requires r > h && Due(Pending(q, h), a, r) == Due(q, a, r)
    ensures Due(Pending(q + [e], h), a, r) == Due(q + [e], a, r)
  {
    SplitAppend(q, e, h);
    DueAppend(Pending(q, h), e, a, r);
    DueAppend(q, e, a, r);
  }

  lemma {:induction false} PendingDue(q: seq<Unbonding>, h: int, a: Address, r: int)
    requires r > h
    ensures Due(Pending(q, h), a, r) == Due(q, a, r)
  {
    if q != [] {
      PendingDue(q[..|q| - 1], h, a, r);
      PendingDueNext(q[..|q| - 1], q[|q| - 1], h, a, r);
      assert q == q[..|q| - 1] + [q[|q| - 1]];
    }
  }

  /** Exactly the entries due at h are released when nothing older is left, and later ones are untouched. */
  lemma ReleaseIsExact(q: seq<Unbonding>, h: int, high: int, a: Address, r: int)
    requires Window(q, h - 1, high)
    ensures QueueFor(Matured(q, h), a) == Due(q, a, h)
    ensures Window(Pending(q, h), h, high)
    ensures r > h ==> Due(Pending(q, h), a, r) == Due(q, a, r)
  {
    MaturedIsDue(q, h, high, a);
    PendingWindow(q, h, high);
    if r > h {
      PendingDue(q, h, a, r);
    }
  }

  /** Each address is credited exactly the sum of its matured entries. */
  lemma {:induction false} CreditedExactly(accounts: map<Address, Account>, q: seq<Unbonding>, a: Address)
    ensures var after := CreditEntries(accounts, q);
            && (a in after ==>
                  after[a].balance == (if a in accounts then accounts[a].balance else 0) + QueueFor(q, a))
            && (a !in after ==> a !in accounts && QueueFor(q, a) == 0)
  {
    if q != [] {
      CreditedExactly(accounts, q[..|q| - 1], a);
    }
  }

  // ---------- Transactions ----------

  lemma TxQueue(p: Params, s: State, tx: Tx, h: Uint64, t: Int64)
    requires ApplyTx(p, s, tx, h, t).Some? && h + p.unbondingPeriod < TWO64
    ensures var r := ApplyTx(p, s, tx, h, t).value;
            r.queue == if tx.kind == TX_UNSTAKE
                       then s.queue + [Unbonding(tx.sender, tx.amount, h + p.unbondingPeriod)] else s.queue
  {}

  lemma TxDue(p: Params, s: State, tx: Tx, h: Uint64, t: Int64, a: Address, r: int)
    requires ApplyTx(p, s, tx, h, t).Some? && h + p.unbondingPeriod < TWO64 && p.unbondingPeriod >= 1
    requires Window(s.queue, h, h + p.unbondingPeriod) && InOrder(s.queue)
    ensures var m := ApplyTx(p, s, tx, h, t).value;
            && Window(m.queue, h, h + p.unbondingPeriod) && InOrder(m.queue)
            && Due(m.queue, a, r) == Due(s.queue, a, r)
               + if r == h + p.unbondingPeriod && tx.kind == TX_UNSTAKE && tx.sender == a then tx.amount else 0
  {
    TxQueue(p, s, tx, h, t);
    var entry := Unbonding(tx.sender, tx.amount, h + p.unbondingPeriod);
    DueAppend(s.queue, entry, a, r);
    OrderAppend(s.queue, entry);
  }

  lemma UnstakedInNext(txs: seq<Tx>, tx: Tx, a: Address)
    ensures UnstakedIn(txs + [tx], a)
            == UnstakedIn(txs, a) + if tx.kind == TX_UNSTAKE && tx.sender == a then tx.amount else 0
  {
    assert (txs + [tx])[..|txs|] == txs;
  }

  lemma {:induction false} TxsDue(p: Params, s: State, txs: seq<Tx>, h: Uint64, t: Int64, high: int, a: Address, r: int)
    requires ApplyTxs(p, s, txs, h, t).Some? && h + p.unbondingPeriod < TWO64 && p.unbondingPeriod >= 1
    requires Window(s.queue, h, high) && high <= h + p.unbondingPeriod && InOrder(s.queue)
    ensures var m := ApplyTxs(p, s, txs, h, t).value;
            && Window(m.queue, h, h + p.unbondingPeriod) && InOrder(m.queue)
            && Due(m.queue, a, r)
               == Due(s.queue, a, r) + if r == h + p.unbondingPeriod then UnstakedIn(txs, a) else 0
  {
    if txs == [] {
      TxsUnfold(p, s, txs, h, t);
    } else {
      var init, last := txs[..|txs| - 1], txs[|txs| - 1];
      assert txs == init + [last];
      LastTx(p, s, txs, h, t);
      TxsDue(p, s, init, h, t, high, a, r);
      TxDue(p, ApplyTxs(p, s, init, h, t).value, last, h, t, a, r);
      UnstakedInNext(init, last, a);
    }
  }

  // ---------- Blocks ----------

  /** What the slashes of a block take from the coins of a that are due at r. */
  ghost function BlockCut(p: Params, s: State, b: Block, a: Address, r: int): int {
    EvidencesCut(p, Release(s, b.header.height), b.evidence, a, r)
  }

  /** Releases and slashes of a block, before its transactions. */
  lemma BeginDue(p: Params, s: State, b: Block, high: int, a: Address, r: int)
    requires Inv(p, s) && GoodParams(p) && Window(s.queue, b.header.height - 1, high) && InOrder(s.queue)
    ensures Window(BeginBlock(p, s, b).queue, b.header.height, high) && InOrder(BeginBlock(p, s, b).queue)
    ensures var h := b.header.height;
            && (h < r ==> Due(BeginBlock(p, s, b).queue, a, r) == Due(s.queue, a, r) - BlockCut(p, s, b, a, r))
            && 0 <= BlockCut(p, s, b, a, r) <= (if h < r then Due(s.queue, a, r) else 0)
  {
    var h := b.header.height;
    var m := Release(s, h);
    ReleaseStep(p, s, h);
    ReleaseIsExact(s.queue, h, high, a, r);
    PendingOrder(s.queue, h);
    EvidencesShape(p, m, b.evidence, h, high);
    EvidencesDue(p, m, b.evidence, h, high, a, r);
    if r <= h {
      DueOutside(m.queue, h, high, a, r);
    }
  }

  lemma BlockQueue(p: Params, s: State, b: Block)
    requires ApplyBlock(p, s, b).Some?
    ensures var m := ApplyTxs(p, BeginBlock(p, s, b), b.txs, b.header.height, b.header.timestamp);
            m.Some? && ApplyBlock(p, s, b).value.queue == m.value.queue
  {}

  /** How the queue moves in block b with period u and the given cut, as seen by address a and release height r. */
  ghost predicate DueStep(before: seq<Unbonding>, after: seq<Unbonding>, b: Block, u: int, cut: int, a: Address, r: int)
  {
    var h := b.header.height;
    && Window(after, h, h + u) && InOrder(after)
    && 0 <= cut <= (if h < r < h + u then Due(before, a, r) else 0)
    && (h < r < h + u ==> Due(after, a, r) == Due(before, a, r) - cut)
    && (r == h + u ==> Due(after, a, r) == UnstakedIn(b.txs, a))
  }

  /** One block: later entries are cut by exactly its slashes, and what it unstakes becomes due one period later. */
  lemma BlockDue(p: Params, s: State, b: Block, a: Address, r: int)
    requires Inv(p, s) && GoodParams(p) && ApplyBlock(p, s, b).Some?
    requires b.header.height + p.unbondingPeriod < TWO64 && p.unbondingPeriod >= 1
    requires Window(s.queue, b.header.height - 1, b.header.height - 1 + p.unbondingPeriod) && InOrder(s.queue)
    ensures DueStep(s.queue, ApplyBlock(p, s, b).value.queue, b, p.unbondingPeriod, BlockCut(p, s, b, a, r), a, r)
  {
    var h, u := b.header.height, p.unbondingPeriod;
    BeginDue(p, s, b, h - 1 + u, a, r);
    TxsDueInBlock(p, s, b, a, r);
    if h + u <= r {
      DueOutside(s.queue, h - 1, h - 1 + u, a, r);
      DueOutside(BeginBlock(p, s, b).queue, h, h - 1 + u, a, r);
    }
  }

  lemma TxsDueInBlock(p: Params, s: State, b: Block, a: Address, r: int)
    requires ApplyBlock(p, s, b).Some? && b.header.height + p.unbondingPeriod < TWO64 && p.unbondingPeriod >= 1
    requires Window(BeginBlock(p, s, b).queue, b.header.height, b.header.height - 1 + p.unbondingPeriod)
    requires InOrder(BeginBlock(p, s, b).queue)
    ensures var due := b.header.height + p.unbondingPeriod;
            var q := ApplyBlock(p, s, b).value.queue;
            && Window(q, b.header.height, due) && InOrder(q)
            && Due(q, a, r) == Due(BeginBlock(p, s, b).queue, a, r) + if r == due then UnstakedIn(b.txs, a) else 0
  {
    BlockQueue(p, s, b);
    TxsDue(p, BeginBlock(p, s, b), b.txs, b.header.height, b.header.timestamp,
           b.header.height - 1 + p.unbondingPeriod, a, r);
  }

  // ---------- Runs ----------

  /** What all slashes of a run take from the coins of a that are due at r. */
  ghost function RunCut(p: Params, s: State, blocks: seq<Block>, a: Address, r: int): int {
    if blocks == [] then 0 else
      var init := blocks[..|blocks| - 1];
      RunCut(p, s, init, a, r)
      + match Execute(p, s, init)
        case None => 0
        case Some(m) => BlockCut(p, m, blocks[|blocks| - 1], a, r)
  }

  /** The queue q after the given blocks holds what recent blocks unstaked, less exactly the cuts. */
  ghost predicate Remembers(q: seq<Unbonding>, blocks: seq<Block>, u: int, cuts: int, a: Address, r: int)
    requires u >= 1
  {
    var k := |blocks|;
    && Window(q, k, k + u) && InOrder(q)
    && 0 <= cuts
    && (k + u <= r ==> cuts == 0)
    && (r <= u ==> Due(q, a, r) == 0 && cuts == 0)
    && (u < r && k < r <= k + u ==> Due(q, a, r) == UnstakedIn(blocks[r - u - 1].txs, a) - cuts)
  }

  lemma RemembersNext(before: seq<Unbonding>, after: seq<Unbonding>, blocks: seq<Block>, u: int, cuts: int, cut: int,
                      a: Address, r: int)
    requires blocks != [] && u >= 1 && Consecutive(blocks)
    requires Remembers(before, blocks[..|blocks| - 1], u, cuts, a, r)
    requires DueStep(before, after, blocks[|blocks| - 1], u, cut, a, r)
    ensures Remembers(after, blocks, u, cuts + cut, a, r)
  {
    var n := |blocks| - 1;
    assert blocks[n].header.height == n + 1;
    if u < r <= n + u {
      assert blocks[..n][r - u - 1] == blocks[r - u - 1];
    }
    if r <= n + 1 {
      DueOutside(after, n + 1, n + 1 + u, a, r);
    }
  }

  /** After any run of consecutive heights, the queue holds what the last blocks unstaked less the cuts of the run. */
  lemma {:induction false} QueueHistory(p: Params, s: State, blocks: seq<Block>, a: Address, r: int)
    requires Inv(p, s) && GoodParams(p) && PostIdsDistinct(p) && s.queue == []
    requires TxCount(blocks) < TWO64 && NonceRoom(s, TxCount(blocks))
    requires Consecutive(blocks) && Execute(p, s, blocks).Some?
    requires |blocks| + p.unbondingPeriod < TWO64 && p.unbondingPeriod >= 1
    ensures Remembers(Execute(p, s, blocks).value.queue, blocks, p.unbondingPeriod, RunCut(p, s, blocks, a, r), a, r)
  {
    ExecuteUnfold(p, s, blocks);
    if blocks != [] {
      var n := |blocks| - 1;
      QueueHistory(p, s, blocks[..n], a, r);
      ExecuteStep(p, s, blocks[..n], |blocks[n].txs|);
      var m := Execute(p, s, blocks[..n]).value;
      BlockDue(p, m, blocks[n], a, r);
      RemembersNext(m.queue, Execute(p, s, blocks).value.queue, blocks, p.unbondingPeriod,
                    RunCut(p, s, blocks[..n], a, r), BlockCut(p, m, blocks[n], a, r), a, r);
    }
  }

  /** No block strictly between the two heights carries evidence against a. */
  ghost predicate QuietBetween(blocks: seq<Block>, from: int, to: int, a: Address) {
    forall i :: 0 <= i < |blocks| && from < i + 1 < to ==> Spares(blocks[i].evidence, a)
  }

  /** The cuts are all made after the unstaking and before the release. */
  lemma {:induction false} CutsInBetween(p: Params, s: State, blocks: seq<Block>, a: Address, r: int)
    requires Inv(p, s) && GoodParams(p) && PostIdsDistinct(p) && s.queue == []
    requires TxCount(blocks) < TWO64 && NonceRoom(s, TxCount(blocks))
    requires Consecutive(blocks) && Execute(p, s, blocks).Some?
    requires |blocks| + p.unbondingPeriod < TWO64 && p.unbondingPeriod >= 1
    requires QuietBetween(blocks, r - p.unbondingPeriod, r, a)
    ensures RunCut(p, s, blocks, a, r) == 0
  {
    ExecuteUnfold(p, s, blocks);
    if blocks != [] {
      var n := |blocks| - 1;
      assert blocks[n].header.height == n + 1;
      CutsInBetween(p, s, blocks[..n], a, r);
      ExecuteStep(p, s, blocks[..n], |blocks[n].txs|);
      QueueHistory(p, s, blocks[..n], a, r);
      var m := Execute(p, s, blocks[..n]).value;
      if r - p.unbondingPeriod < n + 1 < r {
        SparedCut(p, Release(m, n + 1), blocks[n].evidence, a, r);
      } else {
        BlockDue(p, m, blocks[n], a, r);
      }
    }
  }

  /** What the release at height h pays to a. */
  ghost function PaidOut(m: State, h: int, a: Address): int {
    QueueFor(Matured(m.queue, h), a)
  }

  /** A payment to a at the height after the given blocks that is on time: exactly what the block one period
      earlier unstaked for a, less the cuts that slashing made to it since, and nothing before the first period is
      over. */
  ghost predicate OnTime(paid: int, past: seq<Block>, u: int, cuts: int, a: Address)
    requires u >= 1
  {
    var k := |past|;
    && paid == (if k < u then 0 else UnstakedIn(past[k - u].txs, a) - cuts)
    && 0 <= cuts
    && 0 <= paid
  }

  /** Unbonding timing: after any run of consecutive heights, what the next block releases is on time. */
  lemma ReleaseTiming(p: Params, s: State, blocks: seq<Block>, a: Address)
    requires Inv(p, s) && GoodParams(p) && PostIdsDistinct(p) && s.queue == []
    requires TxCount(blocks) < TWO64 && NonceRoom(s, TxCount(blocks))
    requires Consecutive(blocks) && Execute(p, s, blocks).Some?
    requires |blocks| + p.unbondingPeriod < TWO64 && p.unbondingPeriod >= 1
    ensures var k := |blocks|;
            var cuts := RunCut(p, s, blocks, a, k + 1);
            && OnTime(PaidOut(Execute(p, s, blocks).value, k + 1, a), blocks, p.unbondingPeriod, cuts, a)
            && (QuietBetween(blocks, k + 1 - p.unbondingPeriod, k + 1, a) ==> cuts == 0)
  {
    var r := |blocks| + 1;
    QueueHistory(p, s, blocks, a, r);
    ExecuteStep(p, s, blocks, 0);
    PaidFromHistory(Execute(p, s, blocks).value.queue, blocks, p.unbondingPeriod, RunCut(p, s, blocks, a, r), a);
    if QuietBetween(blocks, r - p.unbondingPeriod, r, a) {
      CutsInBetween(p, s, blocks, a, r);
    }
  }

  lemma PaidFromHistory(q: seq<Unbonding>, past: seq<Block>, u: int, cuts: int, a: Address)
    requires u >= 1 && Remembers(q, past, u, cuts, a, |past| + 1) && NoDebt(q)
    ensures OnTime(QueueFor(Matured(q, |past| + 1), a), past, u, cuts, a)
  {
    ReleaseIsExact(q, |past| + 1, |past| + u, a, |past| + 1);
    DueSplits(q, a, |past| + 1);
  }

  /** What is paid out goes into the balance, once: the release adds exactly that to the account. */
  lemma PaidIntoBalance(m: State, h: Uint64, a: Address)
    ensures var after := Release(m, h).accounts;
            && (a in after ==>
                  after[a].balance == (if a in m.accounts then m.accounts[a].balance else 0) + PaidOut(m, h, a))
            && (a !in after ==> a !in m.accounts && PaidOut(m, h, a) == 0)
  {
    CreditedExactly(m.accounts, Matured(m.queue, h), a);
  }
}
