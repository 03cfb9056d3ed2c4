/** Executing a block: clone, release, slash, transactions, reward, epoch. */
module BlockExecutors {
  import opened Words
  import opened Types
  import opened SafeMath
  import opened Ledger
  import opened Invariant
  import opened Slashing
  import opened Blocks
  import opened Bounds
  import opened WorldStates
  import opened ValidatorSort
  import opened Executors

  /** Executes one validated transaction in place. */
  method ApplyTransaction(p: Params, ws: WorldState, tx: Tx, h: Uint64, t: Int64)
    requires Ready(p, ws.View(), tx)
    modifies ws
    ensures ApplyTx(p, old(ws.View()), tx, h, t) == Some(ws.View())
  {
    if tx.kind == TX_TRANSFER {
      ApplyTransferTo(p, ws, tx, h, t);
    } else if tx.kind == TX_CREATE_POST {
      ApplyCreatePostTo(p, ws, tx, h, t);
    } else if tx.kind == TX_BOOST_POST {
      ApplyBoostTo(p, ws, tx, h, t);
    } else if tx.kind == TX_UNSTAKE_POST {
      ApplyUnstakePostTo(p, ws, tx);
    } else if tx.kind == TX_REGISTER_NAME {
      ApplyRegisterNameTo(p, ws, tx);
    } else if tx.kind == TX_STAKE {
      ApplyStakeTo(p, ws, tx, h, t);
    } else {
      ApplyUnstakeTo(p, ws, tx, h);
    }
  }

  // ---------- Slashing ----------

  method ComputeSlash(p: Params, atRisk: Uint64) returns (x: Uint64)
    requires GoodParams(p) && atRisk > 0
    ensures x == SlashAmount(p, atRisk) && 1 <= x <= atRisk
  {
    SlashFits(p, atRisk);
    MulDivFraction(atRisk, p.slashPercent, 100);
    x := MulDiv(atRisk, p.slashPercent, 100);
    if x == 0 {
      x := 1;
    }
  }

  method ApplySlashEvidence(p: Params, ws: WorldState, ev: Evidence)
    requires Sound(p, ws.View()) && GoodParams(p)
    modifies ws
    ensures ws.View() == ApplyEvidence(p, old(ws.View()), ev)
  {
    if !ValidEvidence(p, ev) {
      return;
    }
    var a := ev.voteA.voter;
    if SlashKey(a, ev.voteA.height) in ws.slashRecord || a !in ws.accounts {
      return;
    }
    AtRiskBound(ws.View(), a);
    AccountBound(ws.View(), a);
    SupplyBound(ws.View());
    var unbonding := ws.UnbondingBalanceFor(a);
    var atRisk := Plus(ws.accounts[a].staked, unbonding);
    if atRisk == 0 {
      return;
    }
    var x := ComputeSlash(p, atRisk);
    SlashRoom(p, ws.View(), ev);
    Slash(p, ws, a, ev.voteA.height, x);
  }

  /** Takes the slash x from stake first, then from unbonding; records and burns it. */
  method Slash(ghost p: Params, ws: WorldState, a: Address, h: Uint64, x: Uint64)
    requires NamesAgree(ws.View()) && a in ws.accounts && 0 <= ws.accounts[a].staked < TWO64
    requires forall i :: 0 <= i < |ws.unbondingQueue| ==> 0 <= ws.unbondingQueue[i].amount < TWO64
    requires 0 <= ws.burnedSupply && ws.burnedSupply + x < TWO64
    modifies ws
    ensures ws.View() == Penalized(old(ws.View()), a, h, x)
  {
    var acct := ws.accounts[a];
    var fromStake := if x > acct.staked then acct.staked else x;
    var remaining := Minus(x, fromStake);
    Store(p, ws, a, acct.(staked := Minus(acct.staked, fromStake)));
    if remaining > 0 {
      ws.SlashUnbonding(a, remaining);
    }
    ws.slashRecord := ws.slashRecord + {SlashKey(a, h)};
    ws.burnedSupply := Plus(ws.burnedSupply, x);
  }

  /** In a sound state the amounts a slash touches all fit a uint64. */
  lemma SlashRoom(p: Params, s: State, ev: Evidence)
    requires Sound(p, s) && GoodParams(p) && Slashable(p, s, ev)
    ensures var a := ev.voteA.voter;
            && 0 <= s.accounts[a].staked < TWO64
            && (forall i :: 0 <= i < |s.queue| ==> 0 <= s.queue[i].amount < TWO64)
            && 0 <= s.burned && s.burned + SlashAmount(p, AtRisk(s, a)) < TWO64
  {
    SlashSound(p, s, ev);
    SupplyBound(s);
    SupplyBound(ApplyEvidence(p, s, ev));
    AccountBound(s, ev.voteA.voter);
    QueueTotalNonNegative(s.queue);
  }

  lemma SlashSound(p: Params, s: State, ev: Evidence)
    requires Sound(p, s) && GoodParams(p)
    ensures Sound(p, ApplyEvidence(p, s, ev))
  {
    EvidenceStep(p, s, ev);
  }

  method ApplyEvidenceList(p: Params, ws: WorldState, evs: seq<Evidence>)
    requires Sound(p, ws.View()) && GoodParams(p)
    modifies ws
    ensures ws.View() == ApplyEvidences(p, old(ws.View()), evs)
  {
    ghost var s := ws.View();
    for i := 0 to |evs|
      invariant ws.View() == ApplyEvidences(p, s, evs[..i])
    {
      EvidencesStep(p, s, evs[..i]);
      assert evs[..i + 1][..i] == evs[..i];
      ApplySlashEvidence(p, ws, evs[i]);
    }
    assert evs[..|evs|] == evs;
  }

  // ---------- Releases ----------

  /** Credits the matured entries one after the other. */
  method CreditMatured(ghost p: Params, ws: WorldState, matured: seq<Unbonding>)
    requires NamesMatch(ws.accounts, ws.nameIndex) && Positive(matured) && QueueTotal(matured) < TWO64
    requires forall a :: a in ws.accounts ==> ws.accounts[a].balance >= 0
    requires forall a :: a in CreditEntries(ws.accounts, matured) ==>
      CreditEntries(ws.accounts, matured)[a].balance < TWO64
    modifies ws
    ensures ws.View() == old(ws.View()).(accounts := CreditEntries(old(ws.accounts), matured))
  {
    ghost var start := ws.View();
    QueueTotalNonNegative(matured);
    for i := 0 to |matured|
      invariant NamesMatch(ws.accounts, ws.nameIndex)
      invariant ws.View() == start.(accounts := CreditEntries(start.accounts, matured[..i]))
      invariant forall a :: a in ws.accounts ==> ws.accounts[a].balance >= 0
    {
      assert matured[..i + 1][..i] == matured[..i];
      PartialCredits(start.accounts, matured, i + 1, matured[i].address);
      CreditAccount(p, ws, matured[i].address, matured[i].amount);
    }
    assert matured[..|matured|] == matured;
  }

  /** A balance after some of the credits is at most the balance after all of them. */
  lemma {:induction false} PartialCredits(accounts: map<Address, Account>, q: seq<Unbonding>, n: nat, a: Address)
    requires n <= |q| && Positive(q) && a in CreditEntries(accounts, q[..n])
    ensures a in CreditEntries(accounts, q)
    ensures CreditEntries(accounts, q[..n])[a].balance <= CreditEntries(accounts, q)[a].balance
    decreases |q|
  {
    if n == |q| {
      assert q[..n] == q;
    } else {
      var m := |q| - 1;
      assert q[..m][..n] == q[..n];
      PartialCredits(accounts, q[..m], n, a);
    }
  }

  method ReleaseUnbonding(ghost p: Params, ws: WorldState, h: Uint64)
    requires Sound(p, ws.View())
    modifies ws
    ensures ws.View() == Release(old(ws.View()), h)
  {
    ghost var s := ws.View();
    ghost var r := Release(s, h);
    ReleaseStep(p, s, h);
    ReleasePositive(s.queue, h);
    ReleaseTotals(s.queue, h);
    QueueTotalNonNegative(Pending(s.queue, h));
    SupplyBound(s);
    forall a | a in r.accounts
      ensures r.accounts[a].balance < TWO64
    {
      AccountBound(r, a);
    }
    var matured := ws.RemoveMaturedUnbonding(h);
    CreditMatured(p, ws, matured);
  }

  // ---------- The whole block ----------

  /** Validates and executes the transactions; stops at the first refused one. */
  method ApplyTransactions(p: Params, ws: WorldState, txs: seq<Tx>, h: Uint64, t: Int64) returns (ok: bool)
    requires Sound(p, ws.View()) && GoodParams(p) && PostIdsDistinct(p)
    requires NonceRoom(ws.View(), |txs|) && |txs| < TWO64
    modifies ws
    ensures ok <==> ApplyTxs(p, old(ws.View()), txs, h, t).Some?
    ensures ok ==> ApplyTxs(p, old(ws.View()), txs, h, t) == Some(ws.View()) && Sound(p, ws.View())
  {
    ghost var s := ws.View();
    TxsUnfold(p, s, txs[..0], h, t);
    for i := 0 to |txs|
      invariant ApplyTxs(p, s, txs[..i], h, t) == Some(ws.View())
    {
      assert txs[..i + 1] == txs[..i] + [txs[i]];
      TxsNext(p, s, txs[..i], txs[i], h, t);
      TxsSound(p, s, txs, i, h, t);
      if !ValidTx(p, ws.Read(), txs[i]) {
        PrefixFails(p, s, txs, i + 1, h, t);
        return false;
      }
      ApplyTransaction(p, ws, txs[i], h, t);
    }
    assert txs[..|txs|] == txs;
    TxsSound(p, s, txs, |txs|, h, t);
    return true;
  }

  lemma TxsSound(p: Params, s: State, txs: seq<Tx>, i: nat, h: Uint64, t: Int64)
    requires Sound(p, s) && GoodParams(p) && PostIdsDistinct(p) && i <= |txs|
    requires NonceRoom(s, |txs|) && |txs| < TWO64 && ApplyTxs(p, s, txs[..i], h, t).Some?
    ensures var m := ApplyTxs(p, s, txs[..i], h, t).value; Sound(p, m) && NonceRoom(m, |txs| - i)
  {
    TxsStep(p, s, txs[..i], h, t, |txs| - i);
  }

  lemma FailsNext(p: Params, s: State, txs: seq<Tx>, tx: Tx, h: Uint64, t: Int64)
    requires ApplyTxs(p, s, txs, h, t).None?
    ensures ApplyTxs(p, s, txs + [tx], h, t).None?
  {
    TxsNext(p, s, txs, tx, h, t);
  }

  lemma {:induction false} PrefixFails(p: Params, s: State, txs: seq<Tx>, n: nat, h: Uint64, t: Int64)
    requires n <= |txs| && ApplyTxs(p, s, txs[..n], h, t).None?
    ensures ApplyTxs(p, s, txs, h, t).None?
    decreases |txs| - n
  {
    if n == |txs| {
      assert txs[..n] == txs;
    } else {
      FailsNext(p, s, txs[..n], txs[n], h, t);
      assert txs[..n] + [txs[n]] == txs[..n + 1];
      PrefixFails(p, s, txs, n + 1, h, t);
    }
  }

  /** What the caller must guarantee: a sound state and room in the supply for one more reward. */
  ghost predicate CanApply(p: Params, s: State, b: Block) {
    && Inv(p, s) && GoodParams(p) && PostIdsDistinct(p)
    && Wealth(s) + p.blockReward < TWO64 && s.issued + p.blockReward < TWO64
    && NonceRoom(s, |b.txs|) && |b.txs| < TWO64
  }

  method FinishBlock(p: Params, ws: WorldState, header: Header)
    requires Inv(p, ws.View()) && Wealth(ws.View()) + p.blockReward < TWO64
    requires ws.issuedSupply + p.blockReward < TWO64
    modifies ws
    ensures ws.View() == EndBlock(p, old(ws.View()), header)
  {
    ghost var s := ws.View();
    if p.blockReward > 0 {
      RewardStep(p, s, header.proposer);
      AccountBound(Reward(p, s, header.proposer), header.proposer);
      CreditAccount(p, ws, header.proposer, p.blockReward);
      ws.issuedSupply := Plus(ws.issuedSupply, p.blockReward);
    }
    if p.epochLength > 0 && header.height > 0 && header.height % p.epochLength == 0 {
      ws.activeValidators := ComputeActiveValidatorSet(ws, p.minStake);
      ws.currentEpoch := header.height / p.epochLength;
    }
    ws.chainHeight := header.height;
  }

  /** Executes a block on a copy. The copy holds exactly what the ledger prescribes; on failure there is none,
      and the input state is untouched either way. */
  method ExecuteBlock(p: Params, ws: WorldState, b: Block) returns (result: WorldState?)
    requires CanApply(p, ws.View(), b)
    ensures result != null <==> ApplyBlock(p, ws.View(), b).Some?
    ensures result != null ==> fresh(result) && ApplyBlock(p, ws.View(), b) == Some(result.View())
    ensures ws.View() == old(ws.View())
  {
    ghost var s := ws.View();
    var clone := new WorldState.Clone(ws);
    BeginBlockStep(p, s, b);
    ReleaseStep(p, s, b.header.height);
    ReleaseUnbonding(p, clone, b.header.height);
    ApplyEvidenceList(p, clone, b.evidence);
    ghost var m := clone.View();
    var ok := ApplyTransactions(p, clone, b.txs, b.header.height, b.header.timestamp);
    if !ok {
      return null;
    }
    TxsStep(p, m, b.txs, b.header.height, b.header.timestamp, 0);
    FinishBlock(p, clone, b.header);
    return clone;
  }
}
