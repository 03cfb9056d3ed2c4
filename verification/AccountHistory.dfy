/** Where every coin of an account came from and went: balance, stake and burn after any run, as sums over its
    blocks. */
module AccountHistory {
  import opened Words
  import opened Types
  import opened Ledger
  import opened Invariant
  import opened Slashing
  import opened Blocks
  import opened Runs
  import opened UnbondingTiming
  import opened Effects

  // ---------- Sums over transactions ----------

  /** What a's transactions took out of its balance. */
  function Spent(txs: seq<Tx>, a: Address): int {
    if txs == [] then 0 else
      Spent(txs[..|txs| - 1], a) + if txs[|txs| - 1].sender == a then Paid(txs[|txs| - 1]) else 0
  }

  /** What a's transactions staked. */
  function StakedIn(txs: seq<Tx>, a: Address): int {
    if txs == [] then 0 else
      StakedIn(txs[..|txs| - 1], a)
      + if txs[|txs| - 1].kind == TX_STAKE && txs[|txs| - 1].sender == a then txs[|txs| - 1].amount else 0
  }

  function BurnedIn(p: Params, txs: seq<Tx>): int {
    if txs == [] then 0 else BurnedIn(p, txs[..|txs| - 1]) + Burns(p, txs[|txs| - 1])
  }

  /** What transactions earned a, each in the state it ran in. */
  ghost function TxsEarned(p: Params, s: State, txs: seq<Tx>, h: Uint64, t: Int64, a: Address): int {
    if txs == [] then 0 else
      var init := txs[..|txs| - 1];
      TxsEarned(p, s, init, h, t, a)
      + match ApplyTxs(p, s, init, h, t)
        case None => 0
        case Some(m) => Earned(p, m, txs[|txs| - 1], a)
  }

  lemma SumsNext(p: Params, txs: seq<Tx>, more: seq<Tx>, a: Address)
    ensures Spent(txs + more, a) == Spent(txs, a) + Spent(more, a)
    ensures StakedIn(txs + more, a) == StakedIn(txs, a) + StakedIn(more, a)
    ensures UnstakedIn(txs + more, a) == UnstakedIn(txs, a) + UnstakedIn(more, a)
    ensures BurnedIn(p, txs + more) == BurnedIn(p, txs) + BurnedIn(p, more)
  {
    if more == [] {
      assert txs + more == txs;
    } else {
      SumsNext(p, txs, more[..|more| - 1], a);
      assert (txs + more)[..|txs + more| - 1] == txs + more[..|more| - 1];
    }
  }

  lemma {:induction false} TxsBalance(p: Params, s: State, txs: seq<Tx>, h: Uint64, t: Int64, a: Address)
    requires Inv(p, s) && NonceRoom(s, |txs|) && |txs| < TWO64 && GoodParams(p) && PostIdsDistinct(p)
    requires ApplyTxs(p, s, txs, h, t).Some?
    ensures BalanceOf(ApplyTxs(p, s, txs, h, t).value, a)
            == BalanceOf(s, a) - Spent(txs, a) + TxsEarned(p, s, txs, h, t, a)
  {
    if txs == [] {
      TxsUnfold(p, s, txs, h, t);
    } else {
      var init, last := txs[..|txs| - 1], txs[|txs| - 1];
      LastTx(p, s, txs, h, t);
      TxsBalance(p, s, init, h, t, a);
      TxsStep(p, s, init, h, t, 1);
      TxBalance(p, ApplyTxs(p, s, init, h, t).value, last, h, t, a);
    }
  }

  lemma {:induction false} TxsBond(p: Params, s: State, txs: seq<Tx>, h: Uint64, t: Int64, a: Address)
    requires ApplyTxs(p, s, txs, h, t).Some?
    ensures BondOf(ApplyTxs(p, s, txs, h, t).value, a) == BondOf(s, a) + StakedIn(txs, a) - UnstakedIn(txs, a)
  {
    if txs == [] {
      TxsUnfold(p, s, txs, h, t);
    } else {
      var init, last := txs[..|txs| - 1], txs[|txs| - 1];
      LastTx(p, s, txs, h, t);
      TxsBond(p, s, init, h, t, a);
      TxBond(p, ApplyTxs(p, s, init, h, t).value, last, h, t, a);
    }
  }

  lemma {:induction false} TxsBurned(p: Params, s: State, txs: seq<Tx>, h: Uint64, t: Int64)
    requires GoodParams(p) && ApplyTxs(p, s, txs, h, t).Some?
    ensures ApplyTxs(p, s, txs, h, t).value.burned == s.burned + BurnedIn(p, txs)
  {
    if txs == [] {
      TxsUnfold(p, s, txs, h, t);
    } else {
      var init, last := txs[..|txs| - 1], txs[|txs| - 1];
      LastTx(p, s, txs, h, t);
      TxsBurned(p, s, init, h, t);
      TxBurn(p, ApplyTxs(p, s, init, h, t).value, last, h, t);
    }
  }

  // ---------- Slashes ----------

  /** a's vote at height h, properly signed. */
  predicate SignedVote(p: Params, v: Vote, a: Address, h: Uint64) {
    v.voter == a && v.height == h && |v.signature| > 0 && p.addressOf(v.pubKey) == a && p.voteSigned(v)
  }

  /** Proof that a signed two different blocks at height h. */
  predicate DoubleSigned(p: Params, ev: Evidence, a: Address, h: Uint64) {
    SignedVote(p, ev.voteA, a, h) && SignedVote(p, ev.voteB, a, h) && ev.voteA.blockHash != ev.voteB.blockHash
  }

  /** What a has staked or still unbonding. */
  function Risked(s: State, a: Address): int { BondOf(s, a) + QueueFor(s.queue, a) }

  /** A piece of evidence costs a something: it proves a double signature that is not on record, and a has something at
      risk. */
  predicate Convicts(p: Params, s: State, ev: Evidence, a: Address) {
    && DoubleSigned(p, ev, a, ev.voteA.height) && SlashKey(a, ev.voteA.height) !in s.slashed
    && a in s.accounts && Risked(s, a) != 0
  }

  /** The slash: the configured percentage of what is at risk, rounded down, and at least one coin. */
  function Penalty(p: Params, s: State, a: Address): int {
    var x := Risked(s, a) * p.slashPercent / 100;
    if x < 1 then 1 else x
  }

  /** What a piece of evidence burns. */
  function Fined(p: Params, s: State, ev: Evidence): int {
    if Convicts(p, s, ev, ev.voteA.voter) then Penalty(p, s, ev.voteA.voter) else 0
  }

  /** The part of it that comes out of the stake of a: all of it, as far as the stake goes. */
  function BondCut(p: Params, s: State, ev: Evidence, a: Address): int {
    if Convicts(p, s, ev, a) then Min(Penalty(p, s, a), BondOf(s, a)) else 0
  }

  lemma ConvictsExactly(p: Params, s: State, ev: Evidence, a: Address)
    ensures Convicts(p, s, ev, a) <==> ev.voteA.voter == a && Slashable(p, s, ev)
  {}

  /** Evidence puts an offence on record, and burns the penalty, exactly when it convicts. */
  lemma EvidenceEffect(p: Params, s: State, ev: Evidence, a: Address)
    requires NonNegative(s) && GoodParams(p)
    ensures var t := ApplyEvidence(p, s, ev);
            && BalanceOf(t, a) == BalanceOf(s, a)
            && BondOf(t, a) == BondOf(s, a) - BondCut(p, s, ev, a)
            && t.burned == s.burned + Fined(p, s, ev)
            && t.slashed == s.slashed + if Convicts(p, s, ev, ev.voteA.voter)
                                        then {SlashKey(ev.voteA.voter, ev.voteA.height)} else {}
  {
    ConvictsExactly(p, s, ev, ev.voteA.voter);
    ConvictsExactly(p, s, ev, a);
    if Slashable(p, s, ev) {
      QueueForBounds(s.queue, ev.voteA.voter);
      SlashFits(p, AtRisk(s, ev.voteA.voter));
    }
  }

  ghost function BondCuts(p: Params, s: State, evs: seq<Evidence>, a: Address): int {
    if evs == [] then 0 else
      var init := evs[..|evs| - 1];
      BondCuts(p, s, init, a) + BondCut(p, ApplyEvidences(p, s, init), evs[|evs| - 1], a)
  }

  ghost function Fines(p: Params, s: State, evs: seq<Evidence>): int {
    if evs == [] then 0 else
      var init := evs[..|evs| - 1];
      Fines(p, s, init) + Fined(p, ApplyEvidences(p, s, init), evs[|evs| - 1])
  }

  lemma {:induction false} EvidencesEffect(p: Params, s: State, evs: seq<Evidence>, a: Address)
    requires Inv(p, s) && GoodParams(p)
    ensures var t := ApplyEvidences(p, s, evs);
            && BalanceOf(t, a) == BalanceOf(s, a)
            && BondOf(t, a) == BondOf(s, a) - BondCuts(p, s, evs, a)
            && t.burned == s.burned + Fines(p, s, evs)
  {
    if evs != [] {
      var init := evs[..|evs| - 1];
      EvidencesEffect(p, s, init, a);
      EvidencesStep(p, s, init);
      EvidenceEffect(p, ApplyEvidences(p, s, init), evs[|evs| - 1], a);
    }
  }

  // ---------- Blocks ----------

  lemma {:induction false} CreditsKeepBonds(accounts: map<Address, Account>, q: seq<Unbonding>, a: Address)
    ensures var after := CreditEntries(accounts, q);
            && accounts.Keys <= after.Keys
            && (a in accounts ==> after[a].staked == accounts[a].staked)
            && (a in after && a !in accounts ==> after[a].staked == 0)
  {
    if q != [] {
      CreditsKeepBonds(accounts, q[..|q| - 1], a);
    }
  }

  lemma ReleaseEffect(s: State, h: Uint64, a: Address)
    ensures BalanceOf(Release(s, h), a) == BalanceOf(s, a) + PaidOut(s, h, a)
    ensures BondOf(Release(s, h), a) == BondOf(s, a)
  {
    PaidIntoBalance(s, h, a);
    CreditsKeepBonds(s.accounts, Matured(s.queue, h), a);
  }

  /** What the slashes of a block take from the stake of a. */
  ghost function BlockBondCut(p: Params, s: State, b: Block, a: Address): int {
    BondCuts(p, Release(s, b.header.height), b.evidence, a)
  }

  ghost function BlockFines(p: Params, s: State, b: Block): int {
    Fines(p, Release(s, b.header.height), b.evidence)
  }

  /** What the transactions of a block earn a. */
  ghost function BlockEarned(p: Params, s: State, b: Block, a: Address): int {
    TxsEarned(p, BeginBlock(p, s, b), b.txs, b.header.height, b.header.timestamp, a)
  }

  lemma BeginEffect(p: Params, s: State, b: Block, a: Address)
    requires Inv(p, s) && GoodParams(p)
    ensures var m := BeginBlock(p, s, b);
            && BalanceOf(m, a) == BalanceOf(s, a) + PaidOut(s, b.header.height, a)
            && BondOf(m, a) == BondOf(s, a) - BlockBondCut(p, s, b, a)
            && m.burned == s.burned + BlockFines(p, s, b)
  {
    ReleaseStep(p, s, b.header.height);
    ReleaseEffect(s, b.header.height, a);
    EvidencesEffect(p, Release(s, b.header.height), b.evidence, a);
  }

  /** The state after the transactions of a block that applies. */
  ghost function AfterTxs(p: Params, s: State, b: Block): State
    requires ApplyBlock(p, s, b).Some?
  {
    ApplyTxs(p, BeginBlock(p, s, b), b.txs, b.header.height, b.header.timestamp).value
  }

  /** From the last transaction to the end of a block, the proposer receives the reward, which is issued, and nobody
      else's account changes; positions, posts, names, queue and burn stay. */
  lemma ProposerRewarded(p: Params, s: State, b: Block)
    requires ApplyBlock(p, s, b).Some?
    ensures var m, r := AfterTxs(p, s, b), ApplyBlock(p, s, b).value;
            && (forall a :: BalanceOf(r, a) == BalanceOf(m, a) + if a == b.header.proposer then p.blockReward else 0)
            && (forall a :: BondOf(r, a) == BondOf(m, a))
            && (forall a :: a in m.accounts && a != b.header.proposer ==>
                  a in r.accounts && r.accounts[a] == m.accounts[a])
            && (forall a :: a in r.accounts && a != b.header.proposer ==> a in m.accounts)
            && r.issued == m.issued + p.blockReward
            && r.posts == m.posts && r.stakes == m.stakes && r.names == m.names && r.queue == m.queue
            && r.burned == m.burned && r.slashed == m.slashed && r.height == b.header.height
  {}

  /** One block, from outside: what falls due, what a spends, what it earns and, if it proposes, the reward. */
  lemma BlockEffect(p: Params, s: State, b: Block, a: Address)
    requires Inv(p, s) && GoodParams(p) && PostIdsDistinct(p) && NonceRoom(s, |b.txs|) && |b.txs| < TWO64
    requires ApplyBlock(p, s, b).Some?
    ensures var r := ApplyBlock(p, s, b).value;
            && BalanceOf(r, a) == BalanceOf(s, a) + PaidOut(s, b.header.height, a) - Spent(b.txs, a)
                                  + BlockEarned(p, s, b, a) + (if a == b.header.proposer then p.blockReward else 0)
            && BondOf(r, a) == BondOf(s, a) + StakedIn(b.txs, a) - UnstakedIn(b.txs, a) - BlockBondCut(p, s, b, a)
            && r.burned == s.burned + BurnedIn(p, b.txs) + BlockFines(p, s, b)
  {
    var m := BeginBlock(p, s, b);
    BeginEffect(p, s, b, a);
    BeginBlockStep(p, s, b);
    TxsBalance(p, m, b.txs, b.header.height, b.header.timestamp, a);
    TxsBond(p, m, b.txs, b.header.height, b.header.timestamp, a);
    TxsBurned(p, m, b.txs, b.header.height, b.header.timestamp);
    ProposerRewarded(p, s, b);
  }

  // ---------- Runs ----------

  /** One reward for each block that a proposed. */
  function Rewards(p: Params, blocks: seq<Block>, a: Address): int {
    if blocks == [] then 0 else
      Rewards(p, blocks[..|blocks| - 1], a) + if blocks[|blocks| - 1].header.proposer == a then p.blockReward else 0
  }

  /** What unbonding paid a. */
  ghost function RunPaidOut(p: Params, s: State, blocks: seq<Block>, a: Address): int {
    if blocks == [] then 0 else
      var init := blocks[..|blocks| - 1];
      RunPaidOut(p, s, init, a)
      + match Execute(p, s, init)
        case None => 0
        case Some(m) => PaidOut(m, blocks[|blocks| - 1].header.height, a)
  }

  /** What transfers, boosts and closed positions brought a. */
  ghost function RunEarned(p: Params, s: State, blocks: seq<Block>, a: Address): int {
    if blocks == [] then 0 else
      var init := blocks[..|blocks| - 1];
      RunEarned(p, s, init, a)
      + match Execute(p, s, init)
        case None => 0
        case Some(m) => BlockEarned(p, m, blocks[|blocks| - 1], a)
  }

  /** What slashes took from the stake of a. */
  ghost function RunBondCut(p: Params, s: State, blocks: seq<Block>, a: Address): int {
    if blocks == [] then 0 else
      var init := blocks[..|blocks| - 1];
      RunBondCut(p, s, init, a)
      + match Execute(p, s, init)
        case None => 0
        case Some(m) => BlockBondCut(p, m, blocks[|blocks| - 1], a)
  }

  /** What slashes burned. */
  ghost function RunFines(p: Params, s: State, blocks: seq<Block>): int {
    if blocks == [] then 0 else
      var init := blocks[..|blocks| - 1];
      RunFines(p, s, init)
      + match Execute(p, s, init)
        case None => 0
        case Some(m) => BlockFines(p, m, blocks[|blocks| - 1])
  }

  /** The books of account a after a run from s to r. */
  ghost predicate Books(p: Params, s: State, blocks: seq<Block>, r: State, a: Address) {
    var txs := AllTxs(blocks);
    && BalanceOf(r, a) == BalanceOf(s, a) - Spent(txs, a) + RunEarned(p, s, blocks, a) + RunPaidOut(p, s, blocks, a)
                          + Rewards(p, blocks, a)
    && BondOf(r, a) == BondOf(s, a) + StakedIn(txs, a) - UnstakedIn(txs, a) - RunBondCut(p, s, blocks, a)
    && r.burned == s.burned + BurnedIn(p, txs) + RunFines(p, s, blocks)
  }

  lemma BooksNext(p: Params, s: State, blocks: seq<Block>, m: State, r: State, a: Address)
    requires blocks != [] && Books(p, s, blocks[..|blocks| - 1], m, a)
    requires Execute(p, s, blocks[..|blocks| - 1]) == Some(m)
    requires var b := blocks[|blocks| - 1];
             && BalanceOf(r, a) == BalanceOf(m, a) + PaidOut(m, b.header.height, a) - Spent(b.txs, a)
                                   + BlockEarned(p, m, b, a) + (if a == b.header.proposer then p.blockReward else 0)
             && BondOf(r, a) == BondOf(m, a) + StakedIn(b.txs, a) - UnstakedIn(b.txs, a) - BlockBondCut(p, m, b, a)
             && r.burned == m.burned + BurnedIn(p, b.txs) + BlockFines(p, m, b)
    ensures Books(p, s, blocks, r, a)
  {
    var n := |blocks| - 1;
    SumsNext(p, AllTxs(blocks[..n]), blocks[n].txs, a);
  }

  /** After any run, an account's balance is what it had at the start, less what its transactions paid, plus what
      transactions earned it, what unbonding paid out and one reward for each block it proposed; its stake is what it
      had, plus what it staked, less what it unstaked and what slashes took; and the burn is the fees and the fines. */
  lemma {:induction false} BooksBalance(p: Params, s: State, blocks: seq<Block>, a: Address)
    requires Inv(p, s) && GoodParams(p) && PostIdsDistinct(p)
    requires TxCount(blocks) < TWO64 && NonceRoom(s, TxCount(blocks)) && Execute(p, s, blocks).Some?
    ensures Books(p, s, blocks, Execute(p, s, blocks).value, a)
  {
    ExecuteUnfold(p, s, blocks);
    if blocks != [] {
      var n := |blocks| - 1;
      LastBlock(p, s, blocks);
      BooksBalance(p, s, blocks[..n], a);
      ExecuteStep(p, s, blocks[..n], |blocks[n].txs|);
      var m := Execute(p, s, blocks[..n]).value;
      BlockEffect(p, m, blocks[n], a);
      BooksNext(p, s, blocks, m, Execute(p, s, blocks).value, a);
    }
  }
}
