/** A node that has lost its slash record and one that has kept it: when their next blocks agree. */
module Forgetting {
  import opened Words
  import opened Types
  import opened Ledger
  import opened Invariant
  import opened Slashing
  import opened Blocks
  import opened Runs
  import opened History
  import opened Encoding
  import opened StateRoots
  import opened KVStores
  import opened KVLoad
  import opened KVRuns

  /** The state as a restart sees it: without the slash record. */
  function Forget(s: State): State { s.(slashed := {}) }

  function ForgetResult(r: Option<State>): Option<State> {
    if r.Some? then Some(Forget(r.value)) else None
  }

  // ---------- Transactions and the end of a block do not look at the record ----------

  lemma BoostForgets(p: Params, s: State, tx: Tx, h: Uint64)
    ensures ApplyBoost(p, Forget(s), tx, h) == ForgetResult(ApplyBoost(p, s, tx, h))
  {
    if ApplyBoost(p, s, tx, h).Some? {
      BoostedForgets(s, Forget(s), tx, BoostSplit(p, tx.amount), h);
    }
  }

  lemma BoostedForgets(s: State, f: State, tx: Tx, split: Split, h: Uint64)
    requires tx.sender in s.accounts && tx.postId in s.posts && f == Forget(s)
    ensures Boosted(f, tx, split, h) == Forget(Boosted(s, tx, split, h))
  {
    BoostAccountsForget(s, f, tx, split);
    assert BoostedPosts(f, tx, split) == BoostedPosts(s, tx, split);
    assert BoostedStakes(f, tx, split, h) == BoostedStakes(s, tx, split, h);
  }

  lemma BoostAccountsForget(s: State, f: State, tx: Tx, split: Split)
    requires tx.sender in s.accounts && tx.postId in s.posts
    requires f.accounts == s.accounts && f.posts == s.posts && f.stakes == s.stakes
    ensures BoostedAccounts(f, tx, split) == BoostedAccounts(s, tx, split)
  {
    assert BoosterDebited(f, tx, split) == BoosterDebited(s, tx, split);
  }

  lemma UnstakeForgets(s: State, tx: Tx)
    ensures ApplyUnstakePost(Forget(s), tx) == ForgetResult(ApplyUnstakePost(s, tx))
  {
    if ApplyUnstakePost(s, tx).Some? {
      UnstakePartsForget(s, Forget(s), tx);
    }
  }

  lemma UnstakePartsForget(s: State, f: State, tx: Tx)
    requires tx.sender in s.accounts && StakeKey(tx.postId, tx.sender) in s.stakes && tx.postId in s.posts
    requires f == Forget(s)
    ensures Unstaked(f, tx) == Forget(Unstaked(s, tx))
  {
    ForcedForget(s, f, tx);
    assert Left(f, tx) == Left(s, tx);
    assert UnstakedPost(f, tx) == UnstakedPost(s, tx);
  }

  lemma ForcedForget(s: State, f: State, tx: Tx)
    requires tx.postId in s.posts && f.posts == s.posts && f.stakes == s.stakes
    ensures ForcedOut(f, tx) == ForcedOut(s, tx)
  {}

  lemma PlainForgets(p: Params, s: State, tx: Tx, h: Uint64, t: Int64)
    ensures ApplyTransfer(Forget(s), tx) == ForgetResult(ApplyTransfer(s, tx))
    ensures ApplyStake(Forget(s), tx) == ForgetResult(ApplyStake(s, tx))
    ensures ApplyUnstake(p, Forget(s), tx, h) == ForgetResult(ApplyUnstake(p, s, tx, h))
    ensures ApplyRegisterName(Forget(s), tx) == ForgetResult(ApplyRegisterName(s, tx))
    ensures ApplyCreatePost(p, Forget(s), tx, h, t) == ForgetResult(ApplyCreatePost(p, s, tx, h, t))
  {}

  lemma TxForgets(p: Params, s: State, tx: Tx, h: Uint64, t: Int64)
    ensures ApplyTx(p, Forget(s), tx, h, t) == ForgetResult(ApplyTx(p, s, tx, h, t))
  {
    if tx.kind == TX_BOOST_POST {
      BoostForgets(p, s, tx, h);
    } else if tx.kind == TX_UNSTAKE_POST {
      UnstakeForgets(s, tx);
    } else {
      PlainForgets(p, s, tx, h, t);
    }
  }

  lemma {:induction false} TxsForget(p: Params, s: State, txs: seq<Tx>, h: Uint64, t: Int64)
    ensures ApplyTxs(p, Forget(s), txs, h, t) == ForgetResult(ApplyTxs(p, s, txs, h, t))
  {
    TxsUnfold(p, s, txs, h, t);
    TxsUnfold(p, Forget(s), txs, h, t);
    if txs != [] {
      var n := |txs| - 1;
      TxsForget(p, s, txs[..n], h, t);
      var m := ApplyTxs(p, s, txs[..n], h, t);
      if m.Some? {
        TxForgets(p, m.value, txs[n], h, t);
      }
    }
  }

  lemma EndForgets(p: Params, s: State, h: Header)
    ensures EndBlock(p, Forget(s), h) == Forget(EndBlock(p, s, h))
  {
    var paid := Reward(p, s, h.proposer);
    assert Reward(p, Forget(s), h.proposer) == Forget(paid);
    ActiveForgets(paid, p.minStake);
  }

  lemma ActiveForgets(s: State, minStake: int)
    ensures ActiveSet(Forget(s), minStake) == ActiveSet(s, minStake)
  {
    assert Eligible(Forget(s), minStake) == Eligible(s, minStake);
  }

  // ---------- What the transactions of a block burn ----------

  function BurnedBy(p: Params, tx: Tx): int {
    if tx.kind == TX_CREATE_POST then PostFee(p, tx.amount)
    else if tx.kind == TX_BOOST_POST then BoostSplit(p, tx.amount).burn
    else 0
  }

  function TxsBurn(p: Params, txs: seq<Tx>): int {
    if txs == [] then 0 else TxsBurn(p, txs[..|txs| - 1]) + BurnedBy(p, txs[|txs| - 1])
  }

  lemma TxBurns(p: Params, s: State, tx: Tx, h: Uint64, t: Int64)
    requires ApplyTx(p, s, tx, h, t).Some?
    ensures ApplyTx(p, s, tx, h, t).value.burned == s.burned + BurnedBy(p, tx)
  {}

  lemma {:induction false} TxsBurnExactly(p: Params, s: State, txs: seq<Tx>, h: Uint64, t: Int64)
    requires ApplyTxs(p, s, txs, h, t).Some?
    ensures ApplyTxs(p, s, txs, h, t).value.burned == s.burned + TxsBurn(p, txs)
  {
    TxsUnfold(p, s, txs, h, t);
    if txs != [] {
      var n := |txs| - 1;
      LastTx(p, s, txs, h, t);
      TxsBurnExactly(p, s, txs[..n], h, t);
      TxBurns(p, ApplyTxs(p, s, txs[..n], h, t).value, txs[n], h, t);
    }
  }

  /** A block burns what its evidence takes and what its transactions burn. */
  lemma BlockBurns(p: Params, s: State, b: Block)
    requires ApplyBlock(p, s, b).Some?
    ensures ApplyBlock(p, s, b).value.burned == BeginBlock(p, s, b).burned + TxsBurn(p, b.txs)
  {
    TxsBurnExactly(p, BeginBlock(p, s, b), b.txs, b.header.height, b.header.timestamp);
  }

  // ---------- Evidence that has been punished already ----------

  function OffenceOf(ev: Evidence): SlashKey { SlashKey(ev.voteA.voter, ev.voteA.height) }

  /** Every valid piece of evidence is on record. */
  ghost predicate AllOld(p: Params, record: set<SlashKey>, evs: seq<Evidence>) {
    forall i :: 0 <= i < |evs| && ValidEvidence(p, evs[i]) ==> OffenceOf(evs[i]) in record
  }

  /** None of the offenders has anything left to slash. */
  ghost predicate NothingAtRisk(p: Params, m: State, evs: seq<Evidence>) {
    forall i {:trigger HasAtRisk(p, m, evs[i])} :: 0 <= i < |evs| ==> !HasAtRisk(p, m, evs[i])
  }

  ghost predicate HasAtRisk(p: Params, m: State, ev: Evidence) {
    ValidEvidence(p, ev) && ev.voteA.voter in m.accounts && AtRisk(m, ev.voteA.voter) != 0
  }

  /** A node that has the record ignores old evidence. */
  lemma {:induction false} OldIsIgnored(p: Params, m: State, evs: seq<Evidence>)
    requires AllOld(p, m.slashed, evs)
    ensures ApplyEvidences(p, m, evs) == m
  {
    if evs != [] {
      OldIsIgnored(p, m, evs[..|evs| - 1]);
    }
  }

  lemma ForgetKeepsInv(p: Params, s: State)
    requires Inv(p, s)
    ensures Inv(p, Forget(s))
  {
    GrowsKeepsInv(p, s, Forget(s));
  }

  /** A node without the record slashes again, unless nothing is at risk any more. */
  lemma {:induction false} OldIsPunishedAgain(p: Params, m: State, evs: seq<Evidence>)
    requires Inv(p, m) && GoodParams(p)
    ensures var r := ApplyEvidences(p, Forget(m), evs);
            && r.burned >= m.burned
            && (NothingAtRisk(p, m, evs) ==> r == Forget(m))
            && (!NothingAtRisk(p, m, evs) ==> r.burned > m.burned)
  {
    if evs != [] {
      var init, last := evs[..|evs| - 1], evs[|evs| - 1];
      OldIsPunishedAgain(p, m, init);
      ForgetKeepsInv(p, m);
      EvidencesStep(p, Forget(m), init);
      var r := ApplyEvidences(p, Forget(m), init);
      EvidenceBurns(p, r, last);
      assert NothingAtRisk(p, m, evs) <==> NothingAtRisk(p, m, init) && !HasAtRisk(p, m, last) by {
        RiskSplits(p, m, evs);
      }
    }
  }

  lemma RiskSplits(p: Params, m: State, evs: seq<Evidence>)
    requires evs != []
    ensures NothingAtRisk(p, m, evs)
            <==> NothingAtRisk(p, m, evs[..|evs| - 1]) && !HasAtRisk(p, m, evs[|evs| - 1])
  {
    var init := evs[..|evs| - 1];
    assert forall i :: 0 <= i < |init| ==> init[i] == evs[i];
  }

  lemma EvidenceBurns(p: Params, s: State, ev: Evidence)
    requires Inv(p, s) && GoodParams(p)
    ensures var r := ApplyEvidence(p, s, ev);
            r.burned == s.burned + if Slashable(p, s, ev) then SlashAmount(p, AtRisk(s, ev.voteA.voter)) else 0
    ensures Slashable(p, s, ev) ==> ApplyEvidence(p, s, ev).burned > s.burned
  {
    if Slashable(p, s, ev) {
      SlashIsExact(p, s, ev, ev.voteA.voter);
    }
  }

  // ---------- One block on both nodes ----------

  /** What a node without the record burns in this block beyond what one with the record burns. */
  ghost function BurnedAgain(p: Params, s: State, b: Block): int {
    var m := Release(s, b.header.height);
    ApplyEvidences(p, Forget(m), b.evidence).burned - m.burned
  }

  /** A block whose evidence is all on record, applied by a node that has the record and by one that has lost it. If
      nothing of the offenders is at risk when the evidence is looked at, after the releases of the block, the outcomes
      are the same up to the record. Otherwise the second node burns more: for a single piece of evidence exactly the
      slash of what is then at risk. */
  lemma ForgottenBlock(p: Params, s: State, b: Block)
    requires Inv(p, s) && GoodParams(p) && AllOld(p, s.slashed, b.evidence) && ApplyBlock(p, s, b).Some?
    ensures var m := Release(s, b.header.height);
            var again := ApplyBlock(p, Forget(s), b);
            && BurnedAgain(p, s, b) >= 0
            && (BurnedAgain(p, s, b) == 0 <==> NothingAtRisk(p, m, b.evidence))
            && (NothingAtRisk(p, m, b.evidence) ==> again == ForgetResult(ApplyBlock(p, s, b)))
            && (again.Some? ==> again.value.burned == ApplyBlock(p, s, b).value.burned + BurnedAgain(p, s, b))
    ensures forall ev :: b.evidence == [ev] ==>
      var m := Release(s, b.header.height);
      BurnedAgain(p, s, b) == if HasAtRisk(p, m, ev) then SlashAmount(p, AtRisk(m, ev.voteA.voter)) else 0
  {
    var h, t := b.header.height, b.header.timestamp;
    var m := Release(s, h);
    ReleaseStep(p, s, h);
    assert Release(Forget(s), h) == Forget(m);
    OldIsIgnored(p, m, b.evidence);
    OldIsPunishedAgain(p, m, b.evidence);
    if NothingAtRisk(p, m, b.evidence) {
      SameOutcome(p, s, b);
    }
    BlockBurns(p, s, b);
    if ApplyBlock(p, Forget(s), b).Some? {
      BlockBurns(p, Forget(s), b);
    }
    forall ev | b.evidence == [ev]
      ensures BurnedAgain(p, s, b) == if HasAtRisk(p, m, ev) then SlashAmount(p, AtRisk(m, ev.voteA.voter)) else 0
    {
      OneBurnedAgain(p, m, ev);
    }
  }

  lemma OneBurnedAgain(p: Params, m: State, ev: Evidence)
    requires Inv(p, m) && GoodParams(p)
    ensures ApplyEvidences(p, Forget(m), [ev]).burned
            == m.burned + if HasAtRisk(p, m, ev) then SlashAmount(p, AtRisk(m, ev.voteA.voter)) else 0
  {
    assert [ev][..0] == [];
    ForgetKeepsInv(p, m);
    EvidenceBurns(p, Forget(m), ev);
  }

  lemma SameOutcome(p: Params, s: State, b: Block)
    requires var m := Release(s, b.header.height);
             ApplyEvidences(p, m, b.evidence) == m && ApplyEvidences(p, Forget(m), b.evidence) == Forget(m)
    ensures ApplyBlock(p, Forget(s), b) == ForgetResult(ApplyBlock(p, s, b))
  {
    var h, t := b.header.height, b.header.timestamp;
    var m := Release(s, h);
    assert BeginBlock(p, s, b) == m && BeginBlock(p, Forget(s), b) == Forget(m);
    TxsForget(p, m, b.txs, h, t);
    var r := ApplyTxs(p, m, b.txs, h, t);
    if r.Some? {
      EndForgets(p, r.value, b.header);
    }
  }

  // ---------- State roots ----------

  /** The node that lost its record accepts the block and ends with the same state root as the one that has it. */
  ghost predicate Follows(p: Params, t: State, s: State, b: Block)
    requires ApplyBlock(p, s, b).Some?
  {
    ApplyBlock(p, t, b).Some?
    && Stream(RootFields(ApplyBlock(p, t, b).value)) == Stream(RootFields(ApplyBlock(p, s, b).value))
  }

  /** The two nodes stay together on a block of old evidence if and only if nothing of the offenders is at risk when
      the block looks at the evidence; otherwise the second node refuses the block or ends with another state root. */
  lemma ForgottenRoot(p: Params, s: State, b: Block)
    requires Inv(p, s) && GoodParams(p) && PostIdsDistinct(p) && NonceRoom(s, |b.txs|) && |b.txs| < TWO64
    requires AllOld(p, s.slashed, b.evidence) && ApplyBlock(p, s, b).Some?
    requires Representable(ApplyBlock(p, s, b).value)
    requires ApplyBlock(p, Forget(s), b).Some? ==> Representable(ApplyBlock(p, Forget(s), b).value)
    ensures Follows(p, Forget(s), s, b) <==> NothingAtRisk(p, Release(s, b.header.height), b.evidence)
  {
    ForgottenBlock(p, s, b);
    var again := ApplyBlock(p, Forget(s), b);
    if NothingAtRisk(p, Release(s, b.header.height), b.evidence) {
      SlashesNotPrinted(ApplyBlock(p, s, b).value, again.value);
    } else if again.Some? {
      BlockStep(p, s, b, 0);
      ForgetKeepsInv(p, s);
      BlockStep(p, Forget(s), b, 0);
      RootDetermines(p, again.value, ApplyBlock(p, s, b).value);
    }
  }

  // ---------- After a saved run ----------

  /** Restarted at the end of a run that was saved block by block, a node that got everything else back follows a block
      with evidence of offences that the run has punished if and only if nothing of the offenders is at risk. */
  lemma RestartForgetsSlashes(p: Params, blocks: seq<Block>, states: seq<State>, dbs: seq<Database>, t: State, b: Block)
    requires RunStates(p, blocks, states) && SavedRun(states, dbs) && LoadedFrom(dbs[|blocks|], t)
    requires NothingClosed(states) && Storable(states[|blocks|])
    requires Representable(states[|blocks|]) && Representable(t)
    requires Inv(p, states[|blocks|]) && GoodParams(p) && PostIdsDistinct(p)
    requires NonceRoom(states[|blocks|], |b.txs|) && |b.txs| < TWO64
    requires forall i :: 0 <= i < |b.evidence| && ValidEvidence(p, b.evidence[i]) ==>
      OffenceOf(b.evidence[i]) in RunPunished(p, states[0], blocks)
    requires ApplyBlock(p, states[|blocks|], b).Some? && Representable(ApplyBlock(p, states[|blocks|], b).value)
    requires ApplyBlock(p, t, b).Some? ==> Representable(ApplyBlock(p, t, b).value)
    ensures Follows(p, t, states[|blocks|], b)
            <==> NothingAtRisk(p, Release(states[|blocks|], b.header.height), b.evidence)
  {
    RestartExact(p, blocks, states, dbs, t);
    PunishedIsOld(p, blocks, states, b.evidence);
    ForgottenRoot(p, states[|blocks|], b);
  }

  /** Evidence of offences that the run has punished is on record at its end. */
  lemma PunishedIsOld(p: Params, blocks: seq<Block>, states: seq<State>, evs: seq<Evidence>)
    requires RunStates(p, blocks, states)
    requires forall i :: 0 <= i < |evs| && ValidEvidence(p, evs[i]) ==>
      OffenceOf(evs[i]) in RunPunished(p, states[0], blocks)
    ensures AllOld(p, states[|blocks|].slashed, evs)
  {
    RunStatesExecute(p, blocks, states, |blocks|);
    assert blocks[..|blocks|] == blocks;
    SlashedOnce(p, states[0], blocks);
  }
}
