/** Whole blocks: releases, slashes, transactions, the reward and the epoch change. */
module Blocks {
  import opened Words
  import opened Types
  import opened Sums
  import opened Ledger
  import opened Invariant
  import opened Fees
  import opened Steps
  import opened PostSteps
  import opened Slashing

  // ---------- Transactions ----------

  /** A validated transaction always applies, in any state: the executor's own checks are only a safety net. */
  lemma ValidTxApplies(p: Params, s: State, tx: Tx, h: Uint64, t: Int64)
    requires ValidTx(p, ReaderOf(s), tx)
    ensures ApplyTx(p, s, tx, h, t).Some?
  {}

  lemma ValidSpender(p: Params, s: State, tx: Tx)
    requires ValidTx(p, ReaderOf(s), tx)
    ensures tx.sender in s.accounts && tx.nonce == Wrap(s.accounts[tx.sender].nonce + 1)
    ensures tx.kind in {TX_TRANSFER, TX_CREATE_POST, TX_BOOST_POST, TX_STAKE} ==> CanSpend(s, tx.sender, tx.amount)
  {}

  lemma FreeName(s: State, n: Bytes)
    requires NamesAgree(s) && n !in ReaderOf(s).names
    ensures n !in s.names
  {
    assert n in s.names ==> NameResolves(s.accounts, s.names, n);
  }

  /** Every transaction kind keeps the invariant and accounts for all it moves, up to boost dust. */
  lemma TxStep(p: Params, s: State, tx: Tx, h: Uint64, t: Int64)
    requires Inv(p, s) && NonceRoom(s, 1) && GoodParams(p) && PostIdsDistinct(p)
    requires ValidTx(p, ReaderOf(s), tx)
    ensures ApplyTx(p, s, tx, h, t).Some?
    ensures Inv(p, ApplyTx(p, s, tx, h, t).value)
    ensures Wealth(ApplyTx(p, s, tx, h, t).value) + TxDust(p, s, tx) == Wealth(s)
    ensures ApplyTx(p, s, tx, h, t).value.issued == s.issued
  {
    ValidTxApplies(p, s, tx, h, t);
    ValidSpender(p, s, tx);
    if tx.kind == TX_BOOST_POST {
      BoostSplitFits(p, tx.amount);
      BoostKeepsInv(p, s, tx, BoostSplit(p, tx.amount), h);
      BoostWealth(p, s, tx, BoostSplit(p, tx.amount), h);
    } else {
      PlainTxStep(p, s, tx, h, t);
    }
  }

  lemma PlainTxStep(p: Params, s: State, tx: Tx, h: Uint64, t: Int64)
    requires Inv(p, s) && NonceRoom(s, 1) && GoodParams(p) && PostIdsDistinct(p)
    requires ValidTx(p, ReaderOf(s), tx) && ApplyTx(p, s, tx, h, t).Some? && tx.kind != TX_BOOST_POST
    requires tx.kind in {TX_TRANSFER, TX_CREATE_POST, TX_STAKE} ==> CanSpend(s, tx.sender, tx.amount)
    ensures Inv(p, ApplyTx(p, s, tx, h, t).value)
    ensures Wealth(ApplyTx(p, s, tx, h, t).value) == Wealth(s)
  {
    if tx.kind == TX_TRANSFER {
      TransferKeepsInv(p, s, tx);
      TransferWealth(s, tx);
    } else if tx.kind == TX_CREATE_POST {
      PostFeeFits(p, tx.amount);
      CreatePostKeepsInv(p, s, tx, PostFee(p, tx.amount), h, t);
      CreatePostWealth(p, s, tx, PostFee(p, tx.amount), h, t);
    } else if tx.kind == TX_UNSTAKE_POST {
      UnstakePostKeepsInv(p, s, tx);
    } else if tx.kind == TX_REGISTER_NAME {
      FreeName(s, tx.text);
      RegisterNameKeepsInv(p, s, tx);
      RegisterNameWealth(s, tx);
    } else if tx.kind == TX_STAKE {
      StakeKeepsInv(p, s, tx);
      StakeWealth(s, tx);
    } else {
      UnstakeKeepsInv(p, s, tx, h);
      UnstakeWealth(p, s, tx, h);
    }
  }

  /** How accounts and nonces move in one transaction: the sender's nonce advances, no other does. */
  ghost predicate NonceStep(before: map<Address, Account>, after: map<Address, Account>, a: Address) {
    && before.Keys <= after.Keys && a in before
    && (forall b :: b in before ==>
          after[b].nonce == if b == a then Wrap(before[b].nonce + 1) else before[b].nonce)
    && forall b :: b in after && b !in before ==> after[b].nonce == 0
  }

  lemma TxNonces(p: Params, s: State, tx: Tx, h: Uint64, t: Int64)
    requires ValidTx(p, ReaderOf(s), tx) && ApplyTx(p, s, tx, h, t).Some?
    ensures NonceStep(s.accounts, ApplyTx(p, s, tx, h, t).value.accounts, tx.sender)
  {
    ValidSpender(p, s, tx);
    if tx.kind == TX_BOOST_POST {
      BoostNonces(s, tx, BoostSplit(p, tx.amount));
    } else if tx.kind == TX_UNSTAKE_POST {
      UnstakePostNonces(s, tx);
    }
  }

  lemma BoostNonces(s: State, tx: Tx, split: Split)
    requires tx.sender in s.accounts && tx.postId in s.posts
    ensures NonceStep(s.accounts, BoostedAccounts(s, tx, split), tx.sender)
  {
    RewardedNonces(BoosterDebited(s, tx, split), s.posts[tx.postId].author, split.author,
                   Stakers(s.stakes, tx.postId), split.stakers, s.posts[tx.postId].totalStaked);
  }

  lemma RewardedNonces(accounts: map<Address, Account>, author: Address, authorReward: int,
                       stakers: map<Address, Position>, reward: int, total: int)
    ensures var after := Rewarded(accounts, author, authorReward, stakers, reward, total);
            after.Keys == accounts.Keys && forall a :: a in accounts ==> after[a].nonce == accounts[a].nonce
  {}

  lemma UnstakePostNonces(s: State, tx: Tx)
    requires ApplyUnstakePost(s, tx).Some?
    ensures NonceStep(s.accounts, ApplyUnstakePost(s, tx).value.accounts, tx.sender)
  {}

  lemma RoomAfterTx(s: State, t: State, a: Address, k: nat)
    requires NonceStep(s.accounts, t.accounts, a) && NonceRoom(s, k + 1) && NonNegative(s)
    requires k < TWO64
    ensures NonceRoom(t, k)
  {}

  /** The dust of the transactions of a block, each taken in the state it runs in. */
  ghost function TxsDust(p: Params, s: State, txs: seq<Tx>, h: Uint64, t: Int64): int {
    if txs == [] then 0 else
      match ApplyTxs(p, s, txs[..|txs| - 1], h, t)
      case None => 0
      case Some(m) => TxsDust(p, s, txs[..|txs| - 1], h, t) + TxDust(p, m, txs[|txs| - 1])
  }

  lemma {:induction false} TxsStep(p: Params, s: State, txs: seq<Tx>, h: Uint64, t: Int64, k: nat)
    requires Inv(p, s) && NonceRoom(s, k + |txs|) && k + |txs| < TWO64 && GoodParams(p) && PostIdsDistinct(p)
    requires ApplyTxs(p, s, txs, h, t).Some?
    ensures var r := ApplyTxs(p, s, txs, h, t).value;
            && Inv(p, r) && NonceRoom(r, k) && r.issued == s.issued
            && Wealth(r) + TxsDust(p, s, txs, h, t) == Wealth(s)
            && TxsDust(p, s, txs, h, t) >= 0
  {
    TxsUnfold(p, s, txs, h, t);
    if txs != [] {
      var prefix := txs[..|txs| - 1];
      TxsStep(p, s, prefix, h, t, k + 1);
      var m := ApplyTxs(p, s, prefix, h, t).value;
      var tx := txs[|txs| - 1];
      assert NonceRoom(m, 1);
      TxStep(p, m, tx, h, t);
      TxNonces(p, m, tx, h, t);
      RoomAfterTx(m, ApplyTx(p, m, tx, h, t).value, tx.sender, k);
      DustNonNegative(p, m, tx);
    }
  }

  lemma DustNonNegative(p: Params, s: State, tx: Tx)
    requires Inv(p, s) && ValidTx(p, ReaderOf(s), tx)
    ensures TxDust(p, s, tx) >= 0
  {
    if tx.kind == TX_BOOST_POST {
      BoostDustBound(p, s, tx);
    }
  }

  // ---------- Unbonding releases ----------

  lemma QueueAppend(q: seq<Unbonding>, e: Unbonding, a: Address)
    ensures QueueTotal(q + [e]) == QueueTotal(q) + e.amount
    ensures QueueFor(q + [e], a) == QueueFor(q, a) + if e.address == a then e.amount else 0
  {
    assert (q + [e])[..|q|] == q;
  }

  lemma {:induction false} ReleaseTotals(q: seq<Unbonding>, h: int)
    ensures QueueTotal(Matured(q, h)) + QueueTotal(Pending(q, h)) == QueueTotal(q)
  {
    if q != [] {
      var n := |q| - 1;
      ReleaseTotals(q[..n], h);
      QueueAppend(Matured(q[..n], h), q[n], q[n].address);
      QueueAppend(Pending(q[..n], h), q[n], q[n].address);
      assert Matured(q[..n], h) + [] == Matured(q[..n], h);
      assert Pending(q[..n], h) + [] == Pending(q[..n], h);
    }
  }

  lemma {:induction false} ReleasePositive(q: seq<Unbonding>, h: int)
    requires Positive(q)
    ensures Positive(Matured(q, h)) && Positive(Pending(q, h))
  {
    if q != [] {
      ReleasePositive(q[..|q| - 1], h);
    }
  }

  /** Crediting a list of entries: nobody loses, and the total grows by exactly the list. */
  lemma {:induction false} CreditEntriesFacts(accounts: map<Address, Account>, q: seq<Unbonding>)
    requires forall a :: a in accounts ==> accounts[a].balance >= 0 && accounts[a].staked >= 0
                                           && accounts[a].postStake >= 0 && 0 <= accounts[a].nonce < TWO64
    requires Positive(q)
    ensures var r := CreditEntries(accounts, q);
            && Grows(accounts, r)
            && SumBy(r, Holdings) == SumBy(accounts, Holdings) + QueueTotal(q)
            && (forall a :: a in r ==> r[a].balance >= 0 && r[a].staked >= 0 && r[a].postStake >= 0)
            && (forall a :: a in r ==> r[a].nonce == if a in accounts then accounts[a].nonce else 0)
            && (forall a :: a in r ==> r[a].staked == if a in accounts then accounts[a].staked else 0)
  {
    if q != [] {
      var prefix := q[..|q| - 1];
      var last := q[|q| - 1];
      CreditEntriesFacts(accounts, prefix);
      CreditFacts(CreditEntries(accounts, prefix), last.address, last.amount);
      GrowsTransitive(accounts, CreditEntries(accounts, prefix), CreditEntries(accounts, q));
    }
  }

  lemma ReleaseStep(p: Params, s: State, h: Uint64)
    requires Inv(p, s)
    ensures var r := Release(s, h); Inv(p, r) && Wealth(r) == Wealth(s) && r.issued == s.issued
    ensures forall k: nat :: k < TWO64 && NonceRoom(s, k) ==> NonceRoom(Release(s, h), k)
  {
    ReleaseTotals(s.queue, h);
    ReleasePositive(s.queue, h);
    CreditEntriesFacts(s.accounts, Matured(s.queue, h));
    GrowsKeepsInv(p, s, Release(s, h));
  }

  // ---------- End of block ----------

  lemma RewardStep(p: Params, s: State, a: Address)
    requires Inv(p, s)
    ensures var r := Reward(p, s, a);
            && Inv(p, r) && Wealth(r) == Wealth(s) + p.blockReward && r.issued == s.issued + p.blockReward
            && forall k: nat :: k < TWO64 && NonceRoom(s, k) ==> NonceRoom(r, k)
  {
    CreditFacts(s.accounts, a, p.blockReward);
    if p.blockReward > 0 {
      GrowsKeepsInv(p, s, Reward(p, s, a));
    }
  }

  lemma EndBlockStep(p: Params, s: State, h: Header)
    requires Inv(p, s)
    ensures var r := EndBlock(p, s, h);
            && Inv(p, r) && Wealth(r) == Wealth(s) + p.blockReward && r.issued == s.issued + p.blockReward
            && forall k: nat :: k < TWO64 && NonceRoom(s, k) ==> NonceRoom(r, k)
  {
    RewardStep(p, s, h.proposer);
    GrowsKeepsInv(p, Reward(p, s, h.proposer), EndBlock(p, s, h));
  }

  ghost function BlockDust(p: Params, s: State, b: Block): int {
    TxsDust(p, BeginBlock(p, s, b), b.txs, b.header.height, b.header.timestamp)
  }

  lemma BeginBlockStep(p: Params, s: State, b: Block)
    requires Inv(p, s) && GoodParams(p)
    ensures var r := BeginBlock(p, s, b); Inv(p, r) && Wealth(r) == Wealth(s) && r.issued == s.issued
    ensures forall k: nat :: k < TWO64 && NonceRoom(s, k) ==> NonceRoom(BeginBlock(p, s, b), k)
  {
    ReleaseStep(p, s, b.header.height);
    EvidencesStep(p, Release(s, b.header.height), b.evidence);
  }

  /** An applied block keeps the invariant, and wealth plus its dust grows by exactly the block reward. */
  lemma BlockStep(p: Params, s: State, b: Block, k: nat)
    requires Inv(p, s) && GoodParams(p) && PostIdsDistinct(p)
    requires NonceRoom(s, k + |b.txs|) && k + |b.txs| < TWO64
    requires ApplyBlock(p, s, b).Some?
    ensures var r := ApplyBlock(p, s, b).value;
            && Inv(p, r) && NonceRoom(r, k)
            && Wealth(r) + BlockDust(p, s, b) == Wealth(s) + p.blockReward
            && r.issued == s.issued + p.blockReward
            && BlockDust(p, s, b) >= 0
  {
    BeginBlockStep(p, s, b);
    var m := BeginBlock(p, s, b);
    TxsStep(p, m, b.txs, b.header.height, b.header.timestamp, k);
    EndBlockStep(p, ApplyTxs(p, m, b.txs, b.header.height, b.header.timestamp).value, b.header);
  }

  // ---------- Blocks that lose nothing ----------

  /** Every boost among the transactions splits evenly in the state it runs in. */
  ghost predicate TxsEven(p: Params, s: State, txs: seq<Tx>, h: Uint64, t: Int64) {
    txs == [] || (
      var init := txs[..|txs| - 1];
      TxsEven(p, s, init, h, t)
      && (ApplyTxs(p, s, init, h, t).Some? ==> EvenSplit(p, ApplyTxs(p, s, init, h, t).value, txs[|txs| - 1])))
  }

  lemma TxDustExact(p: Params, s: State, tx: Tx)
    requires Inv(p, s) && ValidTx(p, ReaderOf(s), tx)
    ensures TxDust(p, s, tx) >= 0 && (TxDust(p, s, tx) == 0 <==> EvenSplit(p, s, tx))
  {
    DustNonNegative(p, s, tx);
    if tx.kind == TX_BOOST_POST {
      BoostDustExact(p, s, tx);
    }
  }

  lemma {:induction false} TxsDustExact(p: Params, s: State, txs: seq<Tx>, h: Uint64, t: Int64)
    requires Inv(p, s) && NonceRoom(s, |txs|) && |txs| < TWO64 && GoodParams(p) && PostIdsDistinct(p)
    requires ApplyTxs(p, s, txs, h, t).Some?
    ensures TxsDust(p, s, txs, h, t) >= 0 && (TxsDust(p, s, txs, h, t) == 0 <==> TxsEven(p, s, txs, h, t))
  {
    TxsUnfold(p, s, txs, h, t);
    if txs != [] {
      var prefix := txs[..|txs| - 1];
      TxsDustExact(p, s, prefix, h, t);
      TxsStep(p, s, prefix, h, t, 1);
      TxDustExact(p, ApplyTxs(p, s, prefix, h, t).value, txs[|txs| - 1]);
    }
  }

  ghost predicate BlockEven(p: Params, s: State, b: Block) {
    TxsEven(p, BeginBlock(p, s, b), b.txs, b.header.height, b.header.timestamp)
  }

  lemma BlockDustExact(p: Params, s: State, b: Block)
    requires Inv(p, s) && GoodParams(p) && PostIdsDistinct(p) && NonceRoom(s, |b.txs|) && |b.txs| < TWO64
    requires ApplyBlock(p, s, b).Some?
    ensures BlockDust(p, s, b) >= 0 && (BlockDust(p, s, b) == 0 <==> BlockEven(p, s, b))
  {
    BeginBlockStep(p, s, b);
    TxsDustExact(p, BeginBlock(p, s, b), b.txs, b.header.height, b.header.timestamp);
  }
}
