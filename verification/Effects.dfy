/** What an executed transaction does, seen from outside: to the balance and the stake of any account, and to the burn.
    Nothing here refers to the executor's own split of fees or to its account updates. */
module Effects {
  import opened Words
  import opened Types
  import opened SafeMath
  import opened Ledger
  import opened Invariant

  function BalanceOf(s: State, a: Address): int {
    if a in s.accounts then s.accounts[a].balance else 0
  }

  function BondOf(s: State, a: Address): int {
    if a in s.accounts then s.accounts[a].staked else 0
  }

  // ---------- Rates ----------

  /** A percentage of an amount, rounded down. */
  function Percent(amount: nat, rate: nat): int { amount * rate / 100 }

  function FeeRate(p: Params): nat { if p.postFeePercent == 0 then 6 else p.postFeePercent }

  /** No boost percentage is configured: the defaults apply. */
  predicate DefaultBoost(p: Params) {
    p.boostBurnPercent == 0 && p.boostAuthorPercent == 0 && p.boostStakerPercent == 0
  }

  function BurnRate(p: Params): nat { if DefaultBoost(p) then 3 else p.boostBurnPercent }
  function AuthorRate(p: Params): nat { if DefaultBoost(p) then 2 else p.boostAuthorPercent }
  function StakerRate(p: Params): nat { if DefaultBoost(p) then 1 else p.boostStakerPercent }

  lemma FeeAtRate(p: Params, amount: Uint64)
    requires GoodParams(p)
    ensures PostFee(p, amount) == Percent(amount, FeeRate(p))
  {
    MulDivFraction(amount, FeeRate(p), 100);
  }

  lemma SplitAtRates(p: Params, amount: Uint64)
    requires GoodParams(p)
    ensures var split := BoostSplit(p, amount);
            && split.burn == Percent(amount, BurnRate(p)) && split.author == Percent(amount, AuthorRate(p))
            && split.stakers == Percent(amount, StakerRate(p))
  {
    MulDivFraction(amount, BurnRate(p), 100);
    MulDivFraction(amount, AuthorRate(p), 100);
    MulDivFraction(amount, StakerRate(p), 100);
  }

  // ---------- Balances ----------

  /** What a transaction takes out of its sender's balance. */
  function Paid(tx: Tx): int {
    if tx.kind == TX_TRANSFER || tx.kind == TX_CREATE_POST || tx.kind == TX_BOOST_POST || tx.kind == TX_STAKE
    then tx.amount else 0
  }

  /** The pro-rata part of the staker reward of a boost that goes to a. */
  function ShareOf(p: Params, s: State, tx: Tx, a: Address): int
    requires tx.postId in s.posts
  {
    var key, total := StakeKey(tx.postId, a), s.posts[tx.postId].totalStaked;
    if key in s.stakes && total > 0 then Percent(tx.amount, StakerRate(p)) * s.stakes[key].amount / total else 0
  }

  /** A transaction closes the position of a on its post: its sender's own, and all of them when the author leaves. */
  predicate Closes(s: State, tx: Tx, a: Address) {
    && tx.kind == TX_UNSTAKE_POST && tx.postId in s.posts && StakeKey(tx.postId, a) in s.stakes
    && (a == tx.sender || tx.sender == s.posts[tx.postId].author)
  }

  /** What a transaction adds to the balance of a. */
  function Earned(p: Params, s: State, tx: Tx, a: Address): int {
    if tx.kind == TX_TRANSFER then if a == tx.recipient then tx.amount else 0
    else if tx.kind == TX_BOOST_POST && tx.postId in s.posts then
      (if a == s.posts[tx.postId].author then Percent(tx.amount, AuthorRate(p)) else 0) + ShareOf(p, s, tx, a)
    else if Closes(s, tx, a) then s.stakes[StakeKey(tx.postId, a)].amount
    else 0
  }

  /** A transaction changes a balance by what its sender pays and what the account earns by it, and by nothing else. */
  lemma TxBalance(p: Params, s: State, tx: Tx, h: Uint64, t: Int64, a: Address)
    requires Inv(p, s) && GoodParams(p) && ValidTx(p, ReaderOf(s), tx) && ApplyTx(p, s, tx, h, t).Some?
    ensures BalanceOf(ApplyTx(p, s, tx, h, t).value, a)
            == BalanceOf(s, a) - (if a == tx.sender then Paid(tx) else 0) + Earned(p, s, tx, a)
  {
    if tx.kind == TX_BOOST_POST {
      SplitAtRates(p, tx.amount);
      BoostBalance(p, s, tx, BoostSplit(p, tx.amount), h, a);
    } else if tx.kind == TX_UNSTAKE_POST {
      UnstakeBalance(p, s, tx, a);
    } else {
      PlainBalance(p, s, tx, h, t, a);
    }
  }

  lemma PlainBalance(p: Params, s: State, tx: Tx, h: Uint64, t: Int64, a: Address)
    requires ApplyTx(p, s, tx, h, t).Some? && tx.kind != TX_BOOST_POST && tx.kind != TX_UNSTAKE_POST
    ensures BalanceOf(ApplyTx(p, s, tx, h, t).value, a)
            == BalanceOf(s, a) - (if a == tx.sender then Paid(tx) else 0) + Earned(p, s, tx, a)
  {}

  lemma BoostBalance(p: Params, s: State, tx: Tx, split: Split, h: Uint64, a: Address)
    requires Inv(p, s) && tx.kind == TX_BOOST_POST && tx.sender in s.accounts && tx.postId in s.posts
    requires split.author == Percent(tx.amount, AuthorRate(p)) && split.stakers == Percent(tx.amount, StakerRate(p))
    ensures BalanceOf(Boosted(s, tx, split, h), a)
            == BalanceOf(s, a) - (if a == tx.sender then tx.amount else 0) + Earned(p, s, tx, a)
  {
    var post := s.posts[tx.postId];
    assert AuthoredPost(p, s, tx.postId);
    assert StakeKey(tx.postId, a) in s.stakes ==> a in s.accounts;
    RewardedBalance(BoosterDebited(s, tx, split), post.author, split.author, Stakers(s.stakes, tx.postId),
                    split.stakers, post.totalStaked, a);
  }

  lemma RewardedBalance(accounts: map<Address, Account>, author: Address, authorReward: nat,
                        stakers: map<Address, Position>, reward: nat, total: int, a: Address)
    requires author in accounts && stakers.Keys <= accounts.Keys
    ensures var after := Rewarded(accounts, author, authorReward, stakers, reward, total);
            && after.Keys == accounts.Keys
            && (a in accounts ==>
                  after[a].balance == accounts[a].balance + (if a == author then authorReward else 0)
                                      + if a in stakers && total > 0 then reward * stakers[a].amount / total else 0)
  {
    if reward == 0 && a in stakers && total > 0 {
      assert reward * stakers[a].amount == 0;
    }
  }

  lemma UnstakeBalance(p: Params, s: State, tx: Tx, a: Address)
    requires Inv(p, s) && tx.kind == TX_UNSTAKE_POST && ApplyUnstakePost(s, tx).Some?
    ensures BalanceOf(ApplyUnstakePost(s, tx).value, a) == BalanceOf(s, a) + Earned(p, s, tx, a)
  {
    assert StakeKey(tx.postId, a) in s.stakes ==> a in s.accounts;
    var others: map<Address, Position> := ForcedOut(s, tx);
    OthersForcedOut(s, tx, a);
    RefundedBalance(Left(s, tx), others, a);
  }

  lemma OthersForcedOut(s: State, tx: Tx, a: Address)
    requires tx.kind == TX_UNSTAKE_POST && tx.postId in s.posts
    ensures a in ForcedOut(s, tx) <==> Closes(s, tx, a) && a != tx.sender
    ensures a in ForcedOut(s, tx) ==> ForcedOut(s, tx)[a] == s.stakes[StakeKey(tx.postId, a)]
  {}

  lemma RefundedBalance(accounts: map<Address, Account>, stakers: map<Address, Position>, a: Address)
    ensures var after := Refund(accounts, stakers);
            && after.Keys == accounts.Keys
            && (a in accounts ==>
                  && after[a].balance == accounts[a].balance + (if a in stakers then stakers[a].amount else 0)
                  && after[a].staked == accounts[a].staked)
  {}

  // ---------- Stakes ----------

  /** What a transaction adds to the stake of its sender. */
  function Bonds(tx: Tx): int {
    (if tx.kind == TX_STAKE then tx.amount else 0) - (if tx.kind == TX_UNSTAKE then tx.amount else 0)
  }

  /** Only staking and unstaking move a stake, the sender's, by exactly the amount. */
  lemma TxBond(p: Params, s: State, tx: Tx, h: Uint64, t: Int64, a: Address)
    requires ApplyTx(p, s, tx, h, t).Some?
    ensures BondOf(ApplyTx(p, s, tx, h, t).value, a) == BondOf(s, a) + if a == tx.sender then Bonds(tx) else 0
  {
    if tx.kind == TX_BOOST_POST {
      BoostBond(s, tx, BoostSplit(p, tx.amount), a);
    } else if tx.kind == TX_UNSTAKE_POST {
      RefundedBalance(Left(s, tx), ForcedOut(s, tx), a);
    } else {
      PlainBond(p, s, tx, h, t, a);
    }
  }

  lemma PlainBond(p: Params, s: State, tx: Tx, h: Uint64, t: Int64, a: Address)
    requires ApplyTx(p, s, tx, h, t).Some? && tx.kind != TX_BOOST_POST && tx.kind != TX_UNSTAKE_POST
    ensures BondOf(ApplyTx(p, s, tx, h, t).value, a) == BondOf(s, a) + if a == tx.sender then Bonds(tx) else 0
  {}

  lemma BoostBond(s: State, tx: Tx, split: Split, a: Address)
    requires tx.sender in s.accounts && tx.postId in s.posts
    ensures var after := BoostedAccounts(s, tx, split);
            after.Keys == s.accounts.Keys && (a in s.accounts ==> after[a].staked == s.accounts[a].staked)
  {
    RewardedBond(BoosterDebited(s, tx, split), s.posts[tx.postId].author, split.author,
                 Stakers(s.stakes, tx.postId), split.stakers, s.posts[tx.postId].totalStaked);
  }

  lemma RewardedBond(accounts: map<Address, Account>, author: Address, authorReward: int,
                     stakers: map<Address, Position>, reward: int, total: int)
    ensures var after := Rewarded(accounts, author, authorReward, stakers, reward, total);
            after.Keys == accounts.Keys && forall a :: a in accounts ==> after[a].staked == accounts[a].staked
  {}

  // ---------- The burn ----------

  /** What a transaction burns. */
  function Burns(p: Params, tx: Tx): int {
    if tx.kind == TX_CREATE_POST then Percent(tx.amount, FeeRate(p))
    else if tx.kind == TX_BOOST_POST then Percent(tx.amount, BurnRate(p))
    else 0
  }

  lemma TxBurn(p: Params, s: State, tx: Tx, h: Uint64, t: Int64)
    requires GoodParams(p) && ApplyTx(p, s, tx, h, t).Some?
    ensures ApplyTx(p, s, tx, h, t).value.burned == s.burned + Burns(p, tx)
  {
    FeeAtRate(p, tx.amount);
    SplitAtRates(p, tx.amount);
  }
}
