/** Boosting and unstaking: the steps where caches, positions and balances all move together. */
module PostSteps {
  import opened Words
  import opened Types
  import opened Sums
  import opened Ledger
  import opened Invariant
  import opened Fees
  import opened Steps

  /** Balances may rise; nothing else changes. */
  ghost predicate OnlyPaid(before: map<Address, Account>, after: map<Address, Account>) {
    && after.Keys == before.Keys
    && forall a :: a in before ==>
         after[a] == before[a].(balance := after[a].balance) && before[a].balance <= after[a].balance
  }

  lemma OnlyPaidTransitive(a: map<Address, Account>, b: map<Address, Account>, c: map<Address, Account>)
    requires OnlyPaid(a, b) && OnlyPaid(b, c)
    ensures OnlyPaid(a, c)
  {}

  lemma SharesNonNegative(stakers: map<Address, Position>, reward: nat, total: int)
    requires total > 0 && forall a :: a in stakers ==> stakers[a].amount >= 0
    ensures forall a :: a in Shares(stakers, reward, total) ==> Shares(stakers, reward, total)[a] >= 0
  {
    forall a | a in stakers
      ensures Shares(stakers, reward, total)[a] >= 0
    {
      OneShare(reward, stakers[a].amount, total);
    }
  }

  // ---------- Boost ----------

  lemma RewardedFacts(accounts: map<Address, Account>, author: Address, authorReward: nat,
                      stakers: map<Address, Position>, reward: nat, total: int)
    requires total > 0 && author in accounts && stakers.Keys <= accounts.Keys
    requires forall a :: a in stakers ==> stakers[a].amount >= 0
    ensures OnlyPaid(accounts, Rewarded(accounts, author, authorReward, stakers, reward, total))
    ensures SumBy(Rewarded(accounts, author, authorReward, stakers, reward, total), Holdings)
            == SumBy(accounts, Holdings) + authorReward + SumBy(Shares(stakers, reward, total), Itself)
  {
    var shares: map<Address, int> := Shares(stakers, reward, total);
    var credited: map<Address, Account> :=
      if authorReward > 0 then Credit(accounts, author, authorReward) else accounts;
    CreditedFacts(accounts, author, authorReward);
    SharesNonNegative(stakers, reward, total);
    PaidFacts(credited, shares);
    OnlyPaidTransitive(accounts, credited, PayAll(credited, shares));
    if reward == 0 {
      NoShares(stakers, total);
    }
  }

  lemma CreditedFacts(accounts: map<Address, Account>, author: Address, x: nat)
    requires author in accounts
    ensures var credited := if x > 0 then Credit(accounts, author, x) else accounts;
            OnlyPaid(accounts, credited) && SumBy(credited, Holdings) == SumBy(accounts, Holdings) + x
  {
    CreditFacts(accounts, author, x);
  }

  lemma NoShares(stakers: map<Address, Position>, total: int)
    requires total > 0
    ensures SumBy(Shares(stakers, 0, total), Itself) == 0
  {
    var shares: map<Address, int> := Shares(stakers, 0, total);
    forall a | a in shares
      ensures shares[a] == 0
    {
      assert 0 * stakers[a].amount == 0;
    }
    SumZero(shares);
  }

  lemma PaidFacts(accounts: map<Address, Account>, credits: map<Address, int>)
    requires credits.Keys <= accounts.Keys && forall a :: a in credits ==> credits[a] >= 0
    ensures OnlyPaid(accounts, PayAll(accounts, credits))
    ensures SumBy(PayAll(accounts, credits), Holdings) == SumBy(accounts, Holdings) + SumBy(credits, Itself)
  {
    PayAllTotal(accounts, credits);
  }

  lemma BoostedAccountsFacts(p: Params, s: State, tx: Tx, split: Split)
    requires Inv(p, s) && tx.sender in s.accounts && tx.postId in s.posts && !s.posts[tx.postId].withdrawn
    ensures OnlyPaid(BoosterDebited(s, tx, split), BoostedAccounts(s, tx, split))
    ensures SumBy(BoostedAccounts(s, tx, split), Holdings) + ShareDust(s, tx.postId, split.stakers)
            == SumBy(BoosterDebited(s, tx, split), Holdings) + split.author + split.stakers
  {
    OpenPostIsStaked(p, s, tx.postId);
    assert AuthoredPost(p, s, tx.postId);
    StakersAreAccounts(s, tx.postId);
    RewardedFacts(BoosterDebited(s, tx, split), s.posts[tx.postId].author, split.author,
                  Stakers(s.stakes, tx.postId), split.stakers, s.posts[tx.postId].totalStaked);
  }

  /** A boost moves its amount into stake, burn, author reward and shares; only dust goes nowhere. */
  lemma BoostWealth(p: Params, s: State, tx: Tx, split: Split, h: Uint64)
    requires Inv(p, s) && CanSpend(s, tx.sender, tx.amount)
    requires tx.postId in s.posts && !s.posts[tx.postId].withdrawn
    ensures Wealth(Boosted(s, tx, split, h)) + ShareDust(s, tx.postId, split.stakers) == Wealth(s)
  {
    BoostedAccountsFacts(p, s, tx, split);
    SumUpdate(s.accounts, tx.sender, BoosterDebited(s, tx, split)[tx.sender], Holdings);
  }

  lemma StakersAreAccounts(s: State, id: PostId)
    requires PositionsRooted(s)
    ensures Stakers(s.stakes, id).Keys <= s.accounts.Keys
  {
    forall a | a in Stakers(s.stakes, id)
      ensures a in s.accounts
    {
      assert StakeKey(id, a).staker in s.accounts;
    }
  }

  lemma {:induction false} SumZero(m: map<Address, int>)
    requires forall a :: a in m ==> m[a] == 0
    ensures SumBy(m, Itself) == 0
    decreases |m|
  {
    if m == map[] {
      SumEmpty(m, Itself);
    } else {
      var a :| a in m;
      SumRemove(m, a, Itself);
      SumZero(m - {a});
    }
  }

  lemma BoostPostsAgree(s: State, r: State, key: StakeKey, staked: nat)
    requires PostsAgree(s) && key.post in s.posts && !s.posts[key.post].withdrawn
    requires key in r.stakes && r.stakes == s.stakes[key := r.stakes[key]]
    requires r.stakes[key].amount == staked + (if key in s.stakes then s.stakes[key].amount else 0)
    requires key.post in r.posts && r.posts == s.posts[key.post := r.posts[key.post]]
    requires var a, b := s.posts[key.post], r.posts[key.post];
             && b.author == a.author && !b.withdrawn && b.totalStaked == a.totalStaked + staked
             && b.stakerCount == if key in s.stakes then a.stakerCount else Wrap(a.stakerCount + 1)
    ensures PostsAgree(r)
  {
    forall q | q in r.posts
      ensures PostAgrees(r.stakes, q, r.posts[q])
    {
      assert PostAgrees(s.stakes, q, s.posts[q]);
      StakersAfterSet(s.stakes, key, r.stakes[key], q);
      if q == key.post {
        BoostedPostAgrees(s.stakes, key, r.stakes[key], s.posts[q], r.posts[q], staked);
      }
    }
  }

  lemma BoostedPostAgrees(stakes: map<StakeKey, Position>, key: StakeKey, x: Position,
                          before: Post, after: Post, staked: nat)
    requires PostAgrees(stakes, key.post, before) && !before.withdrawn
    requires x.amount == staked + (if key in stakes then stakes[key].amount else 0)
    requires after.author == before.author && !after.withdrawn && after.totalStaked == before.totalStaked + staked
    requires after.stakerCount == if key in stakes then before.stakerCount else Wrap(before.stakerCount + 1)
    ensures PostAgrees(stakes[key := x], key.post, after)
  {
    assert StakeKey(key.post, key.staker) == key;
    var on: map<Address, Position> := Stakers(stakes, key.post);
    StakersAfterSet(stakes, key, x, key.post);
    SumUpdate(on, key.staker, x, AmountOf);
    SizeAfterSet(on, key.staker, x);
    WrapShift(|on|, 1);
  }

  lemma SizeAfterSet<K, V>(m: map<K, V>, k: K, v: V)
    ensures |m[k := v]| == |m| + if k in m then 0 else 1
  {
    assert m[k := v].Keys == m.Keys + {k};
  }

  lemma BoostKeepsInv(p: Params, s: State, tx: Tx, split: Split, h: Uint64)
    requires Inv(p, s) && NonceRoom(s, 1) && split.burn + split.author + split.stakers <= tx.amount
    requires CanSpend(s, tx.sender, tx.amount)
    requires tx.postId in s.posts && !s.posts[tx.postId].withdrawn
    ensures Inv(p, Boosted(s, tx, split, h))
  {
    BoostedAccountsFacts(p, s, tx, split);
    BoostedStateKeepsInv(p, s, Boosted(s, tx, split, h), BoosterDebited(s, tx, split),
                         StakeKey(tx.postId, tx.sender), BoostStake(tx.amount, split), split.burn);
  }

  /** Enlarging or opening one position on an open post, its owner debited and others at most paid. */
  lemma BoostedStateKeepsInv(p: Params, s: State, r: State, debited: map<Address, Account>,
                             key: StakeKey, staked: nat, burn: nat)
    requires Inv(p, s) && OnlyPaid(debited, r.accounts)
    requires key.staker in s.accounts && key.staker in debited
    requires debited == s.accounts[key.staker := debited[key.staker]]
    requires var d, c := debited[key.staker], s.accounts[key.staker];
             && d.balance >= 0 && d.staked >= 0 && c.nonce <= d.nonce < TWO64 && d.name == c.name
             && d.postStake == c.postStake + staked
    requires key.post in s.posts && !s.posts[key.post].withdrawn
    requires key in r.stakes && key.post in r.posts
    requires r == s.(accounts := r.accounts, posts := s.posts[key.post := r.posts[key.post]],
                     stakes := s.stakes[key := r.stakes[key]], burned := s.burned + burn)
    requires r.stakes[key].amount == staked + (if key in s.stakes then s.stakes[key].amount else 0)
    requires var a, b := s.posts[key.post], r.posts[key.post];
             && b.author == a.author && !b.withdrawn && b.totalStaked == a.totalStaked + staked
             && b.totalBurned == a.totalBurned + burn
             && b.stakerCount == if key in s.stakes then a.stakerCount else Wrap(a.stakerCount + 1)
    ensures Inv(p, r)
  {
    BoostPostsAgree(s, r, key, staked);
    AccountsAfterSet(s, r, key);
    KeptAuthored(p, s, r);
    KeptNames(s, r);
    SumUpdate(s.posts, key.post, r.posts[key.post], BurnedOn);
    BoostNonNegative(s, r, debited, key);
  }

  lemma BoostNonNegative(s: State, r: State, debited: map<Address, Account>, key: StakeKey)
    requires NonNegative(s) && OnlyPaid(debited, r.accounts)
    requires debited.Keys == s.accounts.Keys
    requires forall a :: a in s.accounts && a != key.staker ==> debited[a] == s.accounts[a]
    requires key.staker in s.accounts
    requires var d := debited[key.staker]; d.balance >= 0 && d.staked >= 0 && d.postStake >= 0 && 0 <= d.nonce < TWO64
    requires key in r.stakes && r.stakes == s.stakes[key := r.stakes[key]] && r.stakes[key].amount >= 0
    requires key.post in r.posts && r.posts == s.posts[key.post := r.posts[key.post]]
      && r.posts[key.post].totalBurned >= 0
    requires r.queue == s.queue && r.burned >= 0 && r.issued == s.issued
    ensures NonNegative(r)
  {}

  // ---------- Unstaking a post ----------

  /** What one account gets back when the addresses in who leave a post. */
  ghost predicate PaidBack(before: Account, after: Account, back: int) {
    && after.name == before.name && after.staked == before.staked
    && before.nonce <= after.nonce < TWO64
    && after.balance == before.balance + back && after.postStake == before.postStake - back
  }

  function Back(stakes: map<StakeKey, Position>, id: PostId, who: set<Address>, a: Address): int {
    if a in who && StakeKey(id, a) in stakes then stakes[StakeKey(id, a)].amount else 0
  }

  /** The addresses in who, and only they, leave the post with what they hold on it. */
  ghost predicate Leaves(s: State, r: State, id: PostId, who: set<Address>) {
    && r.stakes == Without(s.stakes, id, who)
    && r.accounts.Keys == s.accounts.Keys
    && forall a :: a in s.accounts ==> PaidBack(s.accounts[a], r.accounts[a], Back(s.stakes, id, who, a))
  }

  lemma LeavingAccountsAgree(s: State, r: State, id: PostId, who: set<Address>)
    requires AccountsAgree(s) && NonNegative(s) && Leaves(s, r, id, who)
    ensures AccountsAgree(r)
    ensures forall a :: a in r.accounts ==> r.accounts[a].postStake >= 0
  {
    forall a | a in r.accounts
      ensures AccountAgrees(r.stakes, a, r.accounts[a]) && r.accounts[a].postStake >= 0
    {
      assert AccountAgrees(s.stakes, a, s.accounts[a]);
      LeavingAccountAgrees(s.stakes, id, who, a, s.accounts[a], r.accounts[a]);
    }
  }

  lemma LeavingAccountAgrees(stakes: map<StakeKey, Position>, id: PostId, who: set<Address>, a: Address,
                             before: Account, after: Account)
    requires AccountAgrees(stakes, a, before) && forall k :: k in stakes ==> stakes[k].amount >= 0
    requires after.postStake == before.postStake - Back(stakes, id, who, a)
    ensures AccountAgrees(Without(stakes, id, who), a, after) && after.postStake >= 0
  {
    PositionsAfterRemove(stakes, id, who, a);
    var mine: map<PostId, Position> := Positions(stakes, a);
    if a in who && id in mine {
      SumRemove(mine, id, AmountOf);
      SumBounds(mine - {id}, AmountOf);
    } else {
      assert a in who ==> mine - {id} == mine;
      SumBounds(mine, AmountOf);
    }
  }

  lemma LeavingWealth(s: State, r: State, id: PostId, who: set<Address>)
    requires Leaves(s, r, id, who) && r.queue == s.queue && r.burned == s.burned
    ensures Wealth(r) == Wealth(s)
  {
    SumPointwise(s.accounts, Holdings, r.accounts, Holdings);
  }

  lemma UnstakeLeaves(s: State, tx: Tx)
    requires NonceRoom(s, 1) && NonNegative(s)
    requires tx.sender in s.accounts && tx.postId in s.posts && StakeKey(tx.postId, tx.sender) in s.stakes
    ensures Leaves(s, ApplyUnstakePost(s, tx).value, tx.postId, {tx.sender} + ForcedOut(s, tx).Keys)
  {
    ForcedOutFacts(s, tx);
    RefundAll(s.accounts, Left(s, tx), tx.sender, ForcedOut(s, tx), s.stakes, tx.postId);
  }

  lemma ForcedOutFacts(s: State, tx: Tx)
    requires tx.postId in s.posts
    ensures tx.sender !in ForcedOut(s, tx)
    ensures forall a :: a in ForcedOut(s, tx) ==>
      StakeKey(tx.postId, a) in s.stakes && s.stakes[StakeKey(tx.postId, a)] == ForcedOut(s, tx)[a]
  {}

  lemma RefundAll(accounts: map<Address, Account>, paid: map<Address, Account>, a: Address,
                  others: map<Address, Position>, stakes: map<StakeKey, Position>, id: PostId)
    requires a in accounts && a !in others && StakeKey(id, a) in stakes
    requires var amount := stakes[StakeKey(id, a)].amount;
             paid == accounts[a := Bumped(accounts[a]).(
               balance := accounts[a].balance + amount, postStake := accounts[a].postStake - amount)]
    requires forall b :: b in others ==> StakeKey(id, b) in stakes && stakes[StakeKey(id, b)] == others[b]
    requires forall b :: b in accounts ==> 0 <= accounts[b].nonce < TWO64 - 1
    ensures Refund(paid, others).Keys == accounts.Keys
    ensures forall b :: b in accounts ==>
      PaidBack(accounts[b], Refund(paid, others)[b], Back(stakes, id, {a} + others.Keys, b))
  {
    forall b | b in accounts
      ensures Back(stakes, id, {a} + others.Keys, b)
              == if b == a then stakes[StakeKey(id, a)].amount else if b in others then others[b].amount else 0
    {}
  }

  /** An unstake leaves the post caches right; an author's unstake closes the post with nothing left on it. */
  lemma UnstakePostsAgree(p: Params, s: State, tx: Tx)
    requires Inv(p, s)
    requires tx.sender in s.accounts && tx.postId in s.posts && StakeKey(tx.postId, tx.sender) in s.stakes
    ensures PostsAgree(ApplyUnstakePost(s, tx).value)
    ensures tx.sender == s.posts[tx.postId].author ==>
              var post := ApplyUnstakePost(s, tx).value.posts[tx.postId];
              post.withdrawn && post.totalStaked == 0 && post.stakerCount == 0
  {
    var r := ApplyUnstakePost(s, tx).value;
    var id := tx.postId;
    UnstakeOwnPost(s, tx);
    var who := {tx.sender} + ForcedOut(s, tx).Keys;
    forall q | q in r.posts
      ensures PostAgrees(r.stakes, q, r.posts[q])
    {
      if q != id {
        StakersAfterRemove(s.stakes, id, who, q);
        assert PostAgrees(s.stakes, q, s.posts[q]);
      }
    }
  }

  lemma UnstakeOwnPost(s: State, tx: Tx)
    requires PostsAgree(s)
    requires tx.sender in s.accounts && tx.postId in s.posts && StakeKey(tx.postId, tx.sender) in s.stakes
    ensures var r := ApplyUnstakePost(s, tx).value; PostAgrees(r.stakes, tx.postId, r.posts[tx.postId])
    ensures tx.sender == s.posts[tx.postId].author ==>
              var post := ApplyUnstakePost(s, tx).value.posts[tx.postId];
              post.withdrawn && post.totalStaked == 0 && post.stakerCount == 0
  {
    var id := tx.postId;
    assert PostAgrees(s.stakes, id, s.posts[id]);
    SplitOff(s.stakes, id, tx.sender, s.posts[id]);
    if tx.sender == s.posts[id].author {
      AuthorLeaves(s, tx);
    } else {
      StakerLeaves(s, tx);
    }
  }

  /** A post's caches, split into one position and the rest. */
  lemma SplitOff(stakes: map<StakeKey, Position>, id: PostId, a: Address, post: Post)
    requires StakeKey(id, a) in stakes && PostAgrees(stakes, id, post)
    ensures var others: map<Address, Position> := Stakers(stakes, id) - {a};
            && post.totalStaked == stakes[StakeKey(id, a)].amount + SumBy(others, AmountOf)
            && post.stakerCount == Wrap(|others| + 1)
  {
    SumRemove(Stakers(stakes, id), a, AmountOf);
    SizeAfterRemove(Stakers(stakes, id), a);
  }

  lemma AuthorLeaves(s: State, tx: Tx)
    requires tx.sender in s.accounts && tx.postId in s.posts && StakeKey(tx.postId, tx.sender) in s.stakes
    requires var others: map<Address, Position> := Stakers(s.stakes, tx.postId) - {tx.sender};
             && s.posts[tx.postId].totalStaked
                == s.stakes[StakeKey(tx.postId, tx.sender)].amount + SumBy(others, AmountOf)
             && s.posts[tx.postId].stakerCount == Wrap(|others| + 1)
    requires tx.sender == s.posts[tx.postId].author
    ensures var r := ApplyUnstakePost(s, tx).value; PostAgrees(r.stakes, tx.postId, r.posts[tx.postId])
    ensures var post := ApplyUnstakePost(s, tx).value.posts[tx.postId];
            post.withdrawn && post.totalStaked == 0 && post.stakerCount == 0
  {
    var r := ApplyUnstakePost(s, tx).value;
    var others: map<Address, Position> := ForcedOut(s, tx);
    CountDown(|others|, s.posts[tx.postId].stakerCount);
    assert r.posts[tx.postId].stakerCount == 0;
    NobodyLeft(s.stakes, tx.postId, tx.sender);
    assert r.stakes == Without(s.stakes, tx.postId, {tx.sender} + others.Keys);
    ClosedPostAgrees(r.stakes, tx.postId, r.posts[tx.postId]);
  }

  lemma CountDown(n: nat, count: int)
    requires count == Wrap(n + 1)
    ensures Wrap(count - 1 - n) == 0
  {
    WrapShift(n + 1, -1 - n);
  }

  lemma StakerLeaves(s: State, tx: Tx)
    requires tx.sender in s.accounts && tx.postId in s.posts && StakeKey(tx.postId, tx.sender) in s.stakes
    requires PostAgrees(s.stakes, tx.postId, s.posts[tx.postId])
    requires tx.sender != s.posts[tx.postId].author
    ensures var r := ApplyUnstakePost(s, tx).value; PostAgrees(r.stakes, tx.postId, r.posts[tx.postId])
  {
    var none: map<Address, Position> := map[];
    assert ForcedOut(s, tx) == none && {tx.sender} + none.Keys == {tx.sender};
    SumEmpty(none, AmountOf);
    OneLeaves(s.stakes, tx.postId, tx.sender, s.posts[tx.postId], UnstakedPost(s, tx));
  }

  lemma SizeAfterRemove<K, V>(m: map<K, V>, k: K)
    requires k in m
    ensures |m - {k}| == |m| - 1
  {
    assert m.Keys == (m - {k}).Keys + {k};
  }

  lemma NobodyLeft(stakes: map<StakeKey, Position>, id: PostId, a: Address)
    requires StakeKey(id, a) in stakes
    ensures Stakers(Without(stakes, id, {a} + (Stakers(stakes, id) - {a}).Keys), id) == map[]
  {
    StakersAfterRemove(stakes, id, {a} + (Stakers(stakes, id) - {a}).Keys, id);
  }

  lemma ClosedPostAgrees(stakes: map<StakeKey, Position>, id: PostId, post: Post)
    requires Stakers(stakes, id) == map[] && post.withdrawn && post.totalStaked == 0 && post.stakerCount == 0
    ensures PostAgrees(stakes, id, post)
  {
    SumEmpty(Stakers(stakes, id), AmountOf);
  }

  lemma OneLeaves(stakes: map<StakeKey, Position>, id: PostId, a: Address, before: Post, after: Post)
    requires StakeKey(id, a) in stakes && PostAgrees(stakes, id, before)
    requires && after.totalStaked == before.totalStaked - stakes[StakeKey(id, a)].amount
             && after.stakerCount == Wrap(before.stakerCount - 1)
             && after.author == before.author != a && after.withdrawn == before.withdrawn
    ensures PostAgrees(Without(stakes, id, {a}), id, after)
  {
    SplitOff(stakes, id, a, before);
    StakersAfterRemove(stakes, id, {a}, id);
    WrapShift(|Stakers(stakes, id) - {a}| + 1, -1);
  }

  lemma UnstakePostKeepsInv(p: Params, s: State, tx: Tx)
    requires Inv(p, s) && NonceRoom(s, 1)
    requires tx.sender in s.accounts && tx.postId in s.posts && StakeKey(tx.postId, tx.sender) in s.stakes
    ensures Inv(p, ApplyUnstakePost(s, tx).value)
    ensures Wealth(ApplyUnstakePost(s, tx).value) == Wealth(s)
  {
    UnstakeLeaves(s, tx);
    UnstakePostsAgree(p, s, tx);
    LeavingKeepsInv(p, s, ApplyUnstakePost(s, tx).value, tx.postId, {tx.sender} + ForcedOut(s, tx).Keys);
  }

  lemma LeavingKeepsInv(p: Params, s: State, r: State, id: PostId, who: set<Address>)
    requires Inv(p, s) && Leaves(s, r, id, who) && PostsAgree(r)
    requires id in s.posts && id in r.posts && r.posts[id].author == s.posts[id].author
    requires r.posts[id].totalBurned == s.posts[id].totalBurned
    requires r == s.(accounts := r.accounts, stakes := r.stakes, posts := s.posts[id := r.posts[id]])
    ensures Inv(p, r)
    ensures Wealth(r) == Wealth(s)
  {
    LeavingAccountsAgree(s, r, id, who);
    LeavingWealth(s, r, id, who);
    KeptAuthored(p, s, r);
    KeptNames(s, r);
    SumUpdate(s.posts, id, r.posts[id], BurnedOn);
    LeavingNonNegative(s, r, id, who);
  }

  lemma LeavingNonNegative(s: State, r: State, id: PostId, who: set<Address>)
    requires NonNegative(s) && Leaves(s, r, id, who)
    requires forall a :: a in r.accounts ==> r.accounts[a].postStake >= 0
    requires id in r.posts && r.posts[id].totalBurned >= 0
    requires r == s.(accounts := r.accounts, stakes := r.stakes, posts := s.posts[id := r.posts[id]])
    ensures NonNegative(r)
  {}
}
