/** The block executor as the node runs it: in-place updates and uint64 arithmetic, proved equal to the ledger.
    Every addition and subtraction of amounts goes through Plus or Minus, so each is shown not to wrap. */
module Executors {
  import opened Words
  import opened Types
  import opened SafeMath
  import opened Sums
  import opened Ledger
  import opened Invariant
  import opened Fees
  import opened Steps
  import opened PostSteps
  import opened Blocks
  import opened Bounds
  import opened WorldStates

  /** A state the executor may be handed: reachable-state invariant, and all wealth fits a uint64. */
  ghost predicate Sound(p: Params, s: State) {
    Inv(p, s) && Wealth(s) < TWO64
  }

  /** What executing a validated transaction needs. */
  ghost predicate Ready(p: Params, s: State, tx: Tx) {
    Sound(p, s) && NonceRoom(s, 1) && GoodParams(p) && PostIdsDistinct(p) && ValidTx(p, ReaderOf(s), tx)
  }

  // Setting an account that keeps its name never changes a correct name index.
  lemma IndexUnchanged(s: State, a: Address, n: Bytes)
    requires NamesAgree(s) && (if a in s.accounts then s.accounts[a].name == n else n == [])
    ensures n != [] ==> s.names[n := a] == s.names
  {
    if n != [] {
      assert NameIndexed(s.accounts, s.names, a);
    }
  }

  /** Stores an account under its unchanged name: only the account map changes. */
  method Store(ghost p: Params, ws: WorldState, a: Address, acct: Account)
    requires NamesAgree(ws.View()) && acct.name == ws.AccountOrNew(a).name
    modifies ws
    ensures ws.View() == old(ws.View()).(accounts := old(ws.accounts)[a := acct])
    ensures NamesAgree(ws.View())
  {
    IndexUnchanged(ws.View(), a, acct.name);
    ghost var s := ws.View();
    ws.SetAccount(a, acct);
    StoredNames(s, ws.View(), a, acct);
  }

  lemma StoredNames(s: State, t: State, a: Address, acct: Account)
    requires NamesAgree(s) && t == s.(accounts := s.accounts[a := acct])
    requires acct.name == if a in s.accounts then s.accounts[a].name else []
    ensures NamesAgree(t)
  {
    forall n | n in t.names
      ensures NameResolves(t.accounts, t.names, n)
    {
      assert NameResolves(s.accounts, s.names, n);
    }
    forall b | b in t.accounts
      ensures NameIndexed(t.accounts, t.names, b)
    {
      assert b in s.accounts ==> NameIndexed(s.accounts, s.names, b);
    }
  }

  /** Adds x to a balance, opening the account when needed. */
  method CreditAccount(ghost p: Params, ws: WorldState, a: Address, x: Uint64)
    requires NamesAgree(ws.View()) && 0 <= ws.AccountOrNew(a).balance && ws.AccountOrNew(a).balance + x < TWO64
    modifies ws
    ensures ws.View() == old(ws.View()).(accounts := Credit(old(ws.accounts), a, x))
    ensures NamesAgree(ws.View())
  {
    var acct := ws.AccountOrNew(a);
    Store(p, ws, a, acct.(balance := Plus(acct.balance, x)));
  }

  lemma TxSound(p: Params, s: State, tx: Tx, h: Uint64, t: Int64)
    requires Ready(p, s, tx)
    ensures ApplyTx(p, s, tx, h, t).Some? && Sound(p, ApplyTx(p, s, tx, h, t).value)
  {
    TxStep(p, s, tx, h, t);
    DustNonNegative(p, s, tx);
  }

  method ApplyTransferTo(ghost p: Params, ws: WorldState, tx: Tx, ghost h: Uint64, ghost t: Int64)
    requires Ready(p, ws.View(), tx) && tx.kind == TX_TRANSFER
    modifies ws
    ensures ApplyTransfer(old(ws.View()), tx) == Some(ws.View())
  {
    ghost var s := ws.View();
    TxSound(p, s, tx, h, t);
    ghost var r := ApplyTransfer(s, tx).value;
    AccountBound(s, tx.sender);
    AccountBound(r, tx.recipient);
    ValidSpender(p, s, tx);
    var sender := ws.accounts[tx.sender];
    // The recipient is read after the debit, which is what updating both through pointers amounts to.
    Store(p, ws, tx.sender, Bumped(sender).(balance := Minus(sender.balance, tx.amount)));
    CreditAccount(p, ws, tx.recipient, tx.amount);
  }

  method ApplyStakeTo(ghost p: Params, ws: WorldState, tx: Tx, ghost h: Uint64, ghost t: Int64)
    requires Ready(p, ws.View(), tx) && tx.kind == TX_STAKE
    modifies ws
    ensures ApplyStake(old(ws.View()), tx) == Some(ws.View())
  {
    ghost var s := ws.View();
    TxSound(p, s, tx, h, t);
    AccountBound(s, tx.sender);
    AccountBound(ApplyStake(s, tx).value, tx.sender);
    var sender := ws.accounts[tx.sender];
    Store(p, ws, tx.sender, Bumped(sender).(
      balance := Minus(sender.balance, tx.amount), staked := Plus(sender.staked, tx.amount)));
    ws.SetValidatorPubKey(tx.sender, tx.pubKey);
  }

  method ApplyUnstakeTo(p: Params, ws: WorldState, tx: Tx, h: Uint64)
    requires Ready(p, ws.View(), tx) && tx.kind == TX_UNSTAKE
    modifies ws
    ensures ApplyUnstake(p, old(ws.View()), tx, h) == Some(ws.View())
  {
    AccountBound(ws.View(), tx.sender);
    var sender := ws.accounts[tx.sender];
    Store(p, ws, tx.sender, Bumped(sender).(staked := Minus(sender.staked, tx.amount)));
    ws.unbondingQueue := ws.unbondingQueue + [Unbonding(tx.sender, tx.amount, Wrap(h + p.unbondingPeriod))];
  }

  method ApplyRegisterNameTo(ghost p: Params, ws: WorldState, tx: Tx)
    requires Ready(p, ws.View(), tx) && tx.kind == TX_REGISTER_NAME
    modifies ws
    ensures ApplyRegisterName(old(ws.View()), tx) == Some(ws.View())
  {
    ghost var names := ws.nameIndex;
    ws.SetAccount(tx.sender, Bumped(ws.accounts[tx.sender]).(name := tx.text));
    ws.nameIndex := ws.nameIndex[tx.text := tx.sender];
    assert ws.nameIndex == names[tx.text := tx.sender];
  }

  /** Post creation with its fee already computed. */
  method CreateBy(p: Params, ws: WorldState, tx: Tx, fee: Uint64, h: Uint64, t: Int64)
    requires NamesAgree(ws.View()) && CreateRoom(ws.View(), tx, fee)
    modifies ws
    ensures ws.View() == Created(p, old(ws.View()), tx, fee, h, t)
  {
    var author := ws.accounts[tx.sender];
    var staked := Minus(tx.amount, fee);
    var id := p.postId(tx.sender, Wrap(author.nonce + 1));
    Store(p, ws, tx.sender, Bumped(author).(
      balance := Minus(author.balance, tx.amount), postStake := Plus(author.postStake, staked)));
    ws.posts := ws.posts[id := Post(tx.sender, tx.text, tx.channel, tx.postId, h, t, staked, fee, 1, false)];
    ws.postStakes := ws.postStakes[StakeKey(id, tx.sender) := Position(staked, h)];
    ws.burnedSupply := Plus(ws.burnedSupply, fee);
  }

  /** Every amount that creating a post touches stays in range. */
  ghost predicate CreateRoom(s: State, tx: Tx, fee: Uint64) {
    && tx.sender in s.accounts && fee <= tx.amount
    && tx.amount <= s.accounts[tx.sender].balance < TWO64
    && 0 <= s.accounts[tx.sender].postStake && s.accounts[tx.sender].postStake + tx.amount - fee < TWO64
    && 0 <= s.burned && s.burned + fee < TWO64
  }

  lemma CreateFits(p: Params, s: State, tx: Tx, fee: Uint64, h: Uint64, t: Int64)
    requires Sound(p, s) && CanSpend(s, tx.sender, tx.amount) && fee <= tx.amount
    requires Sound(p, Created(p, s, tx, fee, h, t))
    ensures CreateRoom(s, tx, fee)
  {
    AccountBound(s, tx.sender);
    AccountBound(Created(p, s, tx, fee, h, t), tx.sender);
    SupplyBound(s);
    SupplyBound(Created(p, s, tx, fee, h, t));
  }

  method ApplyCreatePostTo(p: Params, ws: WorldState, tx: Tx, h: Uint64, t: Int64)
    requires Ready(p, ws.View(), tx) && tx.kind == TX_CREATE_POST
    modifies ws
    ensures ApplyCreatePost(p, old(ws.View()), tx, h, t) == Some(ws.View())
  {
    TxSound(p, ws.View(), tx, h, t);
    PostFeeFits(p, tx.amount);
    CreateFits(p, ws.View(), tx, PostFee(p, tx.amount), h, t);
    CreateBy(p, ws, tx, PostFee(p, tx.amount), h, t);
  }

  // ---------- Boost ----------

  lemma PayOneMore(accounts: map<Address, Account>, credits: map<Address, int>, done: set<Address>, a: Address)
    requires a in credits && a !in done && a in accounts
    ensures var before, after := PayAll(accounts, Part(credits, done)), PayAll(accounts, Part(credits, done + {a}));
            && before[a] == accounts[a]
            && after == before[a := accounts[a].(balance := accounts[a].balance + credits[a])]
  {}

  lemma PaidEverybody<V>(out: seq<(Address, V)>, m: map<Address, V>, done: set<Address>)
    requires Enumerates(out, m) && done == Firsts(out)
    ensures done == m.Keys
  {}

  function Firsts<V>(out: seq<(Address, V)>): set<Address> {
    set i | 0 <= i < |out| :: out[i].0
  }

  lemma FirstsStep<V>(out: seq<(Address, V)>, m: map<Address, V>, i: nat)
    requires i < |out| && Enumerates(out, m)
    ensures Firsts(out[..i + 1]) == Firsts(out[..i]) + {out[i].0}
    ensures out[i].0 !in Firsts(out[..i])
  {
    forall a
      ensures a in Firsts(out[..i + 1]) <==> a in Firsts(out[..i]) + {out[i].0}
    {
      if a in Firsts(out[..i + 1]) {
        var j :| 0 <= j < i + 1 && out[..i + 1][j].0 == a;
        assert j < i ==> out[..i][j].0 == a;
      }
      if a in Firsts(out[..i]) {
        var j :| 0 <= j < i && out[..i][j].0 == a;
        assert out[..i + 1][j].0 == a;
      }
      assert out[..i + 1][i].0 == out[i].0;
    }
  }

  /** One staker's share, by the 128-bit multiply-and-divide. */
  method ComputeShare(a: Address, amount: Uint64, reward: Uint64, total: Uint64, ghost on: map<Address, Position>)
    returns (share: Uint64)
    requires a in on && on[a].amount == amount <= total && total > 0
    ensures share == Shares(on, reward, total)[a]
  {
    MulDivFraction(reward, amount, total);
    share := MulDiv(reward, amount, total);
  }

  /** Pays one staker who has not been paid yet. */
  method PayOneStaker(ghost p: Params, ws: WorldState, a: Address, amount: Uint64, reward: Uint64, total: Uint64,
                      ghost on: map<Address, Position>, ghost start: map<Address, Account>, ghost done: set<Address>)
    requires NamesMatch(ws.accounts, ws.nameIndex) && total > 0
    requires a in on && a !in done && on[a].amount == amount <= total
    requires a in start && 0 <= start[a].balance && start[a].balance + Shares(on, reward, total)[a] < TWO64
    requires ws.accounts == PayAll(start, Part(Shares(on, reward, total), done))
    modifies ws
    ensures ws.View() == old(ws.View()).(accounts := PayAll(start, Part(Shares(on, reward, total), done + {a})))
    ensures NamesMatch(ws.accounts, ws.nameIndex)
  {
    var share := ComputeShare(a, amount, reward, total, on);
    PayOneMore(start, Shares(on, reward, total), done, a);
    if share > 0 && a in ws.accounts {
      var acct := ws.accounts[a];
      Store(p, ws, a, acct.(balance := Plus(acct.balance, share)));
    }
  }

  /** Pays the pro-rata shares in whatever order the map yields the stakers: the outcome is the same. */
  method PayStakers(ghost p: Params, ws: WorldState, stakers: seq<(Address, Position)>, reward: Uint64, total: Uint64,
                    ghost on: map<Address, Position>)
    requires NamesMatch(ws.accounts, ws.nameIndex) && Enumerates(stakers, on) && total > 0
    requires on.Keys <= ws.accounts.Keys
    requires forall a :: a in on ==> 0 <= on[a].amount <= total
    requires var paid := PayAll(ws.accounts, Shares(on, reward, total));
             forall a :: a in paid ==> 0 <= ws.accounts[a].balance && paid[a].balance < TWO64
    modifies ws
    ensures ws.View() == old(ws.View()).(accounts := PayAll(old(ws.accounts), Shares(on, reward, total)))
    ensures NamesMatch(ws.accounts, ws.nameIndex)
  {
    ghost var start := ws.View();
    PaidNobody(start.accounts, Shares(on, reward, total));
    for i := 0 to |stakers|
      invariant NamesMatch(ws.accounts, ws.nameIndex)
      invariant ws.View() == start.(
        accounts := PayAll(start.accounts, Part(Shares(on, reward, total), Firsts(stakers[..i]))))
    {
      FirstsStep(stakers, on, i);
      assert PayAll(start.accounts, Shares(on, reward, total))[stakers[i].0].balance < TWO64;
      PayOneStaker(p, ws, stakers[i].0, stakers[i].1.amount, reward, total, on, start.accounts, Firsts(stakers[..i]));
    }
    assert stakers[..|stakers|] == stakers;
    PaidEverybody(stakers, on, Firsts(stakers));
    WholePart(Shares(on, reward, total));
  }

  lemma PaidNobody(accounts: map<Address, Account>, credits: map<Address, int>)
    ensures PayAll(accounts, Part(credits, {})) == accounts
  {}

  lemma WholePart<V>(m: map<Address, V>)
    ensures Part(m, m.Keys) == m
  {}

  /** Pays the author reward, then the stakers. */
  method PayRewards(ghost p: Params, ws: WorldState, id: PostId, author: Address, split: Split, total: Uint64,
                    ghost on: map<Address, Position>)
    requires NamesAgree(ws.View()) && on == Stakers(ws.postStakes, id) && total > 0
    requires author in ws.accounts && on.Keys <= ws.accounts.Keys
    requires forall a :: a in on ==> 0 <= on[a].amount <= total
    requires RewardFits(ws.accounts, Rewarded(ws.accounts, author, split.author, on, split.stakers, total))
    modifies ws
    ensures ws.View() == old(ws.View()).(
      accounts := Rewarded(old(ws.accounts), author, split.author, on, split.stakers, total))
    ensures NamesAgree(ws.View())
  {
    ghost var goal: map<Address, Account> := Rewarded(ws.accounts, author, split.author, on, split.stakers, total);
    RewardInStages(ws.accounts, author, split.author, on, split.stakers, total);
    if split.author > 0 && author in ws.accounts {
      CreditAccount(p, ws, author, split.author);
    }
    if split.stakers > 0 && total > 0 {
      var stakers := ws.GetPostStakers(id);
      assert PayAll(ws.accounts, Shares(on, split.stakers, total)) == goal;
      PayStakers(p, ws, stakers, split.stakers, total, on);
    }
  }

  /** Balances start non-negative, rise, and end within the uint64 range. */
  ghost predicate RewardFits(before: map<Address, Account>, after: map<Address, Account>) {
    OnlyPaid(before, after) && forall a :: a in after ==> 0 <= before[a].balance && after[a].balance < TWO64
  }

  lemma RewardInStages(accounts: map<Address, Account>, author: Address, x: nat,
                       on: map<Address, Position>, reward: nat, total: int)
    requires total > 0 && author in accounts && forall a :: a in on ==> on[a].amount >= 0
    requires RewardFits(accounts, Rewarded(accounts, author, x, on, reward, total))
    ensures var credited := if x > 0 then Credit(accounts, author, x) else accounts;
            && RewardFits(credited, Rewarded(accounts, author, x, on, reward, total))
            && Rewarded(accounts, author, x, on, reward, total)
               == (if reward > 0 then PayAll(credited, Shares(on, reward, total)) else credited)
            && accounts[author].balance + x < TWO64
  {
    SharesNonNegative(on, reward, total);
    var credited: map<Address, Account> := if x > 0 then Credit(accounts, author, x) else accounts;
    PaidUp(credited, Shares(on, reward, total));
  }

  lemma PaidUp(accounts: map<Address, Account>, credits: map<Address, int>)
    requires forall a :: a in credits ==> credits[a] >= 0
    ensures OnlyPaid(accounts, PayAll(accounts, credits))
  {}

  /** Enlarges or opens the booster's position and brings the post's caches along. */
  method AddToPosition(ws: WorldState, ghost s: State, tx: Tx, split: Split, h: Uint64)
    requires tx.sender in s.accounts && tx.postId in s.posts && AmountsFit(s, tx, split)
    requires ws.posts == s.posts && ws.postStakes == s.stakes
    modifies ws`posts, ws`postStakes
    ensures ws.View() == old(ws.View()).(posts := BoostedPosts(s, tx, split), stakes := BoostedStakes(s, tx, split, h))
  {
    var staked := Minus(Minus(Minus(tx.amount, split.burn), split.author), split.stakers);
    var key := StakeKey(tx.postId, tx.sender);
    var post := ws.posts[tx.postId];
    post := post.(totalStaked := Plus(post.totalStaked, staked), totalBurned := Plus(post.totalBurned, split.burn));
    if key in ws.postStakes {
      var existing := ws.postStakes[key];
      ws.postStakes := ws.postStakes[key := existing.(amount := Plus(existing.amount, staked))];
    } else {
      ws.postStakes := ws.postStakes[key := Position(staked, h)];
      post := post.(stakerCount := Wrap(post.stakerCount + 1));
    }
    ws.posts := ws.posts[tx.postId := post];
  }

  /** Takes the boost out of the booster's balance, locks its stake and burns the burn fee. */
  method DebitBooster(ghost p: Params, ws: WorldState, tx: Tx, split: Split)
    requires NamesMatch(ws.accounts, ws.nameIndex) && tx.sender in ws.accounts && tx.postId in ws.posts
    requires AmountsFit(ws.View(), tx, split)
    modifies ws
    ensures ws.View() == old(ws.View()).(
      accounts := BoosterDebited(old(ws.View()), tx, split), burned := old(ws.burnedSupply) + split.burn)
    ensures NamesMatch(ws.accounts, ws.nameIndex)
  {
    var staked := Minus(Minus(Minus(tx.amount, split.burn), split.author), split.stakers);
    var booster := ws.accounts[tx.sender];
    Store(p, ws, tx.sender, Bumped(booster).(
      balance := Minus(booster.balance, tx.amount), postStake := Plus(booster.postStake, staked)));
    ws.burnedSupply := Plus(ws.burnedSupply, split.burn);
  }

  /** Pays the author and the stakers of the boosted post, the debit being done. */
  method PayBoostRewards(ghost p: Params, ws: WorldState, ghost s: State, tx: Tx, split: Split,
                         ghost h: Uint64, ghost t: Int64)
    requires Ready(p, s, tx) && tx.kind == TX_BOOST_POST && split == BoostSplit(p, tx.amount)
    requires tx.sender in s.accounts && NamesMatch(ws.accounts, ws.nameIndex)
    requires ws.accounts == BoosterDebited(s, tx, split) && ws.postStakes == s.stakes && ws.posts == s.posts
    modifies ws
    ensures ws.View() == old(ws.View()).(accounts := BoostedAccounts(s, tx, split))
  {
    BoostFits(p, s, tx, h, t);
    var post := ws.posts[tx.postId];
    PayRewards(p, ws, tx.postId, post.author, split, post.totalStaked, Stakers(s.stakes, tx.postId));
  }

  /** All the money a boost moves. */
  method MoveBoost(ghost p: Params, ws: WorldState, tx: Tx, split: Split, ghost h: Uint64, ghost t: Int64)
    requires Ready(p, ws.View(), tx) && tx.kind == TX_BOOST_POST && split == BoostSplit(p, tx.amount)
    requires tx.sender in ws.accounts && tx.postId in ws.posts
    modifies ws
    ensures ws.View() == old(ws.View()).(
      accounts := BoostedAccounts(old(ws.View()), tx, split), burned := old(ws.burnedSupply) + split.burn)
  {
    ghost var s := ws.View();
    BoostAmounts(p, s, tx, split, h, t);
    DebitBooster(p, ws, tx, split);
    PayBoostRewards(p, ws, s, tx, split, h, t);
  }

  method ApplyBoostTo(p: Params, ws: WorldState, tx: Tx, h: Uint64, ghost t: Int64)
    requires Ready(p, ws.View(), tx) && tx.kind == TX_BOOST_POST
    modifies ws
    ensures ApplyBoost(p, old(ws.View()), tx, h) == Some(ws.View())
  {
    ghost var s := ws.View();
    var split := BoostSplit(p, tx.amount);
    BoostAmounts(p, s, tx, split, h, t);
    MoveBoost(p, ws, tx, split, h, t);
    FinishBoost(ws, s, tx, split, h);
  }

  method FinishBoost(ws: WorldState, ghost s: State, tx: Tx, split: Split, h: Uint64)
    requires tx.sender in s.accounts && tx.postId in s.posts && AmountsFit(s, tx, split)
    requires ws.View() == s.(accounts := BoostedAccounts(s, tx, split), burned := s.burned + split.burn)
    modifies ws
    ensures ws.View() == Boosted(s, tx, split, h)
  {
    AddToPosition(ws, s, tx, split, h);
  }

  lemma BoostAmounts(p: Params, s: State, tx: Tx, split: Split, h: Uint64, t: Int64)
    requires Ready(p, s, tx) && tx.kind == TX_BOOST_POST && split == BoostSplit(p, tx.amount)
    ensures tx.sender in s.accounts && tx.postId in s.posts && AmountsFit(s, tx, split)
    ensures ApplyBoost(p, s, tx, h) == Some(Boosted(s, tx, split, h))
  {
    BoostFits(p, s, tx, h, t);
  }

  /** Every amount the boost touches stays in range. */
  ghost predicate AmountsFit(s: State, tx: Tx, split: Split)
    requires tx.sender in s.accounts && tx.postId in s.posts
  {
    var post := s.posts[tx.postId];
    var key := StakeKey(tx.postId, tx.sender);
    var staked := BoostStake(tx.amount, split);
    && tx.amount <= s.accounts[tx.sender].balance < TWO64
    && staked >= 0 && 0 <= s.accounts[tx.sender].postStake && s.accounts[tx.sender].postStake + staked < TWO64
    && 0 <= s.burned && s.burned + split.burn < TWO64
    && 0 < post.totalStaked && post.totalStaked + staked < TWO64
    && 0 <= post.totalBurned && post.totalBurned + split.burn < TWO64
    && (key in s.stakes ==> 0 <= s.stakes[key].amount && s.stakes[key].amount + staked < TWO64)
  }

  /** Every balance the boost pays into exists and stays in range. */
  ghost predicate AccountsFit(s: State, tx: Tx, split: Split)
    requires tx.sender in s.accounts && tx.postId in s.posts
  {
    var post := s.posts[tx.postId];
    var on := Stakers(s.stakes, tx.postId);
    && post.author in s.accounts && on.Keys <= s.accounts.Keys
    && (forall a :: a in on ==> 0 <= on[a].amount <= post.totalStaked)
    && RewardFits(BoosterDebited(s, tx, split), BoostedAccounts(s, tx, split))
  }

  lemma BoostFits(p: Params, s: State, tx: Tx, h: Uint64, t: Int64)
    requires Ready(p, s, tx) && tx.kind == TX_BOOST_POST
    ensures var split := BoostSplit(p, tx.amount);
            && tx.sender in s.accounts && tx.postId in s.posts
            && split.burn + split.author + split.stakers <= tx.amount
            && AmountsFit(s, tx, split) && AccountsFit(s, tx, split)
            && ApplyBoost(p, s, tx, h) == Some(Boosted(s, tx, split, h))
  {
    TxSound(p, s, tx, h, t);
    ValidSpender(p, s, tx);
    BoostSplitFits(p, tx.amount);
    BoostAmountsFit(p, s, tx, BoostSplit(p, tx.amount), h);
    BoostAccountsFit(p, s, tx, BoostSplit(p, tx.amount), h);
  }

  lemma BoostAmountsFit(p: Params, s: State, tx: Tx, split: Split, h: Uint64)
    requires Sound(p, s) && CanSpend(s, tx.sender, tx.amount) && tx.postId in s.posts && !s.posts[tx.postId].withdrawn
    requires Sound(p, Boosted(s, tx, split, h)) && split.burn + split.author + split.stakers <= tx.amount
    ensures AmountsFit(s, tx, split)
  {
    var key := StakeKey(tx.postId, tx.sender);
    var r := Boosted(s, tx, split, h);
    AccountBound(s, tx.sender);
    BoostedAccountsFacts(p, s, tx, split);
    AccountBound(r, tx.sender);
    OpenPostIsStaked(p, s, tx.postId);
    PostBound(p, s, tx.postId);
    PostBound(p, r, tx.postId);
    SupplyBound(s);
    SupplyBound(r);
    PositionBound(p, r, key);
    if key in s.stakes {
      PositionBound(p, s, key);
    }
  }

  lemma BoostAccountsFit(p: Params, s: State, tx: Tx, split: Split, h: Uint64)
    requires Sound(p, s) && CanSpend(s, tx.sender, tx.amount) && tx.postId in s.posts && !s.posts[tx.postId].withdrawn
    requires Sound(p, Boosted(s, tx, split, h))
    ensures AccountsFit(s, tx, split)
  {
    assert AuthoredPost(p, s, tx.postId);
    StakersAreAccounts(s, tx.postId);
    OpenPostIsStaked(p, s, tx.postId);
    BoostedAccountsFacts(p, s, tx, split);
    forall a | a in BoostedAccounts(s, tx, split)
      ensures 0 <= BoosterDebited(s, tx, split)[a].balance && BoostedAccounts(s, tx, split)[a].balance < TWO64
    {
      AccountBound(Boosted(s, tx, split, h), a);
    }
  }

  // ---------- Unstaking a post ----------

  /** Everybody in out has an account that can take its position back. */
  ghost predicate RefundFits(accounts: map<Address, Account>, out: map<Address, Position>) {
    forall a :: a in out ==>
      && a in accounts
      && 0 <= out[a].amount <= accounts[a].postStake < TWO64
      && 0 <= accounts[a].balance && accounts[a].balance + out[a].amount < TWO64
  }

  lemma RefundOneMore(accounts: map<Address, Account>, out: map<Address, Position>, done: set<Address>, a: Address)
    requires a in out && a !in done && a in accounts
    ensures var before, after := Refund(accounts, Part(out, done)), Refund(accounts, Part(out, done + {a}));
            && before[a] == accounts[a]
            && after == before[a := accounts[a].(balance := accounts[a].balance + out[a].amount,
                                                 postStake := accounts[a].postStake - out[a].amount)]
  {}

  lemma RefundNobody(accounts: map<Address, Account>, out: map<Address, Position>)
    ensures Part(out, {}) == map[] && Refund(accounts, Part(out, {})) == accounts
  {}

  lemma PartOneMore(out: map<Address, Position>, done: set<Address>, a: Address)
    requires a in out && a !in done
    ensures Part(out, done + {a}) == Part(out, done)[a := out[a]]
    ensures SumBy(Part(out, done + {a}), AmountOf) == SumBy(Part(out, done), AmountOf) + out[a].amount
  {
    SumUpdate(Part(out, done), a, out[a], AmountOf);
  }

  lemma WithoutOneMore(stakes: map<StakeKey, Position>, id: PostId, done: set<Address>, a: Address)
    ensures Without(stakes, id, done) - {StakeKey(id, a)} == Without(stakes, id, done + {a})
  {
    assert forall k: StakeKey :: k == StakeKey(id, a) <==> k.post == id && k.staker == a;
  }

  lemma WithoutNobody(stakes: map<StakeKey, Position>, id: PostId)
    ensures Without(stakes, id, {}) == stakes
  {}

  lemma PartBelow(out: map<Address, Position>, done: set<Address>, a: Address)
    requires a in out && a !in done && forall b :: b in out ==> out[b].amount >= 0
    ensures SumBy(Part(out, done), AmountOf) + out[a].amount <= SumBy(out, AmountOf)
  {
    PartOneMore(out, done, a);
    PartSum(out, done + {a});
  }

  lemma {:induction false} PartSum(out: map<Address, Position>, done: set<Address>)
    requires forall b :: b in out ==> out[b].amount >= 0
    ensures 0 <= SumBy(Part(out, done), AmountOf) <= SumBy(out, AmountOf)
    decreases |out|
  {
    if out == map[] {
      SumEmpty(out, AmountOf);
      SumEmpty(Part(out, done), AmountOf);
    } else {
      var b :| b in out;
      PartSum(out - {b}, done);
      SumRemove(out, b, AmountOf);
      if b in done {
        SumRemove(Part(out, done), b, AmountOf);
        assert Part(out, done) - {b} == Part(out - {b}, done);
      } else {
        assert Part(out, done) == Part(out - {b}, done);
      }
    }
  }

  /** One forced exit: refund, caches, position. */
  method ForceOutOne(ghost p: Params, ws: WorldState, id: PostId, a: Address, amount: Uint64, post: Post)
    returns (next: Post)
    requires NamesMatch(ws.accounts, ws.nameIndex) && a in ws.accounts
    requires var acct := ws.accounts[a];
             && amount <= acct.postStake < TWO64 && 0 <= acct.balance && acct.balance + amount < TWO64
    requires amount <= post.totalStaked < TWO64
    modifies ws
    ensures NamesMatch(ws.accounts, ws.nameIndex)
    ensures var acct := old(ws.accounts[a]);
            ws.View() == old(ws.View()).(
              accounts := old(ws.accounts)[
                a := acct.(balance := acct.balance + amount, postStake := acct.postStake - amount)],
              stakes := old(ws.postStakes) - {StakeKey(id, a)})
    ensures next == post.(totalStaked := post.totalStaked - amount, stakerCount := Wrap(post.stakerCount - 1))
  {
    if a in ws.accounts {
      var acct := ws.accounts[a];
      Store(p, ws, a, acct.(balance := Plus(acct.balance, amount), postStake := Minus(acct.postStake, amount)));
    }
    next := post.(totalStaked := Minus(post.totalStaked, amount), stakerCount := Wrap(post.stakerCount - 1));
    ws.postStakes := ws.postStakes - {StakeKey(id, a)};
  }

  /** The post after the stakers in done have been forced out. */
  ghost function Shrunk(post: Post, out: map<Address, Position>, done: set<Address>): Post {
    post.(totalStaked := post.totalStaked - SumBy(Part(out, done), AmountOf),
          stakerCount := Wrap(post.stakerCount - |done|))
  }

  /** What holds once the stakers in done are out. */
  ghost predicate OutSoFar(ws: WorldState, start: State, id: PostId, post: Post, next: Post,
                           out: map<Address, Position>, done: set<Address>)
    reads ws
  {
    && NamesMatch(ws.accounts, ws.nameIndex)
    && ws.View() == start.(accounts := Refund(start.accounts, Part(out, done)),
                           stakes := Without(start.stakes, id, done))
    && next == Shrunk(post, out, done)
  }

  method ForceOutNext(ghost p: Params, ws: WorldState, ghost start: State, id: PostId, ghost post: Post, current: Post,
                      ghost out: map<Address, Position>, ghost done: set<Address>, a: Address, amount: Uint64)
    returns (next: Post)
    requires OutSoFar(ws, start, id, post, current, out, done) && RefundFits(start.accounts, out)
    requires a in out && a !in done && out[a].amount == amount
    requires SumBy(out, AmountOf) <= post.totalStaked < TWO64
    modifies ws
    ensures OutSoFar(ws, start, id, post, next, out, done + {a})
  {
    RefundOneMore(start.accounts, out, done, a);
    PartBelow(out, done, a);
    PartOneMore(out, done, a);
    WithoutOneMore(start.stakes, id, done, a);
    PartSum(out, done);
    assert |done + {a}| == |done| + 1;
    WrapShift(post.stakerCount - |done|, -1);
    next := ForceOutOne(p, ws, id, a, amount, current);
  }

  /** Forces the given stakers out one by one: whatever the order, everybody is refunded. */
  method ForceOut(ghost p: Params, ws: WorldState, id: PostId, stakers: seq<(Address, Position)>, post: Post,
                  ghost out: map<Address, Position>) returns (next: Post)
    requires NamesMatch(ws.accounts, ws.nameIndex) && Enumerates(stakers, out) && RefundFits(ws.accounts, out)
    requires SumBy(out, AmountOf) <= post.totalStaked < TWO64
    modifies ws
    ensures ws.View() == old(ws.View()).(
      accounts := Refund(old(ws.accounts), out), stakes := Without(old(ws.postStakes), id, out.Keys))
    ensures next == Shrunk(post, out, out.Keys)
  {
    ghost var start := ws.View();
    next := post;
    NobodyOut(ws, start, id, post, out);
    for i := 0 to |stakers|
      invariant OutSoFar(ws, start, id, post, next, out, Firsts(stakers[..i]))
    {
      FirstsStep(stakers, out, i);
      next := ForceOutNext(p, ws, start, id, post, next, out, Firsts(stakers[..i]), stakers[i].0, stakers[i].1.amount);
    }
    assert stakers[..|stakers|] == stakers;
    PaidEverybody(stakers, out, Firsts(stakers));
    WholePart(out);
  }

  lemma NobodyOut(ws: WorldState, start: State, id: PostId, post: Post, out: map<Address, Position>)
    requires ws.View() == start && NamesMatch(ws.accounts, ws.nameIndex)
    ensures OutSoFar(ws, start, id, post, post, out, {})
  {
    RefundNobody(start.accounts, out);
    WithoutNobody(start.stakes, id);
    SumEmpty(Part(out, {}), AmountOf);
  }

  // ---------- The unstake itself ----------

  /** Every amount an unstake touches stays in range. */
  ghost predicate UnstakeFits(s: State, tx: Tx)
    requires tx.sender in s.accounts && StakeKey(tx.postId, tx.sender) in s.stakes && tx.postId in s.posts
  {
    var acct := s.accounts[tx.sender];
    var amount := s.stakes[StakeKey(tx.postId, tx.sender)].amount;
    && 0 <= amount <= acct.postStake < TWO64 && 0 <= acct.balance && acct.balance + amount < TWO64
    && amount <= s.posts[tx.postId].totalStaked < TWO64
    && RefundFits(Left(s, tx), ForcedOut(s, tx))
    && SumBy(ForcedOut(s, tx), AmountOf) <= s.posts[tx.postId].totalStaked - amount
  }

  lemma UnstakeInRange(p: Params, s: State, tx: Tx)
    requires Sound(p, s) && NonceRoom(s, 1)
    requires tx.sender in s.accounts && StakeKey(tx.postId, tx.sender) in s.stakes && tx.postId in s.posts
    ensures UnstakeFits(s, tx)
  {
    LeaversInRange(p, s, tx);
    ForcedOutFacts(s, tx);
    assert LeaverFits(s, tx.postId, tx.sender);
    TotalsInRange(p, s, tx);
  }

  lemma TotalsInRange(p: Params, s: State, tx: Tx)
    requires Sound(p, s) && NonceRoom(s, 1)
    requires tx.sender in s.accounts && StakeKey(tx.postId, tx.sender) in s.stakes && tx.postId in s.posts
    ensures var amount := s.stakes[StakeKey(tx.postId, tx.sender)].amount;
            && amount <= s.posts[tx.postId].totalStaked < TWO64
            && SumBy(ForcedOut(s, tx), AmountOf) <= s.posts[tx.postId].totalStaked - amount
  {
    UnstakePostKeepsInv(p, s, tx);
    PostBound(p, s, tx.postId);
    assert tx.sender in Stakers(s.stakes, tx.postId);
    PostBound(p, Unstaked(s, tx), tx.postId);
  }

  lemma LeaversInRange(p: Params, s: State, tx: Tx)
    requires Sound(p, s) && NonceRoom(s, 1)
    requires tx.sender in s.accounts && StakeKey(tx.postId, tx.sender) in s.stakes && tx.postId in s.posts
    ensures LeaverFits(s, tx.postId, tx.sender)
    ensures forall a :: a in ForcedOut(s, tx) ==> LeaverFits(s, tx.postId, a)
  {
    UnstakePostKeepsInv(p, s, tx);
    UnstakeLeaves(s, tx);
    ForcedOutFacts(s, tx);
    var who := {tx.sender} + ForcedOut(s, tx).Keys;
    forall a | a in who
      ensures LeaverFits(s, tx.postId, a)
    {
      LeaverInRange(p, s, Unstaked(s, tx), tx.postId, who, a);
    }
  }

  /** An address can take its position back without leaving the uint64 range. */
  ghost predicate LeaverFits(s: State, id: PostId, a: Address) {
    && a in s.accounts && StakeKey(id, a) in s.stakes
    && 0 <= s.stakes[StakeKey(id, a)].amount <= s.accounts[a].postStake < TWO64
    && 0 <= s.accounts[a].balance && s.accounts[a].balance + s.stakes[StakeKey(id, a)].amount < TWO64
  }

  lemma LeaverInRange(p: Params, s: State, r: State, id: PostId, who: set<Address>, a: Address)
    requires Sound(p, s) && Sound(p, r) && Leaves(s, r, id, who) && a in who && StakeKey(id, a) in s.stakes
    ensures LeaverFits(s, id, a)
  {
    PositionBound(p, s, StakeKey(id, a));
    AccountBound(s, a);
    AccountBound(r, a);
  }

  /** The sender's own exit. */
  method LeavePost(ghost p: Params, ws: WorldState, tx: Tx)
    requires NamesMatch(ws.accounts, ws.nameIndex) && tx.sender in ws.accounts && tx.postId in ws.posts
    requires StakeKey(tx.postId, tx.sender) in ws.postStakes && UnstakeFits(ws.View(), tx)
    modifies ws
    ensures NamesMatch(ws.accounts, ws.nameIndex)
    ensures ws.View() == old(ws.View()).(
      accounts := Left(old(ws.View()), tx), stakes := Without(old(ws.postStakes), tx.postId, {tx.sender}))
  {
    var key := StakeKey(tx.postId, tx.sender);
    var amount := ws.postStakes[key].amount;
    var sender := ws.accounts[tx.sender];
    WithoutNobody(ws.postStakes, tx.postId);
    WithoutOneMore(ws.postStakes, tx.postId, {}, tx.sender);
    assert {} + {tx.sender} == {tx.sender};
    Store(p, ws, tx.sender, Bumped(sender).(
      balance := Plus(sender.balance, amount), postStake := Minus(sender.postStake, amount)));
    ws.postStakes := ws.postStakes - {key};
  }

  /** The author's exit closes the post and takes everybody along. */
  method ClosePost(ghost p: Params, ws: WorldState, ghost s: State, tx: Tx, post: Post) returns (next: Post)
    requires tx.sender in s.accounts && StakeKey(tx.postId, tx.sender) in s.stakes && tx.postId in s.posts
    requires UnstakeFits(s, tx) && tx.sender == s.posts[tx.postId].author
    requires NamesMatch(ws.accounts, ws.nameIndex)
    requires ws.View() == s.(accounts := Left(s, tx), stakes := Without(s.stakes, tx.postId, {tx.sender}))
    requires post.totalStaked == s.posts[tx.postId].totalStaked - s.stakes[StakeKey(tx.postId, tx.sender)].amount
    modifies ws
    ensures var others := ForcedOut(s, tx);
            && ws.View() == s.(accounts := Refund(Left(s, tx), others),
                               stakes := Without(s.stakes, tx.postId, {tx.sender} + others.Keys))
            && next == Shrunk(post, others, others.Keys)
  {
    ghost var others: map<Address, Position> := ForcedOut(s, tx);
    var stakers := ws.GetPostStakers(tx.postId);
    StakersAfterRemove(s.stakes, tx.postId, {tx.sender}, tx.postId);
    next := ForceOut(p, ws, tx.postId, stakers, post, others);
    WithoutTwice(s.stakes, tx.postId, {tx.sender}, others.Keys);
  }

  lemma WithoutTwice(stakes: map<StakeKey, Position>, id: PostId, a: set<Address>, b: set<Address>)
    ensures Without(Without(stakes, id, a), id, b) == Without(stakes, id, a + b)
  {}

  method ApplyUnstakePostTo(ghost p: Params, ws: WorldState, tx: Tx)
    requires Ready(p, ws.View(), tx) && tx.kind == TX_UNSTAKE_POST
    modifies ws
    ensures ApplyUnstakePost(old(ws.View()), tx) == Some(ws.View())
  {
    UnstakeInRange(p, ws.View(), tx);
    UnstakeBy(p, ws, tx);
  }

  method UnstakeBy(ghost p: Params, ws: WorldState, tx: Tx)
    requires NamesMatch(ws.accounts, ws.nameIndex) && tx.sender in ws.accounts && tx.postId in ws.posts
    requires StakeKey(tx.postId, tx.sender) in ws.postStakes && UnstakeFits(ws.View(), tx)
    modifies ws
    ensures ws.View() == Unstaked(old(ws.View()), tx)
  {
    ghost var s := ws.View();
    var post := ws.posts[tx.postId];
    var amount := ws.postStakes[StakeKey(tx.postId, tx.sender)].amount;
    LeavePost(p, ws, tx);
    post := post.(totalStaked := Minus(post.totalStaked, amount), stakerCount := Wrap(post.stakerCount - 1));
    FinishUnstake(p, ws, s, tx, post);
  }

  /** After the sender's own exit: the author rule, and the post record. */
  method FinishUnstake(ghost p: Params, ws: WorldState, ghost s: State, tx: Tx, left: Post)
    requires tx.sender in s.accounts && StakeKey(tx.postId, tx.sender) in s.stakes && tx.postId in s.posts
    requires UnstakeFits(s, tx) && NamesMatch(ws.accounts, ws.nameIndex)
    requires ws.View() == s.(accounts := Left(s, tx), stakes := Without(s.stakes, tx.postId, {tx.sender}))
    requires OneLess(s, tx, left.(withdrawn := left.withdrawn || tx.sender == left.author))
    modifies ws
    ensures ws.View() == Unstaked(s, tx)
  {
    var post := left;
    if tx.sender == post.author {
      post := post.(withdrawn := true);
      ShrunkIsUnstaked(s, tx, post);
      post := ClosePost(p, ws, s, tx, post);
    } else {
      NobodyForced(s, tx, post);
    }
    ws.posts := ws.posts[tx.postId := post];
  }

  /** The sender's exit, before the author rule: one position less. */
  ghost predicate OneLess(s: State, tx: Tx, post: Post)
    requires StakeKey(tx.postId, tx.sender) in s.stakes && tx.postId in s.posts
  {
    var before := s.posts[tx.postId];
    post == before.(totalStaked := before.totalStaked - s.stakes[StakeKey(tx.postId, tx.sender)].amount,
                    stakerCount := Wrap(before.stakerCount - 1),
                    withdrawn := before.withdrawn || tx.sender == before.author)
  }

  lemma ShrunkIsUnstaked(s: State, tx: Tx, post: Post)
    requires StakeKey(tx.postId, tx.sender) in s.stakes && tx.postId in s.posts && OneLess(s, tx, post)
    ensures Shrunk(post, ForcedOut(s, tx), ForcedOut(s, tx).Keys) == UnstakedPost(s, tx)
  {
    WrapShift(s.posts[tx.postId].stakerCount - 1, -|ForcedOut(s, tx)|);
    WholePart(ForcedOut(s, tx));
  }

  lemma NobodyForced(s: State, tx: Tx, post: Post)
    requires tx.sender in s.accounts && StakeKey(tx.postId, tx.sender) in s.stakes && tx.postId in s.posts
    requires tx.sender != s.posts[tx.postId].author && OneLess(s, tx, post)
    ensures Refund(Left(s, tx), ForcedOut(s, tx)) == Left(s, tx)
    ensures {tx.sender} + ForcedOut(s, tx).Keys == {tx.sender}
    ensures post == UnstakedPost(s, tx)
  {
    SumEmpty(ForcedOut(s, tx), AmountOf);
  }
}
