/** Each kind of transaction keeps the ledger invariant and accounts for every unit it moves. */
module Steps {
  import opened Words
  import opened Types
  import opened Sums
  import opened Ledger
  import opened Invariant

  /** Paying many accounts at once adds exactly the sum of the payments. */
  lemma {:induction false} PayAllTotal(accounts: map<Address, Account>, credits: map<Address, int>)
    requires credits.Keys <= accounts.Keys
    ensures SumBy(PayAll(accounts, credits), Holdings) == SumBy(accounts, Holdings) + SumBy(credits, Itself)
    decreases |credits|
  {
    if credits == map[] {
      SumEmpty(credits, Itself);
      assert PayAll(accounts, credits) == accounts;
    } else {
      var a :| a in credits;
      SumRemove(credits, a, Itself);
      PayAllTotal(accounts, credits - {a});
      PayOne(accounts, credits, a);
      SumUpdate(PayAll(accounts, credits - {a}), a, PayAll(accounts, credits)[a], Holdings);
    }
  }

  lemma PayOne(accounts: map<Address, Account>, credits: map<Address, int>, a: Address)
    requires a in credits && a in accounts
    ensures var before, after := PayAll(accounts, credits - {a}), PayAll(accounts, credits);
            && a in before && after == before[a := after[a]]
            && Holdings(after[a]) == Holdings(before[a]) + credits[a]
  {}

  /** The requirements on a spender that validation establishes. */
  predicate CanSpend(s: State, a: Address, amount: int) {
    a in s.accounts && 0 <= amount <= s.accounts[a].balance
  }

  lemma TransferKeepsInv(p: Params, s: State, tx: Tx)
    requires Inv(p, s) && NonceRoom(s, 1) && CanSpend(s, tx.sender, tx.amount)
    ensures Inv(p, ApplyTransfer(s, tx).value)
  {
    var debited := Debited(s, tx.sender, tx.amount);
    DebitKeepsInv(p, s, tx.sender, tx.amount);
    CreditKeepsInv(p, debited, tx.recipient, tx.amount);
    assert ApplyTransfer(s, tx).value == debited.(accounts := Credit(debited.accounts, tx.recipient, tx.amount));
  }

  function Debited(s: State, a: Address, x: int): State
    requires a in s.accounts
  {
    s.(accounts := s.accounts[a := Bumped(s.accounts[a]).(balance := s.accounts[a].balance - x)])
  }

  lemma DebitKeepsInv(p: Params, s: State, a: Address, x: int)
    requires Inv(p, s) && NonceRoom(s, 1) && CanSpend(s, a, x)
    ensures Inv(p, Debited(s, a, x))
  {
    GrowsKeepsInv(p, s, Debited(s, a, x));
  }

  lemma CreditKeepsInv(p: Params, s: State, a: Address, x: nat)
    requires Inv(p, s)
    ensures Inv(p, s.(accounts := Credit(s.accounts, a, x)))
  {
    GrowsKeepsInv(p, s, s.(accounts := Credit(s.accounts, a, x)));
  }

  lemma TransferWealth(s: State, tx: Tx)
    requires CanSpend(s, tx.sender, tx.amount)
    ensures Wealth(ApplyTransfer(s, tx).value) == Wealth(s)
  {
    var sender := s.accounts[tx.sender];
    var debited := Bumped(sender).(balance := sender.balance - tx.amount);
    SumUpdate(s.accounts, tx.sender, debited, Holdings);
    CreditFacts(s.accounts[tx.sender := debited], tx.recipient, tx.amount);
  }

  lemma StakeKeepsInv(p: Params, s: State, tx: Tx)
    requires Inv(p, s) && NonceRoom(s, 1) && CanSpend(s, tx.sender, tx.amount)
    ensures Inv(p, ApplyStake(s, tx).value)
  {
    GrowsKeepsInv(p, s, ApplyStake(s, tx).value);
  }

  lemma StakeWealth(s: State, tx: Tx)
    requires CanSpend(s, tx.sender, tx.amount)
    ensures Wealth(ApplyStake(s, tx).value) == Wealth(s)
  {
    SumUpdate(s.accounts, tx.sender, ApplyStake(s, tx).value.accounts[tx.sender], Holdings);
  }

  lemma UnstakeKeepsInv(p: Params, s: State, tx: Tx, h: Uint64)
    requires Inv(p, s) && NonceRoom(s, 1)
    requires tx.sender in s.accounts && s.accounts[tx.sender].staked >= tx.amount > 0
    ensures Inv(p, ApplyUnstake(p, s, tx, h).value)
  {
    GrowsKeepsInv(p, s, ApplyUnstake(p, s, tx, h).value);
  }

  lemma UnstakeWealth(p: Params, s: State, tx: Tx, h: Uint64)
    requires tx.sender in s.accounts && s.accounts[tx.sender].staked >= tx.amount
    ensures Wealth(ApplyUnstake(p, s, tx, h).value) == Wealth(s)
  {
    var t := ApplyUnstake(p, s, tx, h).value;
    SumUpdate(s.accounts, tx.sender, t.accounts[tx.sender], Holdings);
    assert t.queue[..|t.queue| - 1] == s.queue;
  }

  lemma RegisterNameKeepsInv(p: Params, s: State, tx: Tx)
    requires Inv(p, s) && NonceRoom(s, 1)
    requires tx.sender in s.accounts && s.accounts[tx.sender].name == [] && tx.text != [] && tx.text !in s.names
    ensures Inv(p, ApplyRegisterName(s, tx).value)
  {
    var bumped := s.(accounts := s.accounts[tx.sender := Bumped(s.accounts[tx.sender])]);
    GrowsKeepsInv(p, s, bumped);
    NamingKeepsInv(p, bumped, ApplyRegisterName(s, tx).value, tx.sender, tx.text);
  }

  lemma RegisterNameWealth(s: State, tx: Tx)
    requires tx.sender in s.accounts
    ensures Wealth(ApplyRegisterName(s, tx).value) == Wealth(s)
  {
    SumUpdate(s.accounts, tx.sender, ApplyRegisterName(s, tx).value.accounts[tx.sender], Holdings);
  }

  lemma NamingKeepsInv(p: Params, s: State, t: State, a: Address, n: Bytes)
    requires Inv(p, s) && a in s.accounts && s.accounts[a].name == [] && n != [] && n !in s.names
    requires t == s.(accounts := s.accounts[a := s.accounts[a].(name := n)], names := s.names[n := a])
    ensures Inv(p, t)
  {
    forall b | b in t.accounts
      ensures AccountAgrees(t.stakes, b, t.accounts[b])
    {
      assert AccountAgrees(s.stakes, b, s.accounts[b]);
    }
    KeptAuthored(p, s, t);
    NewName(s.accounts, s.names, a, n);
  }

  lemma NewName(accounts: map<Address, Account>, names: map<Bytes, Address>, a: Address, n: Bytes)
    requires NamesMatch(accounts, names) && a in accounts && accounts[a].name == [] && n != [] && n !in names
    ensures NamesMatch(accounts[a := accounts[a].(name := n)], names[n := a])
  {
    var accounts' := accounts[a := accounts[a].(name := n)];
    var names' := names[n := a];
    forall m | m in names'
      ensures NameResolves(accounts', names', m)
    {
      assert m != n ==> NameResolves(accounts, names, m);
    }
    forall b | b in accounts'
      ensures NameIndexed(accounts', names', b)
    {
      assert NameIndexed(accounts, names, b);
    }
  }

  // ---------- Creating a post ----------

  /** A derived post id is always new. */
  lemma FreshPostId(p: Params, s: State, a: Address)
    requires Inv(p, s) && NonceRoom(s, 1) && PostIdsDistinct(p) && a in s.accounts
    ensures p.postId(a, Wrap(s.accounts[a].nonce + 1)) !in s.posts
    ensures Stakers(s.stakes, p.postId(a, Wrap(s.accounts[a].nonce + 1))) == map[]
  {
    var id := p.postId(a, Wrap(s.accounts[a].nonce + 1));
    assert id !in s.posts by {
      assert id in s.posts ==> AuthoredPost(p, s, id);
    }
    assert forall b: Address :: b in Stakers(s.stakes, id) ==> StakeKey(id, b).post in s.posts;
  }

  lemma CreatePostKeepsInv(p: Params, s: State, tx: Tx, fee: Uint64, h: Uint64, t: Int64)
    requires Inv(p, s) && NonceRoom(s, 1) && PostIdsDistinct(p)
    requires CanSpend(s, tx.sender, tx.amount) && fee < tx.amount
    ensures Inv(p, Created(p, s, tx, fee, h, t))
  {
    FreshPostId(p, s, tx.sender);
    var nonce := Wrap(s.accounts[tx.sender].nonce + 1);
    NewPostKeepsInv(p, s, Created(p, s, tx, fee, h, t), p.postId(tx.sender, nonce), tx.sender, nonce, fee);
  }

  /** Opening a fresh post with one position of its author. */
  lemma NewPostKeepsInv(p: Params, s: State, r: State, id: PostId, a: Address, nonce: Uint64, fee: nat)
    requires Inv(p, s) && a in s.accounts && s.accounts[a].nonce < nonce && 1 <= nonce
    requires id !in s.posts && Stakers(s.stakes, id) == map[] && id == p.postId(a, nonce)
    requires id in r.posts && StakeKey(id, a) in r.stakes && a in r.accounts
    requires r == s.(accounts := s.accounts[a := r.accounts[a]], posts := s.posts[id := r.posts[id]],
                     stakes := s.stakes[StakeKey(id, a) := r.stakes[StakeKey(id, a)]], burned := s.burned + fee)
    requires var post, x := r.posts[id], r.stakes[StakeKey(id, a)];
             && post.author == a && post.totalStaked == x.amount >= 1 && post.stakerCount == 1 && !post.withdrawn
             && post.totalBurned == fee
             && r.accounts[a].postStake == s.accounts[a].postStake + x.amount
    requires r.accounts[a].nonce == nonce && r.accounts[a].name == s.accounts[a].name
    requires r.accounts[a].balance >= 0 && r.accounts[a].staked >= 0
    ensures Inv(p, r)
  {
    SumUpdate(s.posts, id, r.posts[id], BurnedOn);
    CreatedPostsAgree(s, r, id, a);
    AccountsAfterSet(s, r, StakeKey(id, a));
    var kept := r.(posts := s.posts);
    KeptAuthored(p, s, kept);
    forall q | q in r.posts
      ensures AuthoredPost(p, r, q)
    {
      assert q != id ==> AuthoredPost(p, kept, q);
    }
    KeptNames(s, r);
  }

  lemma CreatePostWealth(p: Params, s: State, tx: Tx, fee: Uint64, h: Uint64, t: Int64)
    requires CanSpend(s, tx.sender, tx.amount)
    ensures Wealth(Created(p, s, tx, fee, h, t)) == Wealth(s)
  {
    SumUpdate(s.accounts, tx.sender, Created(p, s, tx, fee, h, t).accounts[tx.sender], Holdings);
  }

  lemma KeptNames(s: State, r: State)
    requires NamesAgree(s) && r.names == s.names && r.accounts.Keys == s.accounts.Keys
    requires forall a :: a in s.accounts ==> r.accounts[a].name == s.accounts[a].name
    ensures NamesAgree(r)
  {
    forall n | n in r.names
      ensures NameResolves(r.accounts, r.names, n)
    {
      assert NameResolves(s.accounts, s.names, n);
    }
    forall b | b in r.accounts
      ensures NameIndexed(r.accounts, r.names, b)
    {
      assert NameIndexed(s.accounts, s.names, b);
    }
  }

  lemma CreatedPostsAgree(s: State, r: State, id: PostId, a: Address)
    requires PostsAgree(s) && Stakers(s.stakes, id) == map[]
    requires StakeKey(id, a) in r.stakes && r.stakes == s.stakes[StakeKey(id, a) := r.stakes[StakeKey(id, a)]]
    requires id in r.posts && r.posts == s.posts[id := r.posts[id]]
    requires var post, x := r.posts[id], r.stakes[StakeKey(id, a)];
             post.author == a && post.totalStaked == x.amount >= 1 && post.stakerCount == 1 && !post.withdrawn
    ensures PostsAgree(r)
  {
    var x := r.stakes[StakeKey(id, a)];
    forall q | q in r.posts
      ensures PostAgrees(r.stakes, q, r.posts[q])
    {
      StakersAfterSet(s.stakes, StakeKey(id, a), x, q);
      if q == id {
        assert Stakers(r.stakes, id) == map[a := x];
        SumEmpty(Stakers(s.stakes, id), AmountOf);
        SumUpdate(Stakers(s.stakes, id), a, x, AmountOf);
      } else {
        assert PostAgrees(s.stakes, q, s.posts[q]);
      }
    }
  }

  /** Setting one position and moving its owner's cache by the same amount keeps all account caches right. */
  lemma AccountsAfterSet(s: State, r: State, key: StakeKey)
    requires AccountsAgree(s) && key in r.stakes && r.stakes == s.stakes[key := r.stakes[key]]
    requires s.accounts.Keys == r.accounts.Keys
    requires forall a :: a in s.accounts && a != key.staker ==> r.accounts[a].postStake == s.accounts[a].postStake
    requires key.staker in s.accounts
    requires r.accounts[key.staker].postStake == s.accounts[key.staker].postStake
             + r.stakes[key].amount - (if key in s.stakes then s.stakes[key].amount else 0)
    ensures AccountsAgree(r)
  {
    forall a | a in r.accounts
      ensures AccountAgrees(r.stakes, a, r.accounts[a])
    {
      assert AccountAgrees(s.stakes, a, s.accounts[a]);
      PositionsAfterSet(s.stakes, key, r.stakes[key], a);
      if a == key.staker {
        SumUpdate(Positions(s.stakes, a), key.post, r.stakes[key], AmountOf);
      }
    }
  }

  /** Posts other than fresh ones keep their author and origin as long as nonces do not shrink. */
  lemma KeptAuthored(p: Params, s: State, r: State)
    requires Authored(p, s)
    requires forall a :: a in s.accounts ==> a in r.accounts && s.accounts[a].nonce <= r.accounts[a].nonce
    requires forall q :: q in r.posts ==> q in s.posts && r.posts[q].author == s.posts[q].author
    ensures Authored(p, r)
  {
    forall q | q in r.posts
      ensures AuthoredPost(p, r, q)
    {
      assert AuthoredPost(p, s, q);
    }
  }
}
