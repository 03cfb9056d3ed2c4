/** What every reachable world state satisfies, and that each kind of step keeps it. */
module Invariant {
  import opened Words
  import opened Types
  import opened Sums
  import opened Ledger

  /** The parameter ranges the ledger relies on; the genesis loader reads them without a check. */
  predicate GoodParams(p: Params) {
    && p.postFeePercent < 100
    && p.boostBurnPercent + p.boostAuthorPercent + p.boostStakerPercent <= 100
    && p.slashPercent <= 100
    && p.minPostCommitment >= 1
  }

  /** Post ids are derived by a hash that does not collide on (address, nonce) pairs. */
  ghost predicate PostIdsDistinct(p: Params) {
    forall a: Address, n: Uint64, b: Address, m: Uint64 ::
      p.postId(a, n) == p.postId(b, m) ==> a == b && n == m
  }

  ghost predicate NonNegative(s: State) {
    && (forall a :: a in s.accounts ==>
          s.accounts[a].balance >= 0 && s.accounts[a].staked >= 0 && s.accounts[a].postStake >= 0
          && 0 <= s.accounts[a].nonce < TWO64)
    && (forall id :: id in s.posts ==> s.posts[id].totalBurned >= 0)
    && (forall k :: k in s.stakes ==> s.stakes[k].amount >= 0)
    && (forall i :: 0 <= i < |s.queue| ==> s.queue[i].amount > 0)
    && s.burned >= 0 && s.issued >= 0
  }

  /** Positions belong to known posts and known accounts. */
  ghost predicate PositionsRooted(s: State) {
    forall k :: k in s.stakes ==> k.post in s.posts && k.staker in s.accounts
  }

  /** A post's caches agree with its positions, and it is open exactly while its author holds one. */
  ghost predicate PostAgrees(stakes: map<StakeKey, Position>, id: PostId, post: Post) {
    var on := Stakers(stakes, id);
    && post.totalStaked == SumBy(on, AmountOf)
    && post.stakerCount == Wrap(|on|)
    && (post.withdrawn ==> on == map[])
    && (!post.withdrawn ==> post.author in on && on[post.author].amount >= 1)
  }

  ghost predicate PostsAgree(s: State) {
    PostsMatch(s.stakes, s.posts)
  }

  ghost predicate PostsMatch(stakes: map<StakeKey, Position>, posts: map<PostId, Post>) {
    forall id {:trigger PostAgrees(stakes, id, posts[id])} :: id in posts ==> PostAgrees(stakes, id, posts[id])
  }

  ghost predicate AccountAgrees(stakes: map<StakeKey, Position>, a: Address, acct: Account) {
    acct.postStake == SumBy(Positions(stakes, a), AmountOf)
  }

  ghost predicate AccountsAgree(s: State) {
    forall a {:trigger AccountAgrees(s.stakes, a, s.accounts[a])} ::
      a in s.accounts ==> AccountAgrees(s.stakes, a, s.accounts[a])
  }

  /** Every post was created by a transaction its author has already spent. */
  ghost predicate Authored(p: Params, s: State) {
    forall id {:trigger AuthoredPost(p, s, id)} :: id in s.posts ==> AuthoredPost(p, s, id)
  }

  ghost predicate AuthoredPost(p: Params, s: State, id: PostId)
    requires id in s.posts
  {
    var author := s.posts[id].author;
    author in s.accounts && Minted(p, id, author, s.accounts[author].nonce)
  }

  ghost predicate Minted(p: Params, id: PostId, author: Address, nonce: int) {
    exists n: Uint64 :: 1 <= n <= nonce && id == p.postId(author, n)
  }

  /** The name index is exactly the inverse of the account names. */
  ghost predicate NamesAgree(s: State) {
    NamesMatch(s.accounts, s.names)
  }

  ghost predicate NamesMatch(accounts: map<Address, Account>, names: map<Bytes, Address>) {
    && (forall n {:trigger NameResolves(accounts, names, n)} :: n in names ==> NameResolves(accounts, names, n))
    && (forall a {:trigger NameIndexed(accounts, names, a)} :: a in accounts ==> NameIndexed(accounts, names, a))
  }

  ghost predicate NameResolves(accounts: map<Address, Account>, names: map<Bytes, Address>, n: Bytes)
    requires n in names
  {
    n != [] && names[n] in accounts && accounts[names[n]].name == n
  }

  ghost predicate NameIndexed(accounts: map<Address, Account>, names: map<Bytes, Address>, a: Address)
    requires a in accounts
  {
    var n := accounts[a].name;
    n != [] ==> n in names && names[n] == a
  }

  ghost predicate BurnsAgree(s: State) {
    SumBy(s.posts, BurnedOn) <= s.burned
  }

  ghost predicate Inv(p: Params, s: State) {
    && NonNegative(s)
    && PositionsRooted(s)
    && PostsAgree(s)
    && AccountsAgree(s)
    && Authored(p, s)
    && NamesAgree(s)
    && BurnsAgree(s)
  }

  /** Everything there is: balances, stakes, post stakes, unbonding and burned. */
  ghost function Wealth(s: State): int {
    SumBy(s.accounts, Holdings) + QueueTotal(s.queue) + s.burned
  }

  /** No account is about to run through the whole nonce range within the next k transactions. */
  ghost predicate NonceRoom(s: State, k: nat) {
    forall a :: a in s.accounts ==> s.accounts[a].nonce + k < TWO64
  }

  // ---------- Steps that leave posts and positions alone ----------

  /** How accounts may change in a step that touches no post, position or name. */
  ghost predicate Grows(before: map<Address, Account>, after: map<Address, Account>) {
    && (forall a :: a in before ==> a in after && after[a].postStake == before[a].postStake
                                    && after[a].name == before[a].name && before[a].nonce <= after[a].nonce)
    && (forall a :: a in after && a !in before ==> after[a].postStake == 0 && after[a].name == [])
  }

  lemma NoPositions(s: State, a: Address)
    requires PositionsRooted(s) && a !in s.accounts
    ensures Positions(s.stakes, a) == map[]
  {
    assert forall id: PostId :: id in Positions(s.stakes, a) ==> StakeKey(id, a).staker in s.accounts;
  }

  lemma GrowsKeepsInv(p: Params, s: State, t: State)
    requires Inv(p, s)
    requires t.posts == s.posts && t.stakes == s.stakes && t.names == s.names
    requires Grows(s.accounts, t.accounts)
    requires NonNegative(t) && s.burned <= t.burned
    ensures Inv(p, t)
  {
    forall a | a in t.accounts
      ensures AccountAgrees(t.stakes, a, t.accounts[a])
    {
      if a !in s.accounts {
        NoPositions(s, a);
        SumEmpty(Positions(s.stakes, a), AmountOf);
      } else {
        assert AccountAgrees(s.stakes, a, s.accounts[a]);
      }
    }
    forall id | id in t.posts
      ensures AuthoredPost(p, t, id)
    {
      assert AuthoredPost(p, s, id);
    }
    forall n | n in t.names
      ensures NameResolves(t.accounts, t.names, n)
    {
      assert NameResolves(s.accounts, s.names, n);
    }
    forall a | a in t.accounts
      ensures NameIndexed(t.accounts, t.names, a)
    {
      assert a in s.accounts ==> NameIndexed(s.accounts, s.names, a);
    }
  }

  lemma GrowsTransitive(a: map<Address, Account>, b: map<Address, Account>, c: map<Address, Account>)
    requires Grows(a, b) && Grows(b, c)
    ensures Grows(a, c)
  {}

  /** A credit opens or enlarges one account and adds exactly its amount to the total. */
  lemma CreditFacts(accounts: map<Address, Account>, a: Address, x: int)
    ensures Grows(accounts, Credit(accounts, a, x))
    ensures SumBy(Credit(accounts, a, x), Holdings) == SumBy(accounts, Holdings) + x
  {
    var prior := if a in accounts then accounts[a] else NEW_ACCOUNT;
    SumUpdate(accounts, a, prior.(balance := prior.balance + x), Holdings);
  }

  // ---------- Shape of stake sub-maps under updates ----------

  lemma StakersAfterSet(stakes: map<StakeKey, Position>, key: StakeKey, x: Position, id: PostId)
    ensures Stakers(stakes[key := x], id)
            == if id == key.post then Stakers(stakes, id)[key.staker := x] else Stakers(stakes, id)
  {
    var l := Stakers(stakes[key := x], id);
    var r := if id == key.post then Stakers(stakes, id)[key.staker := x] else Stakers(stakes, id);
    forall a: Address
      ensures a in l <==> a in r
      ensures a in l ==> l[a] == r[a]
    {
      assert StakeKey(id, a) == key <==> id == key.post && a == key.staker;
    }
  }

  lemma PositionsAfterSet(stakes: map<StakeKey, Position>, key: StakeKey, x: Position, a: Address)
    ensures Positions(stakes[key := x], a)
            == if a == key.staker then Positions(stakes, a)[key.post := x] else Positions(stakes, a)
  {
    var l := Positions(stakes[key := x], a);
    var r := if a == key.staker then Positions(stakes, a)[key.post := x] else Positions(stakes, a);
    forall id: PostId
      ensures id in l <==> id in r
      ensures id in l ==> l[id] == r[id]
    {
      assert StakeKey(id, a) == key <==> id == key.post && a == key.staker;
    }
  }

  lemma StakersAfterRemove(stakes: map<StakeKey, Position>, gone: PostId, who: set<Address>, id: PostId)
    ensures Stakers(Without(stakes, gone, who), id)
            == if id == gone then Stakers(stakes, id) - who else Stakers(stakes, id)
  {
    var l := Stakers(Without(stakes, gone, who), id);
    var r := if id == gone then Stakers(stakes, id) - who else Stakers(stakes, id);
    forall a: Address
      ensures a in l <==> a in r
      ensures a in l ==> l[a] == r[a]
    {
      assert StakeKey(id, a).post == id && StakeKey(id, a).staker == a;
    }
  }

  lemma PositionsAfterRemove(stakes: map<StakeKey, Position>, gone: PostId, who: set<Address>, a: Address)
    ensures Positions(Without(stakes, gone, who), a)
            == if a in who then Positions(stakes, a) - {gone} else Positions(stakes, a)
  {
    var l := Positions(Without(stakes, gone, who), a);
    var r := if a in who then Positions(stakes, a) - {gone} else Positions(stakes, a);
    forall id: PostId
      ensures id in l <==> id in r
      ensures id in l ==> l[id] == r[id]
    {
      assert StakeKey(id, a).post == id && StakeKey(id, a).staker == a;
    }
  }
}
