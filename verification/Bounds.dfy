/** Every amount in a sound state is bounded by the total wealth, which is what keeps uint64 arithmetic exact. */
module Bounds {
  import opened Words
  import opened Types
  import opened Sums
  import opened Ledger
  import opened Invariant
  import opened Slashing
  import opened PostSteps

  lemma {:induction false} QueueTotalNonNegative(q: seq<Unbonding>)
    requires forall i :: 0 <= i < |q| ==> q[i].amount >= 0
    ensures QueueTotal(q) >= 0
    ensures forall i :: 0 <= i < |q| ==> q[i].amount <= QueueTotal(q)
  {
    if q != [] {
      QueueTotalNonNegative(q[..|q| - 1]);
      assert forall i :: 0 <= i < |q| - 1 ==> q[i] == q[..|q| - 1][i];
    }
  }

  lemma AccountBound(s: State, a: Address)
    requires NonNegative(s) && a in s.accounts
    ensures Holdings(s.accounts[a]) <= Wealth(s)
    ensures 0 <= s.accounts[a].balance <= Wealth(s)
    ensures 0 <= s.accounts[a].staked <= Wealth(s)
    ensures 0 <= s.accounts[a].postStake <= Wealth(s)
  {
    SumBounds(s.accounts, Holdings);
    QueueTotalNonNegative(s.queue);
  }

  lemma SupplyBound(s: State)
    requires NonNegative(s)
    ensures 0 <= s.burned <= Wealth(s) && 0 <= QueueTotal(s.queue) <= Wealth(s)
  {
    SumBounds(s.accounts, Holdings);
    QueueTotalNonNegative(s.queue);
  }

  lemma AtRiskBound(s: State, a: Address)
    requires NonNegative(s) && a in s.accounts
    ensures 0 <= QueueFor(s.queue, a) && 0 <= AtRisk(s, a) <= Wealth(s)
  {
    SumBounds(s.accounts, Holdings);
    QueueForBounds(s.queue, a);
    SupplyBound(s);
  }

  /** Amounts held by distinct accounts, each within its account, add up to at most all accounts. */
  lemma {:induction false} PartOfAccounts(part: map<Address, Position>, accounts: map<Address, Account>)
    requires part.Keys <= accounts.Keys
    requires forall a :: a in accounts ==> Holdings(accounts[a]) >= 0
    requires forall a :: a in part ==> part[a].amount <= Holdings(accounts[a])
    ensures SumBy(part, AmountOf) <= SumBy(accounts, Holdings)
    decreases |part|
  {
    if part == map[] {
      SumEmpty(part, AmountOf);
      SumBounds(accounts, Holdings);
    } else {
      var a :| a in part;
      SumRemove(part, a, AmountOf);
      SumRemove(accounts, a, Holdings);
      PartOfAccounts(part - {a}, accounts - {a});
    }
  }

  lemma PositionBound(p: Params, s: State, key: StakeKey)
    requires Inv(p, s) && key in s.stakes
    ensures key.staker in s.accounts
    ensures 0 <= s.stakes[key].amount <= s.accounts[key.staker].postStake
  {
    assert AccountAgrees(s.stakes, key.staker, s.accounts[key.staker]);
    var mine: map<PostId, Position> := Positions(s.stakes, key.staker);
    assert StakeKey(key.post, key.staker) == key;
    assert forall id :: id in mine ==> mine[id].amount >= 0;
    SumBounds(mine, AmountOf);
    assert key.post in mine && mine[key.post] == s.stakes[key];
    assert AmountOf(mine[key.post]) <= SumBy(mine, AmountOf);
  }

  lemma PostBound(p: Params, s: State, id: PostId)
    requires Inv(p, s) && id in s.posts
    ensures 0 <= s.posts[id].totalStaked <= Wealth(s)
    ensures 0 <= s.posts[id].totalBurned <= Wealth(s)
    ensures forall a :: a in Stakers(s.stakes, id) ==> 0 <= Stakers(s.stakes, id)[a].amount <= s.posts[id].totalStaked
  {
    assert PostAgrees(s.stakes, id, s.posts[id]);
    var on: map<Address, Position> := Stakers(s.stakes, id);
    StakersAreAccounts(s, id);
    forall a | a in on
      ensures 0 <= on[a].amount <= Holdings(s.accounts[a])
    {
      PositionBound(p, s, StakeKey(id, a));
    }
    PartOfAccounts(on, s.accounts);
    SumBounds(on, AmountOf);
    SupplyBound(s);
    SumBounds(s.posts, BurnedOn);
  }

  /** What each account holds on posts, straight from the positions. */
  ghost function HeldBy(stakes: map<StakeKey, Position>, who: set<Address>): map<Address, int> {
    map a | a in who :: SumBy(Positions(stakes, a), AmountOf)
  }

  lemma HoldsOneMore(rest: map<StakeKey, Position>, k: StakeKey, x: Position, a: Address)
    requires k !in rest
    ensures SumBy(Positions(rest[k := x], a), AmountOf)
            == SumBy(Positions(rest, a), AmountOf) + if a == k.staker then x.amount else 0
  {
    PositionsAfterSet(rest, k, x, a);
    assert a == k.staker ==> StakeKey(k.post, a) == k;
    SumUpdate(Positions(rest, a), k.post, x, AmountOf);
  }

  lemma HeldWithOneMore(rest: map<StakeKey, Position>, who: set<Address>, k: StakeKey, x: Position)
    requires k !in rest && k.staker in who
    ensures SumBy(HeldBy(rest[k := x], who), Itself) == SumBy(HeldBy(rest, who), Itself) + x.amount
  {
    var before: map<Address, int> := HeldBy(rest, who);
    var after: map<Address, int> := HeldBy(rest[k := x], who);
    forall a | a in who
      ensures after[a] == before[a] + if a == k.staker then x.amount else 0
    {
      HoldsOneMore(rest, k, x, a);
    }
    OneBigger(before, after, k.staker, x.amount);
  }

  lemma OneBigger(before: map<Address, int>, after: map<Address, int>, a: Address, x: int)
    requires before.Keys == after.Keys && a in before
    requires forall b :: b in before ==> after[b] == before[b] + if b == a then x else 0
    ensures SumBy(after, Itself) == SumBy(before, Itself) + x
  {
    assert after == before[a := before[a] + x];
    SumUpdate(before, a, before[a] + x, Itself);
  }

  /** Positions counted by account are the positions counted one by one. */
  lemma {:induction false} HeldTotal(stakes: map<StakeKey, Position>, who: set<Address>)
    requires forall k :: k in stakes ==> k.staker in who
    ensures SumBy(HeldBy(stakes, who), Itself) == SumBy(stakes, AmountOf)
    decreases |stakes|
  {
    if stakes == map[] {
      NothingHeld(stakes, who);
    } else {
      var k :| k in stakes;
      SumRemove(stakes, k, AmountOf);
      HeldTotal(stakes - {k}, who);
      PutBack(stakes, k);
      HeldWithOneMore(stakes - {k}, who, k, stakes[k]);
    }
  }

  lemma PutBack(stakes: map<StakeKey, Position>, k: StakeKey)
    requires k in stakes
    ensures (stakes - {k})[k := stakes[k]] == stakes
  {}

  lemma NothingHeld(stakes: map<StakeKey, Position>, who: set<Address>)
    requires stakes == map[]
    ensures SumBy(HeldBy(stakes, who), Itself) == 0 && SumBy(stakes, AmountOf) == 0
  {
    SumEmpty(stakes, AmountOf);
    forall a | a in who
      ensures HeldBy(stakes, who)[a] == 0
    {
      SumEmpty(Positions(stakes, a), AmountOf);
    }
    SumZero(HeldBy(stakes, who));
  }

  function PostStakeOf(a: Account): int { a.postStake }

  /** In a reachable state all positions together are worth what the accounts' post-stake balances say. */
  lemma PositionsEqualCaches(p: Params, s: State)
    requires Inv(p, s)
    ensures SumBy(s.stakes, AmountOf) == SumBy(s.accounts, PostStakeOf)
  {
    HeldTotal(s.stakes, s.accounts.Keys);
    var held: map<Address, int> := HeldBy(s.stakes, s.accounts.Keys);
    forall a | a in s.accounts
      ensures PostStakeOf(s.accounts[a]) == Itself(held[a])
    {
      assert AccountAgrees(s.stakes, a, s.accounts[a]);
    }
    SumPointwise(s.accounts, PostStakeOf, held, Itself);
  }
}
