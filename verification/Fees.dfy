/** Fee splits and pro-rata rewards: nothing is paid twice, and what rounding leaves over is bounded. */
module Fees {
  import opened Words
  import opened Types
  import opened SafeMath
  import opened Sums
  import opened Ledger
  import opened Invariant

  /** Creating a post burns less than it commits, so the author always holds a real position. */
  lemma PostFeeFits(p: Params, amount: Uint64)
    requires GoodParams(p) && amount >= 1
    ensures 0 <= PostFee(p, amount) < amount
  {
    var pct := if p.postFeePercent == 0 then 6 else p.postFeePercent;
    MulDivFraction(amount, pct, 100);
    MulMonotone(amount, pct, 99);
  }

  /** The three boost fees together never exceed the boost. */
  lemma BoostSplitFits(p: Params, amount: Uint64)
    requires GoodParams(p)
    ensures var split := BoostSplit(p, amount); split.burn + split.author + split.stakers <= amount
  {
    if p.boostBurnPercent == 0 && p.boostAuthorPercent == 0 && p.boostStakerPercent == 0 {
      ThreeFractions(amount, 3, 2, 1);
    } else {
      ThreeFractions(amount, p.boostBurnPercent, p.boostAuthorPercent, p.boostStakerPercent);
    }
  }

  lemma ThreeFractions(amount: Uint64, x: Uint64, y: Uint64, z: Uint64)
    requires x + y + z <= 100
    ensures MulDiv(amount, x, 100) + MulDiv(amount, y, 100) + MulDiv(amount, z, 100) <= amount
  {
    MulDivFraction(amount, x, 100);
    MulDivFraction(amount, y, 100);
    MulDivFraction(amount, z, 100);
    assert amount * x + amount * y + amount * z == amount * (x + y + z);
    MulMonotone(amount, x + y + z, 100);
  }

  /** What flooring the shares of a staker reward leaves unpaid. The code gives it to nobody. */
  ghost function ShareDust(s: State, id: PostId, reward: int): int
    requires id in s.posts
  {
    if s.posts[id].totalStaked > 0
    then reward - SumBy(Shares(Stakers(s.stakes, id), reward, s.posts[id].totalStaked), Itself)
    else 0
  }

  ghost function TxDust(p: Params, s: State, tx: Tx): int {
    if tx.kind == TX_BOOST_POST && tx.postId in s.posts
    then ShareDust(s, tx.postId, BoostSplit(p, tx.amount).stakers) else 0
  }

  // ---------- Pro-rata division ----------

  lemma OneShare(reward: nat, amount: nat, total: int)
    requires total > 0
    ensures reward * amount / total >= 0
  {
    MulMonotone(reward, 0, amount);
    DivBounds(reward * amount, total, 0);
  }

  /** What the floor of each share leaves over, in units of one share divided by total. */
  function Remainders(stakers: map<Address, Position>, reward: int, total: int): map<Address, int>
    requires total > 0
  {
    map a | a in stakers :: reward * stakers[a].amount % total
  }

  /** Nothing disappears in the division itself: quotients and remainders make up the whole. */
  lemma {:induction false} SharesAndRemainders(stakers: map<Address, Position>, reward: int, total: int)
    requires total > 0
    ensures reward * SumBy(stakers, AmountOf)
            == total * SumBy(Shares(stakers, reward, total), Itself) + SumBy(Remainders(stakers, reward, total), Itself)
    decreases |stakers|
  {
    var shares: map<Address, int> := Shares(stakers, reward, total);
    var rest: map<Address, int> := Remainders(stakers, reward, total);
    if stakers == map[] {
      SumEmpty(stakers, AmountOf);
      SumEmpty(shares, Itself);
      SumEmpty(rest, Itself);
    } else {
      var a :| a in stakers;
      SumRemove(stakers, a, AmountOf);
      SumRemove(shares, a, Itself);
      SumRemove(rest, a, Itself);
      SharesAndRemainders(stakers - {a}, reward, total);
      assert shares - {a} == Shares(stakers - {a}, reward, total);
      assert rest - {a} == Remainders(stakers - {a}, reward, total);
      DivideOne(reward, stakers[a].amount, SumBy(stakers - {a}, AmountOf), total,
                SumBy(shares - {a}, Itself), SumBy(rest - {a}, Itself));
    }
  }

  lemma DivideOne(reward: int, amount: int, others: int, total: int, paid: int, left: int)
    requires total > 0 && reward * others == total * paid + left
    ensures reward * (amount + others)
            == total * (reward * amount / total + paid) + (reward * amount % total + left)
  {
    var x := reward * amount;
    assert x == total * (x / total) + x % total;
    assert total * (x / total + paid) == total * (x / total) + total * paid;
    assert reward * (amount + others) == x + reward * others;
  }

  lemma {:induction false} NoneLeft(m: map<Address, int>)
    requires forall a :: a in m ==> m[a] >= 0
    ensures SumBy(m, Itself) == 0 <==> forall a :: a in m ==> m[a] == 0
    decreases |m|
  {
    if m == map[] {
      SumEmpty(m, Itself);
    } else {
      var a :| a in m;
      SumRemove(m, a, Itself);
      SumBounds(m - {a}, Itself);
      NoneLeft(m - {a});
      assert forall b :: b in m ==> b == a || (b in m - {a} && (m - {a})[b] == m[b]);
    }
  }

  lemma LostExactly(stakers: map<Address, Position>, reward: int, total: int)
    requires total > 0 && total == SumBy(stakers, AmountOf)
    ensures var lost := reward - SumBy(Shares(stakers, reward, total), Itself);
            && total * lost == SumBy(Remainders(stakers, reward, total), Itself)
            && (lost == 0 <==> forall a :: a in stakers ==> reward * stakers[a].amount % total == 0)
  {
    var rest: map<Address, int> := Remainders(stakers, reward, total);
    var paid := SumBy(Shares(stakers, reward, total), Itself);
    SharesAndRemainders(stakers, reward, total);
    assert total * (reward - paid) == reward * total - total * paid;
    NoneLeft(rest);
    assert forall a :: a in stakers ==> rest[a] == reward * stakers[a].amount % total;
    assert reward - paid == 0 <==> total * (reward - paid) == 0;
  }

  lemma OneTimesMore(n: int, c: int)
    ensures n * c == (n - 1) * c + c
  {}

  lemma {:induction false} SumSmall(m: map<Address, int>, c: int)
    requires forall a :: a in m ==> 0 <= m[a] <= c
    ensures 0 <= SumBy(m, Itself) <= |m| * c
    decreases |m|
  {
    if m == map[] {
      SumEmpty(m, Itself);
    } else {
      var a :| a in m;
      SumRemove(m, a, Itself);
      SumSmall(m - {a}, c);
      assert m.Keys == (m - {a}).Keys + {a};
      OneTimesMore(|m|, c);
    }
  }

  lemma RemaindersSmall(stakers: map<Address, Position>, reward: int, total: int)
    requires total > 0
    ensures 0 <= SumBy(Remainders(stakers, reward, total), Itself) <= |stakers| * (total - 1)
  {
    var rest: map<Address, int> := Remainders(stakers, reward, total);
    assert rest.Keys == stakers.Keys;
    SumSmall(rest, total - 1);
  }

  /** The shares of all stakers never exceed the reward, and fall short of it by less than one unit per staker. */
  lemma ProRataBound(stakers: map<Address, Position>, reward: nat, total: int)
    requires total == SumBy(stakers, AmountOf) && total > 0
    requires forall a :: a in stakers ==> stakers[a].amount >= 0
    ensures var paid := SumBy(Shares(stakers, reward, total), Itself);
            0 <= paid <= reward <= paid + |stakers| - 1
  {
    var shares: map<Address, int> := Shares(stakers, reward, total);
    var lost := reward - SumBy(shares, Itself);
    LostExactly(stakers, reward, total);
    RemaindersSmall(stakers, reward, total);
    assert |stakers| * (total - 1) == total * |stakers| - |stakers|;
    assert stakers != map[] by { if stakers == map[] { SumEmpty(stakers, AmountOf); } }
    MulCancel(total, -1, lost);
    MulCancel(total, lost, |stakers|);
    forall a | a in shares
      ensures shares[a] >= 0
    {
      OneShare(reward, stakers[a].amount, total);
    }
    SumBounds(shares, Itself);
  }

  /** On a boost of an open post in a reachable state the unpaid remainder is at most the number of
      existing stakers minus one, and never negative. */
  lemma BoostDustBound(p: Params, s: State, tx: Tx)
    requires Inv(p, s)
    requires tx.kind == TX_BOOST_POST && tx.postId in s.posts && !s.posts[tx.postId].withdrawn
    ensures s.posts[tx.postId].totalStaked > 0
    ensures 0 <= TxDust(p, s, tx) <= |Stakers(s.stakes, tx.postId)| - 1
  {
    OpenPostIsStaked(p, s, tx.postId);
    assert PostAgrees(s.stakes, tx.postId, s.posts[tx.postId]);
    ProRataBound(Stakers(s.stakes, tx.postId), BoostSplit(p, tx.amount).stakers, s.posts[tx.postId].totalStaked);
  }

  lemma OpenPostIsStaked(p: Params, s: State, id: PostId)
    requires Inv(p, s) && id in s.posts && !s.posts[id].withdrawn
    ensures s.posts[id].totalStaked > 0
    ensures forall a :: a in Stakers(s.stakes, id) ==> 0 <= Stakers(s.stakes, id)[a].amount <= s.posts[id].totalStaked
  {
    assert PostAgrees(s.stakes, id, s.posts[id]);
    SumBounds(Stakers(s.stakes, id), AmountOf);
  }

  // ---------- Exactly when nothing is lost ----------

  /** Every share of the staker reward comes out without a remainder. */
  ghost predicate EvenSplit(p: Params, s: State, tx: Tx) {
    tx.kind == TX_BOOST_POST && tx.postId in s.posts && s.posts[tx.postId].totalStaked > 0 ==>
      forall a :: a in Stakers(s.stakes, tx.postId) ==>
        BoostSplit(p, tx.amount).stakers * Stakers(s.stakes, tx.postId)[a].amount % s.posts[tx.postId].totalStaked == 0
  }

  /** A boost of an open post loses nothing if and only if every share comes out even; in general the total stake
      times what is lost is the sum of the remainders. */
  lemma BoostDustExact(p: Params, s: State, tx: Tx)
    requires Inv(p, s)
    requires tx.kind == TX_BOOST_POST && tx.postId in s.posts && !s.posts[tx.postId].withdrawn
    ensures s.posts[tx.postId].totalStaked > 0
    ensures s.posts[tx.postId].totalStaked * TxDust(p, s, tx)
            == SumBy(Remainders(Stakers(s.stakes, tx.postId), BoostSplit(p, tx.amount).stakers,
                                s.posts[tx.postId].totalStaked), Itself)
    ensures TxDust(p, s, tx) == 0 <==> EvenSplit(p, s, tx)
  {
    OpenPostIsStaked(p, s, tx.postId);
    assert PostAgrees(s.stakes, tx.postId, s.posts[tx.postId]);
    LostExactly(Stakers(s.stakes, tx.postId), BoostSplit(p, tx.amount).stakers, s.posts[tx.postId].totalStaked);
  }

  /** The bound is tight for every number of stakers: with equal positions and a reward of one unit less than there are
      stakers, every share is zero and the whole reward is lost. */
  lemma BoostDustTight(p: Params, s: State, tx: Tx, x: nat)
    requires Inv(p, s) && x >= 1
    requires tx.kind == TX_BOOST_POST && tx.postId in s.posts && !s.posts[tx.postId].withdrawn
    requires forall a :: a in Stakers(s.stakes, tx.postId) ==> Stakers(s.stakes, tx.postId)[a].amount == x
    requires BoostSplit(p, tx.amount).stakers == |Stakers(s.stakes, tx.postId)| - 1
    ensures TxDust(p, s, tx) == |Stakers(s.stakes, tx.postId)| - 1
  {
    OpenPostIsStaked(p, s, tx.postId);
    assert PostAgrees(s.stakes, tx.postId, s.posts[tx.postId]);
    EqualStakers(Stakers(s.stakes, tx.postId), x);
    NothingPaid(Stakers(s.stakes, tx.postId), x);
  }

  lemma {:induction false} EqualStakers(stakers: map<Address, Position>, x: nat)
    requires forall a :: a in stakers ==> stakers[a].amount == x
    ensures SumBy(stakers, AmountOf) == |stakers| * x
    decreases |stakers|
  {
    if stakers == map[] {
      SumEmpty(stakers, AmountOf);
    } else {
      var a :| a in stakers;
      SumRemove(stakers, a, AmountOf);
      EqualStakers(stakers - {a}, x);
      assert stakers.Keys == (stakers - {a}).Keys + {a};
      assert |stakers| * x == (|stakers| - 1) * x + x;
    }
  }

  lemma NothingPaid(stakers: map<Address, Position>, x: nat)
    requires x >= 1 && |stakers| >= 1 && forall a :: a in stakers ==> stakers[a].amount == x
    requires |stakers| * x > 0
    ensures SumBy(Shares(stakers, |stakers| - 1, |stakers| * x), Itself) == 0
  {
    var n := |stakers|;
    var shares: map<Address, int> := Shares(stakers, n - 1, n * x);
    forall a | a in shares
      ensures shares[a] == 0
    {
      assert (n - 1) * x == n * x - x;
      MulMonotone(x, 0, n - 1);
      DivBounds((n - 1) * x, n * x, 1);
    }
    NoneLeft(shares);
  }
}
