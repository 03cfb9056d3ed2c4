/** The validator sets of every run are fit for consensus: distinct addresses and a total that fits a uint64. */
module ValidatorRuns {
  import opened Words
  import opened Types
  import opened Sums
  import opened Ledger
  import opened Invariant
  import opened Bounds
  import opened Genesis
  import opened ValidatorSort
  import opened Runs
  import opened History
  import opened Consensus

  /** Distinct addresses, non-negative stakes, and a total of at most bound. */
  ghost predicate FitSet(vs: seq<Validator>, bound: int) {
    && DistinctAddresses(vs)
    && (forall i :: 0 <= i < |vs| ==> vs[i].stake >= 0)
    && StakeSum(vs) <= bound
  }

  lemma {:induction false} SameWeightsSum(before: seq<Validator>, after: seq<Validator>)
    requires SameWeights(before, after)
    ensures StakeSum(after) == StakeSum(before)
  {
    if before != [] {
      SameWeightsSum(before[..|before| - 1], after[..|after| - 1]);
    }
  }

  /** Distinct validators weighing what their accounts have staked weigh at most all accounts together. */
  lemma {:induction false} ActiveWithinAccounts(vs: seq<Validator>, accounts: map<Address, Account>)
    requires DistinctAddresses(vs)
    requires forall a :: a in accounts ==> Holdings(accounts[a]) >= accounts[a].staked >= 0
    requires forall i :: 0 <= i < |vs| ==> vs[i].address in accounts && vs[i].stake == accounts[vs[i].address].staked
    ensures StakeSum(vs) <= SumBy(accounts, Holdings)
  {
    if vs == [] {
      SumBounds(accounts, Holdings);
    } else {
      var n := |vs| - 1;
      SumRemove(accounts, vs[n].address, Holdings);
      ActiveWithinAccounts(vs[..n], accounts - {vs[n].address});
    }
  }

  lemma BoundaryFits(s: State, minStake: int)
    requires NonNegative(s) && ActiveFor(s, minStake)
    ensures FitSet(s.validators, Wealth(s))
  {
    assert forall a :: a in s.accounts ==> Holdings(s.accounts[a]) >= s.accounts[a].staked >= 0;
    ActiveWithinAccounts(s.validators, s.accounts);
    SupplyBound(s);
  }

  function StakedOf(a: Account): int { a.staked }

  function StakeTotal(vals: seq<GenesisValidator>): int {
    if vals == [] then 0 else StakeTotal(vals[..|vals| - 1]) + vals[|vals| - 1].stake
  }

  lemma {:induction false} BondedStakeTotal(accounts: map<Address, Account>, vals: seq<GenesisValidator>)
    requires Bonded(accounts, vals).Some? && StakedOnce(vals) && forall a :: a in accounts ==> accounts[a].staked == 0
    ensures SumBy(Bonded(accounts, vals).value, StakedOf) == StakeTotal(vals)
  {
    if vals == [] {
      NothingStaked(accounts);
    } else {
      var n := |vals| - 1;
      BondedStakeTotal(accounts, vals[..n]);
      BondedStakes(accounts, vals[..n], vals[n].address);
      assert forall i :: 0 <= i < n ==> vals[..n][i] == vals[i];
      var m: map<Address, Account> := Bonded(accounts, vals[..n]).value;
      if vals[n].stake > 0 {
        SumUpdate(m, vals[n].address, Bonded(accounts, vals).value[vals[n].address], StakedOf);
      }
    }
  }

  lemma {:induction false} NothingStaked(accounts: map<Address, Account>)
    requires forall a :: a in accounts ==> accounts[a].staked == 0
    ensures SumBy(accounts, StakedOf) == 0
    decreases |accounts|
  {
    if accounts == map[] {
      SumEmpty(accounts, StakedOf);
    } else {
      var a :| a in accounts;
      SumRemove(accounts, a, StakedOf);
      NothingStaked(accounts - {a});
    }
  }

  lemma {:induction false} StakedWithinHoldings(accounts: map<Address, Account>)
    requires forall a :: a in accounts ==> Holdings(accounts[a]) >= accounts[a].staked
    ensures SumBy(accounts, StakedOf) <= SumBy(accounts, Holdings)
    decreases |accounts|
  {
    if accounts == map[] {
      SumEmpty(accounts, StakedOf);
      SumEmpty(accounts, Holdings);
    } else {
      var a :| a in accounts;
      SumRemove(accounts, a, StakedOf);
      SumRemove(accounts, a, Holdings);
      StakedWithinHoldings(accounts - {a});
    }
  }

  lemma {:induction false} InitialSum(vals: seq<GenesisValidator>)
    ensures StakeSum(InitialValidators(vals)) <= StakeTotal(vals) + |vals|
  {
    if vals != [] {
      var n := |vals| - 1;
      InitialSum(vals[..n]);
      assert InitialValidators(vals)[..n] == InitialValidators(vals[..n]);
    }
  }

  lemma GenesisFits(p: Params, accts: seq<GenesisAccount>, vals: seq<GenesisValidator>, validAddress: Address -> bool)
    requires DistinctAccounts(accts) && GenesisState(accts, vals, validAddress).Some?
    requires forall i, j :: 0 <= i < j < |vals| ==> vals[i].address != vals[j].address
    ensures FitSet(GenesisState(accts, vals, validAddress).value.validators, Supply(accts) + |vals|)
  {
    var g := GenesisState(accts, vals, validAddress).value;
    FundedTotal(accts);
    FundedNameless(accts);
    BondedTotal(Funded(accts), vals);
    OverwrittenExactly(Funded(accts), vals);
    BondedStakeTotal(Funded(accts), vals);
    StakedWithinHoldings(g.accounts);
    InitialSum(vals);
  }

  /** One block: off a boundary the set stays fit; at a boundary it is bounded by the wealth of the new state. */
  lemma BlockFits(p: Params, s: State, b: Block, bound: int)
    requires ApplyBlock(p, s, b).Some? && FitSet(s.validators, bound)
    requires NonNegative(ApplyBlock(p, s, b).value) && Wealth(ApplyBlock(p, s, b).value) <= bound
    ensures FitSet(ApplyBlock(p, s, b).value.validators, bound)
  {
    EpochStep(p, s, b);
    var r := ApplyBlock(p, s, b).value;
    if EpochBoundary(p, b.header.height) {
      BoundaryFits(r, p.minStake);
    } else {
      SameWeightsSum(s.validators, r.validators);
    }
  }

  /** One block keeps every single weight within a uint64, repeated addresses or not. */
  lemma BlockStakesFit(p: Params, s: State, b: Block)
    requires ApplyBlock(p, s, b).Some? && StakesFit(s.validators)
    requires NonNegative(ApplyBlock(p, s, b).value) && Wealth(ApplyBlock(p, s, b).value) < TWO64
    ensures StakesFit(ApplyBlock(p, s, b).value.validators)
  {
    EpochStep(p, s, b);
    var r := ApplyBlock(p, s, b).value;
    if EpochBoundary(p, b.header.height) {
      forall i | 0 <= i < |r.validators|
        ensures 0 <= r.validators[i].stake < TWO64
      {
        AccountBound(r, r.validators[i].address);
      }
    }
  }

  lemma WealthOfRun(p: Params, s: State, blocks: seq<Block>)
    requires Inv(p, s) && GoodParams(p) && PostIdsDistinct(p)
    requires TxCount(blocks) < TWO64 && NonceRoom(s, TxCount(blocks)) && Execute(p, s, blocks).Some?
    ensures NonNegative(Execute(p, s, blocks).value)
    ensures Wealth(Execute(p, s, blocks).value) <= Wealth(s) + |blocks| * p.blockReward
  {
    ExecuteStep(p, s, blocks, 0);
  }

  lemma {:induction false} ExecuteFits(p: Params, s: State, blocks: seq<Block>, bound: int)
    requires Inv(p, s) && GoodParams(p) && PostIdsDistinct(p)
    requires TxCount(blocks) < TWO64 && NonceRoom(s, TxCount(blocks)) && Execute(p, s, blocks).Some?
    requires FitSet(s.validators, bound) && Wealth(s) + |blocks| * p.blockReward <= bound
    ensures FitSet(Execute(p, s, blocks).value.validators, bound)
  {
    ExecuteUnfold(p, s, blocks);
    if blocks != [] {
      var n := |blocks| - 1;
      LastBlock(p, s, blocks);
      FewerBlocks(n, p.blockReward);
      ExecuteFits(p, s, blocks[..n], bound);
      WealthOfRun(p, s, blocks);
      BlockFits(p, Execute(p, s, blocks[..n]).value, blocks[n], bound);
    }
  }

  lemma FewerBlocks(n: nat, reward: nat)
    ensures n * reward <= (n + 1) * reward
  {}

  /** In every run with distinct genesis validators and room in the supply, the active set and the genesis set have
      distinct addresses and totals below 2^64. */
  lemma RunFits(p: Params, accts: seq<GenesisAccount>, vals: seq<GenesisValidator>, validAddress: Address -> bool,
                blocks: seq<Block>)
    requires Run(p, accts, vals, validAddress, blocks)
    requires forall i, j :: 0 <= i < j < |vals| ==> vals[i].address != vals[j].address
    requires Supply(accts) + |vals| + |blocks| * p.blockReward < TWO64
    ensures FitSet(Execute(p, GenesisState(accts, vals, validAddress).value, blocks).value.validators, MAX64)
    ensures FitSet(InitialValidators(vals), MAX64)
  {
    var g := GenesisState(accts, vals, validAddress).value;
    var bound := Supply(accts) + |vals| + |blocks| * p.blockReward;
    RunStart(p, accts, vals, validAddress, blocks);
    GenesisFits(p, accts, vals, validAddress);
    WiderBound(g.validators, Supply(accts) + |vals|, |blocks|, p.blockReward);
    ExecuteFits(p, g, blocks, bound);
  }

  /** So in every such run no weight and no total wraps: what proposer fairness and accountable safety ask for. */
  lemma RunValidatorsFit(p: Params, accts: seq<GenesisAccount>, vals: seq<GenesisValidator>,
                         validAddress: Address -> bool, blocks: seq<Block>)
    requires Run(p, accts, vals, validAddress, blocks)
    requires forall i, j :: 0 <= i < j < |vals| ==> vals[i].address != vals[j].address
    requires Supply(accts) + |vals| + |blocks| * p.blockReward < TWO64
    ensures var vs := Execute(p, GenesisState(accts, vals, validAddress).value, blocks).value.validators;
            DistinctAddresses(vs) && StakesFit(vs) && StakeSum(vs) < TWO64
  {
    RunFits(p, accts, vals, validAddress, blocks);
    FitSetFits(Execute(p, GenesisState(accts, vals, validAddress).value, blocks).value.validators, MAX64);
  }

  lemma WiderBound(vs: seq<Validator>, bound: int, n: nat, reward: nat)
    requires FitSet(vs, bound)
    ensures FitSet(vs, bound + n * reward)
  {}

  lemma FitSetFits(vs: seq<Validator>, bound: int)
    requires FitSet(vs, bound) && bound < TWO64
    ensures StakesFit(vs) && StakeSum(vs) < TWO64
  {
    EachWithinSum(vs);
  }

  lemma {:induction false} EachWithinSum(vs: seq<Validator>)
    requires forall i :: 0 <= i < |vs| ==> vs[i].stake >= 0
    ensures StakeSum(vs) >= 0 && forall i :: 0 <= i < |vs| ==> vs[i].stake <= StakeSum(vs)
  {
    if vs != [] {
      EachWithinSum(vs[..|vs| - 1]);
      assert forall i :: 0 <= i < |vs| - 1 ==> vs[..|vs| - 1][i] == vs[i];
    }
  }
}
