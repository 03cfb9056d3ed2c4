/** The genesis state entry by entry, and the books of every account from the genesis file on. */
module GenesisBooks {
  import opened Words
  import opened Types
  import opened Ledger
  import opened Genesis
  import opened Runs
  import opened UnbondingTiming
  import opened Effects
  import opened AccountHistory

  /** What the genesis file gives to a. */
  function FundsOf(accts: seq<GenesisAccount>, a: Address): nat {
    if accts == [] then 0 else
      FundsOf(accts[..|accts| - 1], a) + if accts[|accts| - 1].address == a then accts[|accts| - 1].balance else 0
  }

  /** What it locks as the stake of a. */
  function StakeFor(vals: seq<GenesisValidator>, a: Address): nat {
    if vals == [] then 0 else
      StakeFor(vals[..|vals| - 1], a) + if vals[|vals| - 1].address == a then vals[|vals| - 1].stake else 0
  }

  function Free(accounts: map<Address, Account>, a: Address): int {
    if a in accounts then accounts[a].balance else 0
  }

  function Bound(accounts: map<Address, Account>, a: Address): int {
    if a in accounts then accounts[a].staked else 0
  }

  lemma {:induction false} NoFunds(accts: seq<GenesisAccount>, a: Address)
    requires forall i :: 0 <= i < |accts| ==> accts[i].address != a
    ensures FundsOf(accts, a) == 0
  {
    if accts != [] {
      NoFunds(accts[..|accts| - 1], a);
    }
  }

  lemma {:induction false} NoStakeFor(vals: seq<GenesisValidator>, a: Address)
    requires forall i :: 0 <= i < |vals| ==> vals[i].stake == 0 || vals[i].address != a
    ensures StakeFor(vals, a) == 0
  {
    if vals != [] {
      NoStakeFor(vals[..|vals| - 1], a);
    }
  }

  lemma {:induction false} FundedExactly(accts: seq<GenesisAccount>, a: Address)
    requires DistinctAccounts(accts)
    ensures Free(Funded(accts), a) == FundsOf(accts, a) && Bound(Funded(accts), a) == 0
  {
    if accts != [] {
      var init, last := accts[..|accts| - 1], accts[|accts| - 1];
      FundedExactly(init, a);
      if last.address == a {
        NoFunds(init, a);
      }
    }
  }

  /** Bonding succeeds exactly when every stake is covered, and moves each stake out of its account's balance. */
  lemma {:induction false} BondedExactly(accounts: map<Address, Account>, vals: seq<GenesisValidator>)
    requires StakedOnce(vals) && forall a :: a in accounts ==> accounts[a].balance >= 0 && accounts[a].staked == 0
    ensures Bonded(accounts, vals).Some? <==> forall a :: StakeFor(vals, a) <= Free(accounts, a)
    ensures Bonded(accounts, vals).Some? ==>
      forall a :: Free(Bonded(accounts, vals).value, a) == Free(accounts, a) - StakeFor(vals, a)
                  && Bound(Bonded(accounts, vals).value, a) == StakeFor(vals, a)
  {
    if vals != [] {
      var init, last := vals[..|vals| - 1], vals[|vals| - 1];
      assert forall i :: 0 <= i < |init| ==> init[i] == vals[i];
      BondedExactly(accounts, init);
      assert forall a :: StakeFor(vals, a) == StakeFor(init, a) + if last.address == a then last.stake else 0;
      if last.stake > 0 {
        NoStakeFor(init, last.address);
        BondedNext(accounts, vals);
      }
    }
  }

  lemma BondedNext(accounts: map<Address, Account>, vals: seq<GenesisValidator>)
    requires vals != [] && vals[|vals| - 1].stake > 0
    requires var init, last := vals[..|vals| - 1], vals[|vals| - 1];
             && StakeFor(init, last.address) == 0
             && (Bonded(accounts, init).Some? <==> forall a :: StakeFor(init, a) <= Free(accounts, a))
             && (Bonded(accounts, init).Some? ==>
                   forall a :: Free(Bonded(accounts, init).value, a) == Free(accounts, a) - StakeFor(init, a)
                               && Bound(Bonded(accounts, init).value, a) == StakeFor(init, a))
             && forall a :: StakeFor(vals, a) == StakeFor(init, a) + if last.address == a then last.stake else 0
    ensures Bonded(accounts, vals).Some? <==> forall a :: StakeFor(vals, a) <= Free(accounts, a)
    ensures Bonded(accounts, vals).Some? ==>
      forall a :: Free(Bonded(accounts, vals).value, a) == Free(accounts, a) - StakeFor(vals, a)
                  && Bound(Bonded(accounts, vals).value, a) == StakeFor(vals, a)
  {
    var last := vals[|vals| - 1];
    assert StakeFor(vals, last.address) == last.stake;
  }

  /** The genesis file is accepted exactly when its addresses are valid, its supply fits and every stake is covered; and
      then every account holds what the file gives it, its stake locked, and the validators are the listed ones. */
  lemma GenesisExactly(accts: seq<GenesisAccount>, vals: seq<GenesisValidator>, validAddress: Address -> bool)
    requires DistinctAccounts(accts) && StakedOnce(vals)
    ensures GenesisState(accts, vals, validAddress).Some? <==>
      && (forall i :: 0 <= i < |accts| ==> validAddress(accts[i].address)) && Supply(accts) < TWO64
      && forall a :: StakeFor(vals, a) <= FundsOf(accts, a)
    ensures GenesisState(accts, vals, validAddress).Some? ==>
      var g := GenesisState(accts, vals, validAddress).value;
      && (forall a :: BalanceOf(g, a) == FundsOf(accts, a) - StakeFor(vals, a) && BondOf(g, a) == StakeFor(vals, a))
      && g.posts == map[] && g.stakes == map[] && g.names == map[] && g.queue == [] && g.slashed == {}
      && g.burned == 0 && g.issued == 0 && g.height == 0 && g.epoch == 0
      && |g.validators| == |vals|
      && forall i :: 0 <= i < |vals| ==>
           && g.validators[i].address == vals[i].address && g.validators[i].pubKey == vals[i].pubKey
           && g.validators[i].stake == (if vals[i].stake > 0 then vals[i].stake else 1)
  {
    FundedNonNegative(accts);
    forall a: Address
      ensures Free(Funded(accts), a) == FundsOf(accts, a)
    {
      FundedExactly(accts, a);
    }
    BondedExactly(Funded(accts), vals);
  }

  lemma {:induction false} FundedNonNegative(accts: seq<GenesisAccount>)
    ensures forall a :: a in Funded(accts) ==> Funded(accts)[a].balance >= 0 && Funded(accts)[a].staked == 0
  {
    if accts != [] {
      FundedNonNegative(accts[..|accts| - 1]);
    }
  }

  /** The books of every account in every run, from the genesis file on. */
  lemma RunBooks(p: Params, accts: seq<GenesisAccount>, vals: seq<GenesisValidator>, validAddress: Address -> bool,
                 blocks: seq<Block>, a: Address)
    requires Run(p, accts, vals, validAddress, blocks)
    ensures var g := GenesisState(accts, vals, validAddress).value;
            var r := Execute(p, g, blocks).value;
            var txs := AllTxs(blocks);
            && BalanceOf(r, a) == FundsOf(accts, a) - StakeFor(vals, a) - Spent(txs, a) + RunEarned(p, g, blocks, a)
                                  + RunPaidOut(p, g, blocks, a) + Rewards(p, blocks, a)
            && BondOf(r, a) == StakeFor(vals, a) + StakedIn(txs, a) - UnstakedIn(txs, a) - RunBondCut(p, g, blocks, a)
            && r.burned == BurnedIn(p, txs) + RunFines(p, g, blocks)
  {
    RunStart(p, accts, vals, validAddress, blocks);
    GenesisExactly(accts, vals, validAddress);
    BooksBalance(p, GenesisState(accts, vals, validAddress).value, blocks, a);
  }
}
