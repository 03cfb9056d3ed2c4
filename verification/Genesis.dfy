/** Building the genesis state: the base case of every run. */
module Genesis {
  import opened Words
  import opened Types
  import opened Sums
  import opened Ledger
  import opened Invariant
  import opened WorldStates

  datatype GenesisAccount = GenesisAccount(address: Address, balance: Uint64)
  datatype GenesisValidator = GenesisValidator(address: Address, pubKey: PublicKey, stake: Uint64)

  function Supply(accts: seq<GenesisAccount>): nat {
    if accts == [] then 0 else Supply(accts[..|accts| - 1]) + accts[|accts| - 1].balance
  }

  function Funded(accts: seq<GenesisAccount>): map<Address, Account> {
    if accts == [] then map[] else
      var last := accts[|accts| - 1];
      Funded(accts[..|accts| - 1])[last.address := Account(last.balance, 0, [], 0, 0)]
  }

  /** Locks the stake of each validator; None when a balance does not cover it. */
  function Bonded(accounts: map<Address, Account>, vals: seq<GenesisValidator>): Option<map<Address, Account>> {
    if vals == [] then Some(accounts) else
      match Bonded(accounts, vals[..|vals| - 1])
      case None => None
      case Some(m) => BondOne(m, vals[|vals| - 1])
  }

  function BondOne(m: map<Address, Account>, v: GenesisValidator): Option<map<Address, Account>> {
    if v.stake == 0 then Some(m) else
      var acct := if v.address in m then m[v.address] else NEW_ACCOUNT;
      if acct.balance < v.stake then None
      else Some(m[v.address := acct.(balance := acct.balance - v.stake, staked := v.stake)])
  }

  function InitialValidators(vals: seq<GenesisValidator>): seq<Validator> {
    seq(|vals|, i requires 0 <= i < |vals| =>
      Validator(vals[i].address, vals[i].pubKey, if vals[i].stake == 0 then 1 else vals[i].stake))
  }

  predicate AccountsAccepted(accts: seq<GenesisAccount>, validAddress: Address -> bool) {
    (forall i :: 0 <= i < |accts| ==> validAddress(accts[i].address)) && Supply(accts) < TWO64
  }

  /** The genesis state, or None when the configuration is refused. */
  function GenesisState(accts: seq<GenesisAccount>, vals: seq<GenesisValidator>, validAddress: Address -> bool)
    : Option<State>
  {
    if !AccountsAccepted(accts, validAddress) then None else
      match Bonded(Funded(accts), vals)
      case None => None
      case Some(m) => Some(State(m, map[], map[], map[], InitialValidators(vals), [], {}, 0, 0, 0, 0))
  }

  lemma {:induction false} SupplyGrows(accts: seq<GenesisAccount>, n: nat)
    requires n <= |accts|
    ensures Supply(accts[..n]) <= Supply(accts)
    decreases |accts| - n
  {
    if n == |accts| {
      assert accts[..n] == accts;
    } else {
      SupplyGrows(accts, n + 1);
      assert accts[..n + 1][..n] == accts[..n];
    }
  }

  method FundAccounts(ws: WorldState, accts: seq<GenesisAccount>, validAddress: Address -> bool) returns (ok: bool)
    requires ws.accounts == map[]
    modifies ws`accounts, ws`nameIndex
    ensures ok <==> AccountsAccepted(accts, validAddress)
    ensures ok ==> ws.accounts == Funded(accts) && ws.nameIndex == old(ws.nameIndex)
  {
    var totalSupply: Uint64 := 0;
    for i := 0 to |accts|
      invariant totalSupply == Supply(accts[..i])
      invariant forall j :: 0 <= j < i ==> validAddress(accts[j].address)
      invariant ws.accounts == Funded(accts[..i]) && ws.nameIndex == old(ws.nameIndex)
    {
      assert accts[..i + 1][..i] == accts[..i];
      if !validAddress(accts[i].address) {
        return false;
      }
      SupplyGrows(accts, i + 1);
      if totalSupply > MAX64 - accts[i].balance {
        return false;
      }
      totalSupply := Plus(totalSupply, accts[i].balance);
      ws.SetAccount(accts[i].address, Account(accts[i].balance, 0, [], 0, 0));
    }
    assert accts[..|accts|] == accts;
    return true;
  }

  lemma {:induction false} BondedFails(accounts: map<Address, Account>, vals: seq<GenesisValidator>, n: nat)
    requires n <= |vals| && Bonded(accounts, vals[..n]).None?
    ensures Bonded(accounts, vals).None?
    decreases |vals| - n
  {
    if n == |vals| {
      assert vals[..n] == vals;
    } else {
      assert vals[..n + 1][..n] == vals[..n];
      BondedFails(accounts, vals, n + 1);
    }
  }

  ghost predicate Nameless(m: map<Address, Account>) {
    forall a :: a in m ==> m[a].name == [] && m[a].nonce == 0 && m[a].postStake == 0
                           && 0 <= m[a].balance < TWO64 && 0 <= m[a].staked < TWO64
  }

  method BondValidators(ws: WorldState, vals: seq<GenesisValidator>) returns (ok: bool)
    requires Nameless(ws.accounts)
    modifies ws`accounts, ws`nameIndex, ws`activeValidators
    ensures ok <==> Bonded(old(ws.accounts), vals).Some?
    ensures ok ==> Bonded(old(ws.accounts), vals) == Some(ws.accounts) && ws.nameIndex == old(ws.nameIndex)
    ensures ok ==> ws.activeValidators == if |vals| > 0 then InitialValidators(vals) else old(ws.activeValidators)
  {
    ghost var start := ws.accounts;
    var initial: seq<Validator> := [];
    for i := 0 to |vals|
      invariant Bonded(start, vals[..i]) == Some(ws.accounts) && Nameless(ws.accounts)
      invariant ws.nameIndex == old(ws.nameIndex) && ws.activeValidators == old(ws.activeValidators)
      invariant initial == InitialValidators(vals[..i])
    {
      assert vals[..i + 1][..i] == vals[..i];
      var v := vals[i];
      if v.stake > 0 {
        var acct := ws.AccountOrNew(v.address);
        if acct.balance < v.stake {
          BondedFails(start, vals, i + 1);
          return false;
        }
        ws.SetAccount(v.address, acct.(balance := Minus(acct.balance, v.stake), staked := v.stake));
      }
      initial := initial + [Validator(v.address, v.pubKey, if v.stake == 0 then 1 else v.stake)];
    }
    assert vals[..|vals|] == vals;
    if |initial| > 0 {
      ws.activeValidators := initial;
    }
    return true;
  }

  lemma {:induction false} FundedNameless(accts: seq<GenesisAccount>)
    ensures Nameless(Funded(accts))
  {
    if accts != [] {
      FundedNameless(accts[..|accts| - 1]);
    }
  }

  /** Builds the genesis state, or refuses the configuration, exactly as GenesisState says. */
  method InitializeState(accts: seq<GenesisAccount>, vals: seq<GenesisValidator>, validAddress: Address -> bool)
    returns (ws: WorldState?)
    ensures ws != null <==> GenesisState(accts, vals, validAddress).Some?
    ensures ws != null ==> fresh(ws) && GenesisState(accts, vals, validAddress) == Some(ws.View())
  {
    var state := new WorldState();
    var ok := FundAccounts(state, accts, validAddress);
    if !ok {
      return null;
    }
    FundedNameless(accts);
    ok := BondValidators(state, vals);
    if !ok {
      return null;
    }
    assert |vals| == 0 ==> InitialValidators(vals) == [];
    state.chainHeight, state.burnedSupply, state.issuedSupply, state.currentEpoch := 0, 0, 0, 0;
    return state;
  }

  // ---------- What genesis establishes ----------

  predicate DistinctAccounts(accts: seq<GenesisAccount>) {
    forall i, j :: 0 <= i < j < |accts| ==> accts[i].address != accts[j].address
  }

  /** No address is staked twice. The loader checks accounts for duplicates but not validators. */
  predicate StakedOnce(vals: seq<GenesisValidator>) {
    forall i, j :: 0 <= i < j < |vals| && vals[i].stake > 0 && vals[j].stake > 0 ==> vals[i].address != vals[j].address
  }

  lemma {:induction false} FundedTotal(accts: seq<GenesisAccount>)
    requires DistinctAccounts(accts)
    ensures SumBy(Funded(accts), Holdings) == Supply(accts)
    ensures forall a :: a in Funded(accts) <==> exists i :: 0 <= i < |accts| && accts[i].address == a
    ensures forall a :: a in Funded(accts) ==> Funded(accts)[a].staked == 0
  {
    if accts == [] {
      SumEmpty(Funded(accts), Holdings);
    } else {
      var prefix := accts[..|accts| - 1];
      var last := accts[|accts| - 1];
      FundedTotal(prefix);
      SumUpdate(Funded(prefix), last.address, Account(last.balance, 0, [], 0, 0), Holdings);
      assert forall i :: 0 <= i < |prefix| ==> prefix[i] == accts[i];
    }
  }

  /** Stake that a later entry for the same address overwrites: it disappears from the ledger. */
  function Overwritten(accounts: map<Address, Account>, vals: seq<GenesisValidator>): int
    requires Bonded(accounts, vals).Some?
  {
    if vals == [] then 0 else
      var last := vals[|vals| - 1];
      var m := Bonded(accounts, vals[..|vals| - 1]).value;
      Overwritten(accounts, vals[..|vals| - 1])
      + if last.stake > 0 && last.address in m then m[last.address].staked else 0
  }

  lemma {:induction false} BondedTotal(accounts: map<Address, Account>, vals: seq<GenesisValidator>)
    requires Bonded(accounts, vals).Some? && Nameless(accounts)
    ensures SumBy(Bonded(accounts, vals).value, Holdings) + Overwritten(accounts, vals) == SumBy(accounts, Holdings)
    ensures Nameless(Bonded(accounts, vals).value)
  {
    if vals != [] {
      var last := vals[|vals| - 1];
      BondedTotal(accounts, vals[..|vals| - 1]);
      var m: map<Address, Account> := Bonded(accounts, vals[..|vals| - 1]).value;
      if last.stake > 0 {
        var acct := if last.address in m then m[last.address] else NEW_ACCOUNT;
        SumUpdate(m, last.address, acct.(balance := acct.balance - last.stake, staked := last.stake), Holdings);
      }
    }
  }

  /** After bonding, an address is staked exactly when a validator entry staked it. */
  lemma {:induction false} BondedStakes(accounts: map<Address, Account>, vals: seq<GenesisValidator>, a: Address)
    requires Bonded(accounts, vals).Some? && forall b :: b in accounts ==> accounts[b].staked == 0
    ensures var m := Bonded(accounts, vals).value;
            (a in m && m[a].staked > 0) <==> exists i :: 0 <= i < |vals| && vals[i].stake > 0 && vals[i].address == a
    ensures var m := Bonded(accounts, vals).value; a in m ==> m[a].staked >= 0
  {
    if vals != [] {
      var n := |vals| - 1;
      BondedStakes(accounts, vals[..n], a);
      assert forall i :: 0 <= i < n ==> vals[..n][i] == vals[i];
    }
  }

  /** Coins disappear at genesis exactly when some address is staked twice. */
  lemma {:induction false} OverwrittenExactly(accounts: map<Address, Account>, vals: seq<GenesisValidator>)
    requires Bonded(accounts, vals).Some? && forall b :: b in accounts ==> accounts[b].staked == 0
    ensures Overwritten(accounts, vals) >= 0
    ensures Overwritten(accounts, vals) == 0 <==> StakedOnce(vals)
  {
    if vals != [] {
      var n := |vals| - 1;
      OverwrittenExactly(accounts, vals[..n]);
      BondedStakes(accounts, vals[..n], vals[n].address);
      assert forall i :: 0 <= i < n ==> vals[..n][i] == vals[i];
    }
  }

  /** Genesis conserves the configured supply exactly when no address is staked twice; the rest of the
      invariant holds in any case. */
  lemma GenesisSound(p: Params, accts: seq<GenesisAccount>, vals: seq<GenesisValidator>, validAddress: Address -> bool)
    requires DistinctAccounts(accts) && GenesisState(accts, vals, validAddress).Some?
    ensures var g := GenesisState(accts, vals, validAddress).value;
            && Inv(p, g) && g.issued == 0 && (forall a :: a in g.accounts ==> g.accounts[a].nonce == 0)
            && Wealth(g) <= Supply(accts) < TWO64
            && (Wealth(g) == Supply(accts) <==> StakedOnce(vals))
  {
    var g := GenesisState(accts, vals, validAddress).value;
    FundedTotal(accts);
    FundedNameless(accts);
    BondedTotal(Funded(accts), vals);
    OverwrittenExactly(Funded(accts), vals);
    SumEmpty(g.posts, BurnedOn);
    forall a | a in g.accounts
      ensures AccountAgrees(g.stakes, a, g.accounts[a])
    {
      SumEmpty(Positions(g.stakes, a), AmountOf);
    }
  }
}
