/** Runs from genesis: what holds after every sequence of applied blocks. */
module Runs {
  import opened Words
  import opened Types
  import opened Sums
  import opened Ledger
  import opened Invariant
  import opened Blocks
  import opened Bounds
  import opened Genesis
  import opened BlockExecutors

  /** The state after a sequence of blocks, or None when one of them does not apply. Proofs use it only through
      ExecuteUnfold: the two intermediate functions keep the verifier from unfolding it elsewhere. */
  ghost function Execute(p: Params, s: State, blocks: seq<Block>): Option<State>
    decreases |blocks|, 2
  {
    ExecuteFolded(p, s, blocks)
  }

  ghost function ExecuteFolded(p: Params, s: State, blocks: seq<Block>): Option<State>
    decreases |blocks|, 1
  {
    ExecuteFrom(p, s, blocks)
  }

  ghost function ExecuteFrom(p: Params, s: State, blocks: seq<Block>): Option<State>
    decreases |blocks|, 0
  {
    if blocks == [] then Some(s) else
      match Execute(p, s, blocks[..|blocks| - 1])
      case None => None
      case Some(m) => ApplyBlock(p, m, blocks[|blocks| - 1])
  }

  lemma ExecuteUnfold(p: Params, s: State, blocks: seq<Block>)
    ensures Execute(p, s, blocks) == ExecuteFrom(p, s, blocks)
  {
    assert Execute(p, s, blocks) == ExecuteFolded(p, s, blocks);
    assert ExecuteFolded(p, s, blocks) == ExecuteFrom(p, s, blocks);
  }

  /** All rounding dust of a run. */
  ghost function RunDust(p: Params, s: State, blocks: seq<Block>): int {
    if blocks == [] then 0 else
      match Execute(p, s, blocks[..|blocks| - 1])
      case None => 0
      case Some(m) => RunDust(p, s, blocks[..|blocks| - 1]) + BlockDust(p, m, blocks[|blocks| - 1])
  }

  function TxCount(blocks: seq<Block>): nat {
    if blocks == [] then 0 else TxCount(blocks[..|blocks| - 1]) + |blocks[|blocks| - 1].txs|
  }

  /** A run: a genesis configuration that loads, without duplicate accounts or double stakes, followed by blocks
      that all apply, with fewer than 2^64 transactions in total. */
  ghost predicate Run(p: Params, accts: seq<GenesisAccount>, vals: seq<GenesisValidator>,
                      validAddress: Address -> bool, blocks: seq<Block>)
  {
    && GoodParams(p) && PostIdsDistinct(p)
    && DistinctAccounts(accts) && StakedOnce(vals)
    && GenesisState(accts, vals, validAddress).Some?
    && TxCount(blocks) < TWO64
    && Execute(p, GenesisState(accts, vals, validAddress).value, blocks).Some?
  }

  /** The state ends some run. */
  ghost predicate Reached(p: Params, s: State) {
    exists accts, vals, validAddress, blocks {:trigger Run(p, accts, vals, validAddress, blocks)} ::
      && Run(p, accts, vals, validAddress, blocks)
      && Execute(p, GenesisState(accts, vals, validAddress).value, blocks) == Some(s)
  }

  /** Heights advance one at a time from 1. */
  predicate Consecutive(blocks: seq<Block>) {
    forall i :: 0 <= i < |blocks| ==> blocks[i].header.height == i + 1
  }

  lemma LastBlock(p: Params, s: State, blocks: seq<Block>)
    requires blocks != [] && Execute(p, s, blocks).Some?
    ensures Execute(p, s, blocks[..|blocks| - 1]).Some?
    ensures Execute(p, s, blocks) == ApplyBlock(p, Execute(p, s, blocks[..|blocks| - 1]).value, blocks[|blocks| - 1])
  {
    ExecuteUnfold(p, s, blocks);
  }

  /** The induction behind the run theorems, from any sound starting state. */
  lemma {:induction false} ExecuteStep(p: Params, s: State, blocks: seq<Block>, k: nat)
    requires Inv(p, s) && GoodParams(p) && PostIdsDistinct(p)
    requires k + TxCount(blocks) < TWO64 && NonceRoom(s, k + TxCount(blocks))
    requires Execute(p, s, blocks).Some?
    ensures var r := Execute(p, s, blocks).value;
            && Inv(p, r) && NonceRoom(r, k)
            && Wealth(r) + RunDust(p, s, blocks) == Wealth(s) + |blocks| * p.blockReward
            && r.issued == s.issued + |blocks| * p.blockReward
            && RunDust(p, s, blocks) >= 0
  {
    ExecuteUnfold(p, s, blocks);
    if blocks != [] {
      var n := |blocks| - 1;
      ExecuteStep(p, s, blocks[..n], k + |blocks[n].txs|);
      BlockStep(p, Execute(p, s, blocks[..n]).value, blocks[n], k);
      assert |blocks| * p.blockReward == n * p.blockReward + p.blockReward;
    }
  }

  /** A run starts in a sound state with the configured supply and all nonces at zero. */
  lemma RunStart(p: Params, accts: seq<GenesisAccount>, vals: seq<GenesisValidator>,
                 validAddress: Address -> bool, blocks: seq<Block>)
    requires Run(p, accts, vals, validAddress, blocks)
    ensures var g := GenesisState(accts, vals, validAddress).value;
            Inv(p, g) && NonceRoom(g, TxCount(blocks)) && Wealth(g) == Supply(accts) && g.issued == 0 && g.queue == []
  {
    GenesisSound(p, accts, vals, validAddress);
  }

  /** Conservation over every run: balances, stakes, post stakes, unbonding and burned coins, plus the dust that
      boosts have rounded away, are exactly the genesis supply plus what has been issued. */
  lemma Conservation(p: Params, accts: seq<GenesisAccount>, vals: seq<GenesisValidator>,
                     validAddress: Address -> bool, blocks: seq<Block>)
    requires Run(p, accts, vals, validAddress, blocks)
    ensures var g := GenesisState(accts, vals, validAddress).value;
            var r := Execute(p, g, blocks).value;
            && Inv(p, r)
            && Wealth(r) + RunDust(p, g, blocks) == Supply(accts) + r.issued
            && RunDust(p, g, blocks) >= 0
            && r.issued == |blocks| * p.blockReward
  {
    GenesisSound(p, accts, vals, validAddress);
    ExecuteStep(p, GenesisState(accts, vals, validAddress).value, blocks, 0);
  }

  /** Every boost of the run splits evenly in the state it runs in. */
  ghost predicate RunEven(p: Params, s: State, blocks: seq<Block>) {
    blocks == [] || (
      var init := blocks[..|blocks| - 1];
      RunEven(p, s, init)
      && (Execute(p, s, init).Some? ==> BlockEven(p, Execute(p, s, init).value, blocks[|blocks| - 1])))
  }

  lemma {:induction false} RunDustExact(p: Params, s: State, blocks: seq<Block>, k: nat)
    requires Inv(p, s) && GoodParams(p) && PostIdsDistinct(p)
    requires k + TxCount(blocks) < TWO64 && NonceRoom(s, k + TxCount(blocks))
    requires Execute(p, s, blocks).Some?
    ensures RunDust(p, s, blocks) >= 0 && (RunDust(p, s, blocks) == 0 <==> RunEven(p, s, blocks))
  {
    ExecuteUnfold(p, s, blocks);
    if blocks != [] {
      var n := |blocks| - 1;
      RunDustExact(p, s, blocks[..n], k + |blocks[n].txs|);
      ExecuteStep(p, s, blocks[..n], k + |blocks[n].txs|);
      BlockDustExact(p, Execute(p, s, blocks[..n]).value, blocks[n]);
    }
  }

  /** Exact conservation: no coin is lost in a run if and only if every boost in it splits evenly. */
  lemma ConservationExact(p: Params, accts: seq<GenesisAccount>, vals: seq<GenesisValidator>,
                          validAddress: Address -> bool, blocks: seq<Block>)
    requires Run(p, accts, vals, validAddress, blocks)
    ensures var g := GenesisState(accts, vals, validAddress).value;
            var r := Execute(p, g, blocks).value;
            Wealth(r) == Supply(accts) + r.issued <==> RunEven(p, g, blocks)
  {
    RunStart(p, accts, vals, validAddress, blocks);
    Conservation(p, accts, vals, validAddress, blocks);
    RunDustExact(p, GenesisState(accts, vals, validAddress).value, blocks, 0);
  }

  /** In every run whose supply has room for the next reward, the executor's precondition holds for the next
      block: none of its uint64 operations on amounts can wrap. */
  lemma RunNeverWraps(p: Params, accts: seq<GenesisAccount>, vals: seq<GenesisValidator>,
                      validAddress: Address -> bool, blocks: seq<Block>, next: Block)
    requires Run(p, accts, vals, validAddress, blocks)
    requires TxCount(blocks) + |next.txs| < TWO64
    requires Supply(accts) + |blocks| * p.blockReward + p.blockReward < TWO64
    ensures CanApply(p, Execute(p, GenesisState(accts, vals, validAddress).value, blocks).value, next)
  {
    GenesisSound(p, accts, vals, validAddress);
    var g := GenesisState(accts, vals, validAddress).value;
    ExecuteStep(p, g, blocks, |next.txs|);
    var r := Execute(p, g, blocks).value;
    SumBounds(r.accounts, Holdings);
    SupplyBound(r);
  }

  // ---------- Replay ----------

  /** All transactions of a run, in execution order. */
  function AllTxs(blocks: seq<Block>): seq<Tx> {
    if blocks == [] then [] else AllTxs(blocks[..|blocks| - 1]) + blocks[|blocks| - 1].txs
  }

  function SentBy(txs: seq<Tx>, a: Address): nat {
    if txs == [] then 0 else SentBy(txs[..|txs| - 1], a) + if txs[|txs| - 1].sender == a then 1 else 0
  }

  /** Nonces count: every account's nonce is the number of its executed transactions (modulo 2^64), and each
      executed transaction carries the number it brings its sender to. */
  ghost predicate NoncesCount(accounts: map<Address, Account>, txs: seq<Tx>) {
    && (forall a: Address {:trigger CountOf(accounts, txs, a)} :: CountOf(accounts, txs, a))
    && (forall i {:trigger Numbered(txs, i)} :: 0 <= i < |txs| ==> Numbered(txs, i))
  }

  ghost predicate CountOf(accounts: map<Address, Account>, txs: seq<Tx>, a: Address) {
    if a in accounts then accounts[a].nonce == Wrap(SentBy(txs, a)) else SentBy(txs, a) == 0
  }

  ghost predicate Numbered(txs: seq<Tx>, i: int)
    requires 0 <= i < |txs|
  {
    txs[i].nonce == Wrap(SentBy(txs[..i], txs[i].sender) + 1)
  }

  lemma SentByAppend(txs: seq<Tx>, tx: Tx, a: Address)
    ensures SentBy(txs + [tx], a) == SentBy(txs, a) + if tx.sender == a then 1 else 0
  {
    assert (txs + [tx])[..|txs|] == txs;
  }

  lemma CountNext(before: map<Address, Account>, after: map<Address, Account>, txs: seq<Tx>, tx: Tx)
    requires NoncesCount(before, txs) && NonceStep(before, after, tx.sender)
    requires tx.nonce == Wrap(before[tx.sender].nonce + 1)
    ensures NoncesCount(after, txs + [tx])
  {
    forall a: Address
      ensures CountOf(after, txs + [tx], a)
    {
      SentByAppend(txs, tx, a);
      assert CountOf(before, txs, a);
      WrapShift(SentBy(txs, a), 1);
    }
    forall i | 0 <= i < |txs| + 1
      ensures Numbered(txs + [tx], i)
    {
      assert (txs + [tx])[..i] == txs[..i];
      if i < |txs| {
        assert Numbered(txs, i);
      } else {
        assert txs[..i] == txs;
        assert CountOf(before, txs, tx.sender);
        WrapShift(SentBy(txs, tx.sender), 1);
      }
    }
  }

  lemma {:induction false} TxsCount(p: Params, s: State, txs: seq<Tx>, h: Uint64, t: Int64, past: seq<Tx>)
    requires NoncesCount(s.accounts, past) && ApplyTxs(p, s, txs, h, t).Some?
    ensures NoncesCount(ApplyTxs(p, s, txs, h, t).value.accounts, past + txs)
  {
    TxsUnfold(p, s, txs, h, t);
    if txs == [] {
      assert past + txs == past;
    } else {
      var n := |txs| - 1;
      TxsCount(p, s, txs[..n], h, t, past);
      LastTx(p, s, txs, h, t);
      OneTxCounts(p, ApplyTxs(p, s, txs[..n], h, t).value, txs[n], h, t, past + txs[..n]);
      assert past + txs == past + txs[..n] + [txs[n]];
    }
  }

  lemma LastTx(p: Params, s: State, txs: seq<Tx>, h: Uint64, t: Int64)
    requires txs != [] && ApplyTxs(p, s, txs, h, t).Some?
    ensures ApplyTxs(p, s, txs[..|txs| - 1], h, t).Some?
    ensures var m := ApplyTxs(p, s, txs[..|txs| - 1], h, t).value;
            && ValidTx(p, ReaderOf(m), txs[|txs| - 1])
            && ApplyTxs(p, s, txs, h, t) == ApplyTx(p, m, txs[|txs| - 1], h, t)
  {
    TxsUnfold(p, s, txs, h, t);
  }

  lemma OneTxCounts(p: Params, s: State, tx: Tx, h: Uint64, t: Int64, past: seq<Tx>)
    requires NoncesCount(s.accounts, past) && ValidTx(p, ReaderOf(s), tx) && ApplyTx(p, s, tx, h, t).Some?
    ensures NoncesCount(ApplyTx(p, s, tx, h, t).value.accounts, past + [tx])
  {
    TxNonces(p, s, tx, h, t);
    ValidSpender(p, s, tx);
    CountNext(s.accounts, ApplyTx(p, s, tx, h, t).value.accounts, past, tx);
  }

  /** Accounts that keep every nonce, possibly with new accounts at nonce zero. */
  ghost predicate SameNonces(before: map<Address, Account>, after: map<Address, Account>) {
    && before.Keys <= after.Keys
    && (forall a :: a in before ==> after[a].nonce == before[a].nonce)
    && (forall a :: a in after && a !in before ==> after[a].nonce == 0)
  }

  lemma SameNoncesCount(before: map<Address, Account>, after: map<Address, Account>, txs: seq<Tx>)
    requires NoncesCount(before, txs) && SameNonces(before, after)
    ensures NoncesCount(after, txs)
  {
    forall a: Address
      ensures CountOf(after, txs, a)
    {
      assert CountOf(before, txs, a);
    }
  }

  lemma {:induction false} CreditsKeepNonces(accounts: map<Address, Account>, q: seq<Unbonding>)
    ensures SameNonces(accounts, CreditEntries(accounts, q))
  {
    if q != [] {
      CreditsKeepNonces(accounts, q[..|q| - 1]);
    }
  }

  lemma {:induction false} EvidenceKeepsNonces(p: Params, s: State, evs: seq<Evidence>)
    ensures SameNonces(s.accounts, ApplyEvidences(p, s, evs).accounts)
  {
    if evs != [] {
      EvidenceKeepsNonces(p, s, evs[..|evs| - 1]);
    }
  }

  lemma BeginBlockNonces(p: Params, s: State, b: Block)
    ensures SameNonces(s.accounts, BeginBlock(p, s, b).accounts)
  {
    CreditsKeepNonces(s.accounts, Matured(s.queue, b.header.height));
    EvidenceKeepsNonces(p, Release(s, b.header.height), b.evidence);
  }

  lemma EndBlockNonces(p: Params, s: State, h: Header)
    ensures SameNonces(s.accounts, EndBlock(p, s, h).accounts)
  {
    assert EndBlock(p, s, h).accounts == Reward(p, s, h.proposer).accounts;
  }

  lemma BlockCount(p: Params, s: State, b: Block, past: seq<Tx>)
    requires NoncesCount(s.accounts, past) && ApplyBlock(p, s, b).Some?
    ensures NoncesCount(ApplyBlock(p, s, b).value.accounts, past + b.txs)
  {
    var m := BeginBlock(p, s, b);
    BeginBlockNonces(p, s, b);
    SameNoncesCount(s.accounts, m.accounts, past);
    TxsCount(p, m, b.txs, b.header.height, b.header.timestamp, past);
    var after := ApplyTxs(p, m, b.txs, b.header.height, b.header.timestamp).value;
    EndBlockNonces(p, after, b.header);
    SameNoncesCount(after.accounts, EndBlock(p, after, b.header).accounts, past + b.txs);
  }

  /** In every run from fresh accounts, nonces count executed transactions. */
  lemma {:induction false} RunNonces(p: Params, s: State, blocks: seq<Block>)
    requires (forall a :: a in s.accounts ==> s.accounts[a].nonce == 0) && Execute(p, s, blocks).Some?
    ensures NoncesCount(Execute(p, s, blocks).value.accounts, AllTxs(blocks))
  {
    ExecuteUnfold(p, s, blocks);
    if blocks == [] {
      forall a: Address
        ensures CountOf(s.accounts, [], a)
      {}
    } else {
      var n := |blocks| - 1;
      RunNonces(p, s, blocks[..n]);
      BlockCount(p, Execute(p, s, blocks[..n]).value, blocks[n], AllTxs(blocks[..n]));
    }
  }

  lemma {:induction false} SentByGrows(txs: seq<Tx>, i: nat, j: nat, a: Address)
    requires i <= j <= |txs|
    ensures SentBy(txs[..i], a) <= SentBy(txs[..j], a) <= j
    ensures i < j && txs[i].sender == a ==> SentBy(txs[..i], a) < SentBy(txs[..j], a)
    decreases j
  {
    if i < j {
      SentByGrows(txs, i, j - 1, a);
      assert txs[..j][..j - 1] == txs[..j - 1];
    } else if j > 0 {
      SentByGrows(txs, i - 1, j - 1, a);
      assert txs[..j][..j - 1] == txs[..j - 1];
    }
  }

  /** No (sender, nonce) pair executes twice in a run of fewer than 2^64 transactions. */
  lemma NoReplay(p: Params, accts: seq<GenesisAccount>, vals: seq<GenesisValidator>,
                 validAddress: Address -> bool, blocks: seq<Block>, i: nat, j: nat)
    requires Run(p, accts, vals, validAddress, blocks)
    requires i < j < |AllTxs(blocks)| < TWO64
    requires AllTxs(blocks)[i].sender == AllTxs(blocks)[j].sender
    ensures AllTxs(blocks)[i].nonce < AllTxs(blocks)[j].nonce
  {
    GenesisSound(p, accts, vals, validAddress);
    RunNonces(p, GenesisState(accts, vals, validAddress).value, blocks);
    var txs := AllTxs(blocks);
    assert Numbered(txs, i) && Numbered(txs, j);
    SentByGrows(txs, i, j, txs[i].sender);
    SentByGrows(txs, j, j, txs[i].sender);
  }
}
