/** Speculative runs: what the mempool believes about a list of transactions, and what executing the list does. */
module Reaping {
  import opened Words
  import opened Types
  import opened Ledger
  import opened Invariant
  import opened Blocks
  import opened Executors
  import opened Runs
  import opened Speculation

  // ---------- Speculative runs ----------

  /** One more transaction against the speculative accounts; None when validation refuses it or an earlier one. */
  ghost function SpecStep(p: Params, s: State, r: Option<map<Address, Account>>, tx: Tx)
    : Option<map<Address, Account>>
  {
    if r.Some? && tx.sender in r.value && ValidTx(p, SpecReader(s, r.value, ReaderOf(s).names), tx)
    then Some(SpecApply(r.value, tx)) else None
  }

  /** A list of transactions, each validated and booked speculatively over the base state s. Proofs use it only
      through SpecRunUnfold: the two intermediate functions keep the verifier from unfolding it elsewhere. */
  ghost function SpecRun(p: Params, s: State, txs: seq<Tx>): Option<map<Address, Account>>
    decreases |txs|, 2
  {
    SpecRunFolded(p, s, txs)
  }

  ghost function SpecRunFolded(p: Params, s: State, txs: seq<Tx>): Option<map<Address, Account>>
    decreases |txs|, 1
  {
    SpecRunFrom(p, s, txs)
  }

  ghost function SpecRunFrom(p: Params, s: State, txs: seq<Tx>): Option<map<Address, Account>>
    decreases |txs|, 0
  {
    if txs == [] then Some(s.accounts) else SpecStep(p, s, SpecRun(p, s, txs[..|txs| - 1]), txs[|txs| - 1])
  }

  lemma SpecRunUnfold(p: Params, s: State, txs: seq<Tx>)
    ensures SpecRun(p, s, txs) == SpecRunFrom(p, s, txs)
  {
    assert SpecRun(p, s, txs) == SpecRunFolded(p, s, txs);
    assert SpecRunFolded(p, s, txs) == SpecRunFrom(p, s, txs);
  }

  lemma SpecRunNext(p: Params, s: State, txs: seq<Tx>, tx: Tx)
    ensures SpecRun(p, s, txs + [tx]) == SpecStep(p, s, SpecRun(p, s, txs), tx)
  {
    SpecRunUnfold(p, s, txs + [tx]);
    assert (txs + [tx])[..|txs|] == txs;
  }

  lemma HeadFacts(p: Params, s: State, seen: map<Address, Account>, tx: Tx)
    requires ValidTx(p, SpecReader(s, seen, ReaderOf(s).names), tx)
    ensures tx.sender in seen && tx.nonce == Wrap(seen[tx.sender].nonce + 1)
  {}

  // ---------- Nonces ----------

  function StartNonce(start: map<Address, Account>, a: Address): int {
    if a in start then start[a].nonce else 0
  }

  /** Nonces of the chosen transactions continue each sender's nonce without a gap. */
  ghost predicate Continues(start: map<Address, Account>, chosen: seq<Tx>) {
    forall i {:trigger ContinuesAt(start, chosen, i)} :: 0 <= i < |chosen| ==> ContinuesAt(start, chosen, i)
  }

  ghost predicate ContinuesAt(start: map<Address, Account>, chosen: seq<Tx>, i: int)
    requires 0 <= i < |chosen|
  {
    chosen[i].nonce == Wrap(StartNonce(start, chosen[i].sender) + SentBy(chosen[..i], chosen[i].sender) + 1)
  }

  /** The speculative nonces are the starting nonces advanced by what has been chosen. */
  ghost predicate Advanced(start: map<Address, Account>, seen: map<Address, Account>, chosen: seq<Tx>) {
    forall a: Address {:trigger AdvancedAt(start, seen, chosen, a)} :: AdvancedAt(start, seen, chosen, a)
  }

  ghost predicate AdvancedAt(start: map<Address, Account>, seen: map<Address, Account>, chosen: seq<Tx>, a: Address) {
    if a in seen then seen[a].nonce == Wrap(StartNonce(start, a) + SentBy(chosen, a)) else SentBy(chosen, a) == 0
  }

  lemma AdvancedNext(start: map<Address, Account>, seen: map<Address, Account>, chosen: seq<Tx>, tx: Tx)
    requires Advanced(start, seen, chosen) && tx.sender in seen && start.Keys <= seen.Keys
    ensures Advanced(start, SpecApply(seen, tx), chosen + [tx])
  {
    forall a: Address
      ensures AdvancedAt(start, SpecApply(seen, tx), chosen + [tx], a)
    {
      assert AdvancedAt(start, seen, chosen, a);
      SentByAppend(chosen, tx, a);
      WrapShift(StartNonce(start, a) + SentBy(chosen, a), 1);
    }
  }

  lemma ContinuesNext(start: map<Address, Account>, seen: map<Address, Account>, chosen: seq<Tx>, tx: Tx)
    requires Advanced(start, seen, chosen) && Continues(start, chosen)
    requires tx.sender in seen && tx.nonce == Wrap(seen[tx.sender].nonce + 1)
    ensures Continues(start, chosen + [tx])
  {
    forall i | 0 <= i < |chosen + [tx]|
      ensures ContinuesAt(start, chosen + [tx], i)
    {
      assert (chosen + [tx])[..i] == chosen[..i];
      if i < |chosen| {
        assert ContinuesAt(start, chosen, i);
      } else {
        assert chosen[..i] == chosen;
        assert AdvancedAt(start, seen, chosen, tx.sender);
        WrapShift(StartNonce(start, tx.sender) + SentBy(chosen, tx.sender), 1);
      }
    }
  }

  /** In any speculative run, of any kinds of transactions, nonces continue without a gap. */
  lemma {:induction false} SpecNonces(p: Params, s: State, txs: seq<Tx>)
    requires SpecRun(p, s, txs).Some? && forall a :: a in s.accounts ==> 0 <= s.accounts[a].nonce < TWO64
    ensures s.accounts.Keys <= SpecRun(p, s, txs).value.Keys
    ensures Advanced(s.accounts, SpecRun(p, s, txs).value, txs) && Continues(s.accounts, txs)
  {
    SpecRunUnfold(p, s, txs);
    if txs == [] {
      forall a: Address
        ensures AdvancedAt(s.accounts, s.accounts, [], a)
      {}
    } else {
      var init, last := txs[..|txs| - 1], txs[|txs| - 1];
      assert txs == init + [last];
      SpecNonces(p, s, init);
      var seen := SpecRun(p, s, init).value;
      HeadFacts(p, s, seen, last);
      AdvancedNext(s.accounts, seen, init, last);
      ContinuesNext(s.accounts, seen, init, last);
    }
  }

  // ---------- Refinement ----------

  /** The transactions execute in a block at height h and time t, and the speculative view is covered by the outcome. */
  ghost predicate Executes(p: Params, s: State, h: Uint64, t: Int64, seen: map<Address, Account>, txs: seq<Tx>) {
    && ApplyTxs(p, Release(s, h), txs, h, t).Some?
    && Sound(p, ApplyTxs(p, Release(s, h), txs, h, t).value)
    && Sim(s, seen, ApplyTxs(p, Release(s, h), txs, h, t).value)
  }

  lemma ExecutesNext(p: Params, s: State, h: Uint64, t: Int64, seen: map<Address, Account>,
                     txs: seq<Tx>, tx: Tx, n: nat)
    requires Sound(p, s) && GoodParams(p) && PostIdsDistinct(p) && NonceRoom(s, n) && |txs| < n < TWO64
    requires Executes(p, s, h, t, seen, txs) && Simple(tx)
    requires ValidTx(p, SpecReader(s, seen, ReaderOf(s).names), tx)
    ensures tx.sender in seen && Executes(p, s, h, t, SpecApply(seen, tx), txs + [tx])
  {
    var start := Release(s, h);
    HeadFacts(p, s, seen, tx);
    ReleaseStep(p, s, h);
    TxsStep(p, start, txs, h, t, n - |txs|);
    SimStep(p, s, seen, ReaderOf(s).names, ApplyTxs(p, start, txs, h, t).value, tx, h, t);
    TxsNext(p, start, txs, tx, h, t);
  }

  /** Refinement: what a speculative run of transfers, posts, boosts and stakes accepts, the executor executes, at any
      height and time, with at least the balances and exactly the nonces that were believed. */
  lemma {:induction false} SpecExecutes(p: Params, s: State, txs: seq<Tx>, h: Uint64, t: Int64, n: nat)
    requires Sound(p, s) && GoodParams(p) && PostIdsDistinct(p) && NonceRoom(s, n) && |txs| <= n < TWO64
    requires SpecRun(p, s, txs).Some? && forall i :: 0 <= i < |txs| ==> Simple(txs[i])
    ensures Executes(p, s, h, t, SpecRun(p, s, txs).value, txs)
  {
    SpecRunUnfold(p, s, txs);
    if txs == [] {
      SimStart(p, s, h);
      TxsUnfold(p, Release(s, h), [], h, t);
    } else {
      var init, last := txs[..|txs| - 1], txs[|txs| - 1];
      assert txs == init + [last];
      SpecExecutes(p, s, init, h, t, n);
      ExecutesNext(p, s, h, t, SpecRun(p, s, init).value, init, last, n);
    }
  }

  /** A block without evidence starts its transactions right after the releases. */
  lemma DraftExecutes(p: Params, s: State, b: Block, seen: map<Address, Account>)
    requires b.evidence == []
    requires Executes(p, s, b.header.height, b.header.timestamp, seen, b.txs)
    ensures ApplyBlock(p, s, b).Some?
  {
    assert BeginBlock(p, s, b) == Release(s, b.header.height);
  }
}
