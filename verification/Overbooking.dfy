/** Where the speculative state is too generous: transactions it accepts one after the other that do not execute in a
    block, and the exact kinds of transactions for which that cannot happen. */
module Overbooking {
  import opened Words
  import opened Types
  import opened Ledger
  import opened Executors
  import opened UnbondingTiming
  import opened Speculation
  import opened Reaping

  /** The speculative state accepts the transactions of the block one after the other, but the block does not
      execute. */
  ghost predicate Overbooked(p: Params, s: State, b: Block) {
    SpecRun(p, s, b.txs).Some? && ApplyBlock(p, s, b).None?
  }

  lemma SpecPair(p: Params, s: State, first: Tx, second: Tx)
    ensures SpecRun(p, s, [first, second]) == SpecStep(p, s, SpecStep(p, s, Some(s.accounts), first), second)
  {
    SpecRunUnfold(p, s, []);
    SpecRunNext(p, s, [], first);
    SpecRunNext(p, s, [first], second);
    assert [] + [first] == [first] && [first] + [second] == [first, second];
  }

  /** A block of two transactions and no evidence runs them in the state after the releases. */
  lemma PairInBlock(p: Params, s: State, b: Block, first: Tx, second: Tx)
    requires b.evidence == [] && b.txs == [first, second]
    ensures var h, t := b.header.height, b.header.timestamp;
            ApplyBlock(p, s, b).Some? <==>
              ApplyOne(p, ApplyOne(p, Some(Release(s, h)), first, h, t), second, h, t).Some?
  {
    var h, t := b.header.height, b.header.timestamp;
    var m := Release(s, h);
    assert BeginBlock(p, s, b) == m;
    TxsUnfold(p, m, [], h, t);
    TxsNext(p, m, [], first, h, t);
    TxsNext(p, m, [first], second, h, t);
    assert [] + [first] == [first] && [first] + [second] == [first, second];
  }

  /** A valid transaction of its sender with the next nonce. */
  predicate Signed(p: Params, tx: Tx) {
    p.addressOf(tx.pubKey) == tx.sender && p.txSigned(tx)
  }

  // ---------- Names ----------

  /** Two senders registering the same free name: both are accepted, the block fails, at any height and time. */
  lemma SameNameOverbooks(p: Params, s: State, first: Tx, second: Tx, b: Block)
    requires Sound(p, s) && b.evidence == [] && b.txs == [first, second]
    requires first.kind == second.kind == TX_REGISTER_NAME && first.text == second.text && first.sender != second.sender
    requires ValidTx(p, ReaderOf(s), first) && ValidTx(p, ReaderOf(s), second)
    ensures Overbooked(p, s, b)
  {
    BalancesFit(p, s);
    SpecPair(p, s, first, second);
    PairInBlock(p, s, b, first, second);
    NameTaken(p, Release(s, b.header.height), first, second, b.header.height, b.header.timestamp);
  }

  lemma NameTaken(p: Params, m: State, first: Tx, second: Tx, h: Uint64, t: Int64)
    requires first.kind == second.kind == TX_REGISTER_NAME && first.text == second.text
    ensures ApplyOne(p, ApplyOne(p, Some(m), first, h, t), second, h, t).None?
  {
    var r := ApplyOne(p, Some(m), first, h, t);
    if r.Some? {
      assert first.text in ReaderOf(r.value).names;
    }
  }

  // ---------- Positions ----------

  /** The same position unstaked twice: both are accepted, the block fails, at any height and time. */
  lemma UnstakeTwiceOverbooks(p: Params, s: State, first: Tx, second: Tx, b: Block)
    requires b.evidence == [] && b.txs == [first, second]
    requires first.kind == second.kind == TX_UNSTAKE_POST && first.sender == second.sender
      && first.postId == second.postId
    requires ValidTx(p, ReaderOf(s), first) && Signed(p, second) && second.nonce == Wrap(first.nonce + 1)
    ensures Overbooked(p, s, b)
  {
    BothUnstakesSeen(p, s, first, second);
    PairInBlock(p, s, b, first, second);
    PositionTaken(p, Release(s, b.header.height), first, second, b.header.height, b.header.timestamp);
  }

  lemma BothUnstakesSeen(p: Params, s: State, first: Tx, second: Tx)
    requires first.kind == second.kind == TX_UNSTAKE_POST && first.sender == second.sender
      && first.postId == second.postId
    requires ValidTx(p, ReaderOf(s), first) && Signed(p, second) && second.nonce == Wrap(first.nonce + 1)
    ensures SpecRun(p, s, [first, second]).Some?
  {
    SpecPair(p, s, first, second);
  }

  lemma PositionTaken(p: Params, m: State, first: Tx, second: Tx, h: Uint64, t: Int64)
    requires first.kind == second.kind == TX_UNSTAKE_POST && first.sender == second.sender
      && first.postId == second.postId
    ensures ApplyOne(p, ApplyOne(p, Some(m), first, h, t), second, h, t).None?
  {
    var r := ApplyOne(p, Some(m), first, h, t);
    if r.Some? {
      PositionGone(m, first);
    }
  }

  lemma PositionGone(s: State, tx: Tx)
    requires ApplyUnstakePost(s, tx).Some?
    ensures StakeKey(tx.postId, tx.sender) !in ApplyUnstakePost(s, tx).value.stakes
  {}

  // ---------- Stake ----------

  /** Matured entries leave nonces and stakes alone. */
  lemma {:induction false} ReleaseKeepsStake(accounts: map<Address, Account>, q: seq<Unbonding>, a: Address)
    requires a in accounts
    ensures var after := CreditEntries(accounts, q);
            a in after && after[a].nonce == accounts[a].nonce && after[a].staked == accounts[a].staked
  {
    if q != [] {
      ReleaseKeepsStake(accounts, q[..|q| - 1], a);
    }
  }

  /** An unstake of that amount leaves nothing or enough. */
  predicate LeavesEnough(p: Params, staked: int, amount: Uint64) {
    amount != 0 && amount <= staked && !(staked - amount > 0 && p.minStake > 0 && staked - amount < p.minStake)
  }

  /** Two unstakes that the stake covers one at a time but not together: both are accepted, the block fails. */
  lemma StakeTwiceOverbooks(p: Params, s: State, first: Tx, second: Tx, b: Block)
    requires b.evidence == [] && b.txs == [first, second]
    requires first.kind == second.kind == TX_UNSTAKE && first.sender == second.sender
    requires ValidTx(p, ReaderOf(s), first) && Signed(p, second) && second.nonce == Wrap(first.nonce + 1)
    requires LeavesEnough(p, s.accounts[first.sender].staked, second.amount)
    requires first.amount + second.amount > s.accounts[first.sender].staked
    ensures Overbooked(p, s, b)
  {
    SpecPair(p, s, first, second);
    PairInBlock(p, s, b, first, second);
    ReleaseKeepsStake(s.accounts, Matured(s.queue, b.header.height), first.sender);
  }

  /** Unstaking more than the spendable balance makes the speculative balance wrap round to a huge one, and a
      transfer out of it is accepted. The block then executes exactly when the balance together with what is released
      at its height covers the transfer. The pool admits the unstake only while the balance covers its amount, so the
      balance must have fallen since. */
  lemma UnstakeOverbooks(p: Params, s: State, first: Tx, second: Tx, b: Block)
    requires b.evidence == [] && b.txs == [first, second] && UnstakeThenTransfer(p, s, first, second)
    ensures SpecRun(p, s, b.txs).Some?
    ensures Overbooked(p, s, b) <==>
      second.amount > s.accounts[first.sender].balance + QueueFor(Matured(s.queue, b.header.height), first.sender)
  {
    UnstakeThenTransferSeen(p, s, first, second);
    PairInBlock(p, s, b, first, second);
    var m := Release(s, b.header.height);
    ReleaseKeepsStake(s.accounts, Matured(s.queue, b.header.height), first.sender);
    CreditedExactly(s.accounts, Matured(s.queue, b.header.height), first.sender);
    TransferPaid(p, m, first, second, b.header.height, b.header.timestamp);
  }

  /** An unstake of more than the balance, followed by a transfer that the wrapped balance covers. */
  ghost predicate UnstakeThenTransfer(p: Params, s: State, first: Tx, second: Tx) {
    && first.kind == TX_UNSTAKE && second.kind == TX_TRANSFER && first.sender == second.sender
    && ValidTx(p, ReaderOf(s), first) && Signed(p, second) && second.nonce == Wrap(first.nonce + 1)
    && second.sender != second.recipient && second.recipient != NO_ADDRESS && second.amount != 0
    && 0 <= s.accounts[first.sender].balance < first.amount
    && second.amount <= TWO64 + s.accounts[first.sender].balance - first.amount
  }

  lemma UnstakeThenTransferSeen(p: Params, s: State, first: Tx, second: Tx)
    requires UnstakeThenTransfer(p, s, first, second)
    ensures SpecRun(p, s, [first, second]).Some?
  {
    SpecPair(p, s, first, second);
  }

  lemma TransferPaid(p: Params, m: State, first: Tx, second: Tx, h: Uint64, t: Int64)
    requires first.kind == TX_UNSTAKE && second.kind == TX_TRANSFER && first.sender == second.sender
    requires ValidTx(p, ReaderOf(m), first) && Signed(p, second) && second.nonce == Wrap(first.nonce + 1)
    requires second.sender != second.recipient && second.recipient != NO_ADDRESS && second.amount != 0
    ensures ApplyOne(p, ApplyOne(p, Some(m), first, h, t), second, h, t).Some?
            <==> second.amount <= m.accounts[first.sender].balance
  {}
}
