/** What the pool lets in and throws out, against what could execute; and what the speculative state believes. */
module Admission {
  import opened Words
  import opened Types
  import opened Ledger
  import opened Invariant
  import opened Steps
  import opened Blocks
  import opened Bounds
  import opened Executors
  import opened Runs
  import opened Speculation
  import opened Reaping
  import opened Mempools
  import opened Effects
  import opened AccountHistory
  import opened Rules

  // ---------- Admission ----------

  /** Of the transactions that would execute now, the pool admits those whose amount the free balance covers. So it
      turns away an executable transaction only if it is an unstake, of more than the balance. */
  lemma AdmittedExactly(p: Params, s: State, tx: Tx, h: Uint64, t: Int64)
    requires Inv(p, s) && NonceRoom(s, 1) && ApplyTxs(p, s, [tx], h, t).Some?
    ensures Admissible(p, s.accounts, tx) <==> tx.amount <= BalanceOf(s, tx.sender)
    ensures !Admissible(p, s.accounts, tx) ==> tx.kind == TX_UNSTAKE || tx.kind == TX_UNSTAKE_POST
  {
    ExecutesExactly(p, s, tx, h, t);
  }

  // ---------- Eviction ----------

  /** No nonce goes back. */
  ghost predicate NoncesGrow(before: map<Address, Account>, after: map<Address, Account>) {
    forall a :: a in before ==> a in after && before[a].nonce <= after[a].nonce
  }

  lemma {:induction false} TxsNoncesGrow(p: Params, s: State, txs: seq<Tx>, h: Uint64, t: Int64)
    requires Inv(p, s) && NonceRoom(s, |txs|) && |txs| < TWO64 && GoodParams(p) && PostIdsDistinct(p)
    requires ApplyTxs(p, s, txs, h, t).Some?
    ensures NoncesGrow(s.accounts, ApplyTxs(p, s, txs, h, t).value.accounts)
  {
    if txs == [] {
      TxsUnfold(p, s, txs, h, t);
    } else {
      var init, last := txs[..|txs| - 1], txs[|txs| - 1];
      LastTx(p, s, txs, h, t);
      TxsNoncesGrow(p, s, init, h, t);
      TxsStep(p, s, init, h, t, 1);
      var m := ApplyTxs(p, s, init, h, t).value;
      TxNonces(p, m, last, h, t);
      NoncesGrowThen(s, m, ApplyTx(p, m, last, h, t).value, last.sender);
    }
  }

  lemma NoncesGrowThen(s: State, m: State, r: State, a: Address)
    requires NoncesGrow(s.accounts, m.accounts) && NonceStep(m.accounts, r.accounts, a)
    requires NonNegative(m) && NonceRoom(m, 1)
    ensures NoncesGrow(s.accounts, r.accounts)
  {}

  lemma SameNoncesGrow(a: map<Address, Account>, b: map<Address, Account>, c: map<Address, Account>)
    requires NoncesGrow(a, b) && SameNonces(b, c)
    ensures NoncesGrow(a, c)
  {}

  lemma BlockNoncesGrow(p: Params, s: State, b: Block)
    requires Inv(p, s) && GoodParams(p) && PostIdsDistinct(p) && NonceRoom(s, |b.txs|) && |b.txs| < TWO64
    requires ApplyBlock(p, s, b).Some?
    ensures NoncesGrow(s.accounts, ApplyBlock(p, s, b).value.accounts)
  {
    var m, n := BeginBlock(p, s, b), AfterTxs(p, s, b);
    BeginBlockNonces(p, s, b);
    SameNoncesGrow(s.accounts, s.accounts, m.accounts);
    BeginBlockStep(p, s, b);
    TxsNoncesGrow(p, m, b.txs, b.header.height, b.header.timestamp);
    EndBlockNonces(p, n, b.header);
    GrowThenSame(s.accounts, m.accounts, n.accounts, EndBlock(p, n, b.header).accounts);
  }

  lemma GrowThenSame(a: map<Address, Account>, b: map<Address, Account>, c: map<Address, Account>,
                     d: map<Address, Account>)
    requires NoncesGrow(a, b) && NoncesGrow(b, c) && SameNonces(c, d)
    ensures NoncesGrow(a, d)
  {}

  lemma {:induction false} RunNoncesGrow(p: Params, s: State, blocks: seq<Block>)
    requires Inv(p, s) && GoodParams(p) && PostIdsDistinct(p)
    requires TxCount(blocks) < TWO64 && NonceRoom(s, TxCount(blocks)) && Execute(p, s, blocks).Some?
    ensures NoncesGrow(s.accounts, Execute(p, s, blocks).value.accounts)
  {
    ExecuteUnfold(p, s, blocks);
    if blocks != [] {
      var n := |blocks| - 1;
      LastBlock(p, s, blocks);
      RunNoncesGrow(p, s, blocks[..n]);
      ExecuteStep(p, s, blocks[..n], |blocks[n].txs|);
      BlockNoncesGrow(p, Execute(p, s, blocks[..n]).value, blocks[n]);
    }
  }

  /** What the pool evicts for its nonce is dead: it executes neither now nor after any further blocks. */
  lemma EvictedIsDead(p: Params, s: State, blocks: seq<Block>, tx: Tx, h: Uint64, t: Int64)
    requires Inv(p, s) && GoodParams(p) && PostIdsDistinct(p)
    requires TxCount(blocks) + 1 < TWO64 && NonceRoom(s, TxCount(blocks) + 1) && Execute(p, s, blocks).Some?
    requires tx.sender in s.accounts && tx.nonce <= s.accounts[tx.sender].nonce
    ensures ApplyTxs(p, Execute(p, s, blocks).value, [tx], h, t).None?
  {
    RunNoncesGrow(p, s, blocks);
    ExecuteStep(p, s, blocks, 1);
    ExecutesExactly(p, Execute(p, s, blocks).value, tx, h, t);
  }

  // ---------- What the speculative state believes ----------

  /** The amounts that a's transactions name, whatever their kind. */
  function Charged(txs: seq<Tx>, a: Address): int {
    if txs == [] then 0 else
      Charged(txs[..|txs| - 1], a) + if txs[|txs| - 1].sender == a then txs[|txs| - 1].amount else 0
  }

  /** What transfers bring a. */
  function Received(txs: seq<Tx>, a: Address): int {
    if txs == [] then 0 else
      Received(txs[..|txs| - 1], a)
      + if txs[|txs| - 1].kind == TX_TRANSFER && txs[|txs| - 1].recipient == a then txs[|txs| - 1].amount else 0
  }

  function Believed(view: map<Address, Account>, a: Address): int {
    if a in view then view[a].balance else 0
  }

  lemma SpecApplied(view: map<Address, Account>, tx: Tx, a: Address)
    requires tx.sender in view
    ensures Wrap(Believed(SpecApply(view, tx), a))
            == Wrap(Believed(view, a) - (if tx.sender == a then tx.amount else 0)
                    + if tx.kind == TX_TRANSFER && tx.recipient == a then tx.amount else 0)
  {
    var paid := if tx.sender == a then tx.amount else 0;
    WrapShift(Believed(view, a) - paid, if tx.kind == TX_TRANSFER && tx.recipient == a then tx.amount else 0);
    WrapTwice(Believed(view, a) - paid);
    WrapTwice(Believed(SpecCharge(view, tx.sender, tx.amount), a) + tx.amount);
  }

  lemma WrapTwice(x: int)
    ensures Wrap(Wrap(x)) == Wrap(x)
  {}

  /** For any kinds of transactions, the balance that the speculative state believes in is the one at the start, less
      every amount the account has named, plus transfers to it, in wrapping arithmetic: no reward, no unstake, no
      refund. */
  lemma {:induction false} SpecBooks(p: Params, s: State, txs: seq<Tx>, a: Address)
    requires SpecRun(p, s, txs).Some?
    ensures Wrap(Believed(SpecRun(p, s, txs).value, a)) == Wrap(BalanceOf(s, a) - Charged(txs, a) + Received(txs, a))
  {
    SpecRunUnfold(p, s, txs);
    if txs != [] {
      var init, last := txs[..|txs| - 1], txs[|txs| - 1];
      SpecBooks(p, s, init, a);
      var seen := SpecRun(p, s, init).value;
      SpecApplied(seen, last, a);
      var d := (if last.kind == TX_TRANSFER && last.recipient == a then last.amount else 0)
               - if last.sender == a then last.amount else 0;
      WrapShift(Believed(seen, a), d);
      WrapShift(BalanceOf(s, a) - Charged(init, a) + Received(init, a), d);
    }
  }

  /** On the first transaction of any kind the speculative state is exact. */
  lemma FirstSeenExactly(p: Params, s: State, tx: Tx, h: Uint64, t: Int64)
    ensures SpecRun(p, s, [tx]).Some? <==> ApplyTxs(p, s, [tx], h, t).Some?
  {
    SpecRunUnfold(p, s, []);
    SpecRunNext(p, s, [], tx);
    TxsUnfold(p, s, [], h, t);
    TxsNext(p, s, [], tx, h, t);
    assert [] + [tx] == [tx] && SpecReader(s, s.accounts, ReaderOf(s).names) == ReaderOf(s);
    if ValidTx(p, ReaderOf(s), tx) {
      ValidTxApplies(p, s, tx, h, t);
      ValidSpender(p, s, tx);
    }
  }

  lemma TransferSeen(p: Params, s: State, m: State, tx: Tx)
    requires Sound(p, m) && NonceRoom(m, 1) && tx.kind == TX_TRANSFER
    ensures ValidTx(p, SpecReader(s, m.accounts, ReaderOf(s).names), tx) <==> ValidTx(p, ReaderOf(m), tx)
    ensures ValidTx(p, ReaderOf(m), tx) ==>
      tx.sender in m.accounts && ApplyTransfer(m, tx) == Some(m.(accounts := SpecApply(m.accounts, tx)))
  {
    BalancesFit(p, m);
    if ValidTx(p, ReaderOf(m), tx) {
      TransferFits(p, m, tx);
    }
  }

  lemma TransferFits(p: Params, m: State, tx: Tx)
    requires Sound(p, m) && NonceRoom(m, 1) && CanSpend(m, tx.sender, tx.amount) && tx.sender != tx.recipient
    ensures BalanceOf(m, tx.recipient) + tx.amount < TWO64
  {
    TransferKeepsInv(p, m, tx);
    TransferWealth(m, tx);
    AccountBound(ApplyTransfer(m, tx).value, tx.recipient);
  }

  /** For transfers the speculative state is exact: it accepts a list if and only if the list executes, and then it
      sees the accounts as they will be. */
  lemma {:induction false} TransfersExact(p: Params, s: State, txs: seq<Tx>, h: Uint64, t: Int64)
    requires Sound(p, s) && GoodParams(p) && PostIdsDistinct(p) && NonceRoom(s, |txs|) && |txs| < TWO64
    requires forall i :: 0 <= i < |txs| ==> txs[i].kind == TX_TRANSFER
    ensures SpecRun(p, s, txs).Some? <==> ApplyTxs(p, s, txs, h, t).Some?
    ensures SpecRun(p, s, txs).Some? ==> ApplyTxs(p, s, txs, h, t) == Some(s.(accounts := SpecRun(p, s, txs).value))
  {
    SpecRunUnfold(p, s, txs);
    TxsUnfold(p, s, txs, h, t);
    if txs != [] {
      var init, last := txs[..|txs| - 1], txs[|txs| - 1];
      TransfersExact(p, s, init, h, t);
      if SpecRun(p, s, init).Some? {
        var m := ApplyTxs(p, s, init, h, t).value;
        TxsStep(p, s, init, h, t, 1);
        TransferSeen(p, s, m, last);
      }
    }
  }
}
