/** The cheap speculative state that stands in for the executor while a block is assembled, and the proof that
    it does so safely for transfers, post creation, boosts and stakes. */
module Speculation {
  import opened Words
  import opened Types
  import opened Ledger
  import opened Invariant
  import opened Steps
  import opened PostSteps
  import opened Blocks
  import opened Bounds
  import opened Executors

  /** Charges an account one nonce and x coins, in wrapping arithmetic. */
  function SpecCharge(view: map<Address, Account>, a: Address, x: Uint64): map<Address, Account>
    requires a in view
  {
    view[a := view[a].(nonce := Wrap(view[a].nonce + 1), balance := Wrap(view[a].balance - x))]
  }

  function SpecCredit(view: map<Address, Account>, a: Address, x: Uint64): map<Address, Account> {
    var acct := if a in view then view[a] else NEW_ACCOUNT;
    view[a := acct.(balance := Wrap(acct.balance + x))]
  }

  /** What the speculative state does with an accepted transaction: nonce, balance and transfer credit only. */
  function SpecApply(view: map<Address, Account>, tx: Tx): map<Address, Account>
    requires tx.sender in view
  {
    var charged := SpecCharge(view, tx.sender, tx.amount);
    if tx.kind == TX_TRANSFER then SpecCredit(charged, tx.recipient, tx.amount) else charged
  }

  /** What validation sees through the speculative state: current accounts over the posts, positions and names
      of the base state. */
  function SpecReader(base: State, view: map<Address, Account>, names: set<Bytes>): Reader {
    Reader(view, base.posts, base.stakes, names)
  }

  predicate Simple(tx: Tx) {
    tx.kind in {TX_TRANSFER, TX_CREATE_POST, TX_BOOST_POST, TX_STAKE}
  }

  /** The executing account is at the same nonce and at least as well off. */
  ghost predicate Covers(seen: Account, exec: Account) {
    exec.nonce == seen.nonce && 0 <= seen.balance <= exec.balance && 0 <= seen.staked <= exec.staked
  }

  ghost predicate AccountsCovered(view: map<Address, Account>, exec: map<Address, Account>) {
    && (forall a {:trigger a in view} {:trigger view[a]} :: a in view ==> a in exec && Covers(view[a], exec[a]))
    && (forall a :: a in exec && a !in view ==> exec[a].nonce == 0)
  }

  /** The posts of the base state are still there, under the same parent and as open as before. */
  ghost predicate PostsCovered(base: map<PostId, Post>, exec: map<PostId, Post>) {
    forall id :: id in base ==>
      id in exec && exec[id].parent == base[id].parent && exec[id].withdrawn == base[id].withdrawn
  }

  /** The simulation relation between the speculative view and the executing state. */
  ghost predicate Sim(base: State, view: map<Address, Account>, exec: State) {
    AccountsCovered(view, exec.accounts) && PostsCovered(base.posts, exec.posts)
  }

  /** Whatever the speculative state accepts, the executing state accepts. */
  lemma AcceptedIsValid(p: Params, base: State, view: map<Address, Account>, names: set<Bytes>, exec: State, tx: Tx)
    requires Sim(base, view, exec) && Simple(tx) && ValidTx(p, SpecReader(base, view, names), tx)
    ensures ValidTx(p, ReaderOf(exec), tx)
  {
    assert tx.sender in view && Covers(view[tx.sender], exec.accounts[tx.sender]);
  }

  lemma AcceptedIsAffordable(p: Params, base: State, view: map<Address, Account>, names: set<Bytes>, tx: Tx)
    requires Simple(tx) && ValidTx(p, SpecReader(base, view, names), tx)
    ensures tx.sender in view && view[tx.sender].balance >= tx.amount
    ensures tx.kind == TX_TRANSFER ==> tx.sender != tx.recipient
  {}

  /** How the executing accounts move under the four simple kinds, seen from below: the sender pays the amount,
      a transfer's recipient gains it, nobody else loses. */
  ghost predicate MovesAtLeast(before: map<Address, Account>, after: map<Address, Account>, tx: Tx) {
    && (forall a :: a in before ==>
          && a in after
          && after[a].nonce == (if a == tx.sender then Wrap(before[a].nonce + 1) else before[a].nonce)
          && after[a].staked >= before[a].staked
          && after[a].balance >= before[a].balance
               - (if a == tx.sender then tx.amount else 0)
               + (if tx.kind == TX_TRANSFER && a == tx.recipient then tx.amount else 0))
    && (forall a :: a in after && a !in before ==> after[a].nonce == 0)
    && (tx.kind == TX_TRANSFER ==> tx.recipient in after && (tx.recipient !in before ==>
          after[tx.recipient].balance >= tx.amount && after[tx.recipient].staked >= 0))
  }

  lemma SimpleMoves(p: Params, s: State, tx: Tx, h: Uint64, t: Int64)
    requires Inv(p, s) && Simple(tx) && ValidTx(p, ReaderOf(s), tx) && ApplyTx(p, s, tx, h, t).Some?
    ensures MovesAtLeast(s.accounts, ApplyTx(p, s, tx, h, t).value.accounts, tx)
  {
    ValidSpender(p, s, tx);
    if tx.kind == TX_BOOST_POST {
      BoostedAccountsFacts(p, s, tx, BoostSplit(p, tx.amount));
      BoostMoves(s, tx, BoostSplit(p, tx.amount));
    } else if tx.kind == TX_CREATE_POST {
      CreateMoves(p, s, tx, PostFee(p, tx.amount), h, t);
    } else if tx.kind == TX_STAKE {
      StakeMoves(s, tx);
    } else {
      TransferMoves(s, tx);
    }
  }

  lemma CreateMoves(p: Params, s: State, tx: Tx, fee: Uint64, h: Uint64, t: Int64)
    requires tx.sender in s.accounts && tx.kind == TX_CREATE_POST
    ensures MovesAtLeast(s.accounts, Created(p, s, tx, fee, h, t).accounts, tx)
  {}

  lemma StakeMoves(s: State, tx: Tx)
    requires ApplyStake(s, tx).Some? && tx.kind == TX_STAKE
    ensures MovesAtLeast(s.accounts, ApplyStake(s, tx).value.accounts, tx)
  {}

  lemma TransferMoves(s: State, tx: Tx)
    requires ApplyTransfer(s, tx).Some? && tx.kind == TX_TRANSFER && tx.sender != tx.recipient
    ensures MovesAtLeast(s.accounts, ApplyTransfer(s, tx).value.accounts, tx)
  {}

  lemma BoostMoves(s: State, tx: Tx, split: Split)
    requires tx.sender in s.accounts && tx.postId in s.posts && tx.kind == TX_BOOST_POST
    requires OnlyPaid(BoosterDebited(s, tx, split), BoostedAccounts(s, tx, split))
    ensures MovesAtLeast(s.accounts, BoostedAccounts(s, tx, split), tx)
  {
    PaidMoves(s.accounts, BoosterDebited(s, tx, split), BoostedAccounts(s, tx, split), tx);
  }

  lemma PaidMoves(before: map<Address, Account>, debited: map<Address, Account>, after: map<Address, Account>, tx: Tx)
    requires OnlyPaid(debited, after) && tx.sender in before && tx.sender in debited && tx.kind != TX_TRANSFER
    requires debited == before[tx.sender := debited[tx.sender]]
    requires var b, d := before[tx.sender], debited[tx.sender];
             d.nonce == Wrap(b.nonce + 1) && d.staked == b.staked && d.balance == b.balance - tx.amount
    ensures MovesAtLeast(before, after, tx)
  {}

  /** If the executing accounts move at least like that, the speculative view stays covered. */
  lemma CoverStep(view: map<Address, Account>, before: map<Address, Account>, after: map<Address, Account>, tx: Tx)
    requires AccountsCovered(view, before) && MovesAtLeast(before, after, tx)
    requires tx.sender in view && view[tx.sender].balance >= tx.amount && tx.sender in before
    requires tx.kind == TX_TRANSFER ==> tx.sender != tx.recipient
    requires forall a :: a in after ==> 0 <= after[a].balance < TWO64 && 0 <= after[a].staked
    requires forall a :: a in before ==> before[a].balance < TWO64 && before[a].balance >= 0
    ensures AccountsCovered(SpecApply(view, tx), after)
  {
    var next := SpecApply(view, tx);
    forall a | a in next
      ensures a in after && Covers(next[a], after[a])
    {
      CoverOne(view, before, after, tx, a);
    }
  }

  lemma CoverOne(view: map<Address, Account>, before: map<Address, Account>, after: map<Address, Account>,
                 tx: Tx, a: Address)
    requires AccountsCovered(view, before) && MovesAtLeast(before, after, tx)
    requires tx.sender in view && view[tx.sender].balance >= tx.amount && tx.sender in before
    requires tx.kind == TX_TRANSFER ==> tx.sender != tx.recipient
    requires forall b :: b in after ==> 0 <= after[b].balance < TWO64 && 0 <= after[b].staked
    requires forall b :: b in before ==> before[b].balance < TWO64 && before[b].balance >= 0
    requires a in SpecApply(view, tx)
    ensures a in after && Covers(SpecApply(view, tx)[a], after[a])
  {
    if a in view {
      assert Covers(view[a], before[a]);
    }
    if tx.kind == TX_TRANSFER && a == tx.recipient {
      assert a in before && a !in view ==> before[a].nonce == 0;
    }
  }

  lemma SimplePosts(p: Params, s: State, tx: Tx, h: Uint64, t: Int64)
    requires Inv(p, s) && NonceRoom(s, 1) && PostIdsDistinct(p)
    requires Simple(tx) && ValidTx(p, ReaderOf(s), tx) && ApplyTx(p, s, tx, h, t).Some?
    ensures PostsCovered(s.posts, ApplyTx(p, s, tx, h, t).value.posts)
  {
    ValidSpender(p, s, tx);
    if tx.kind == TX_CREATE_POST {
      CreatedPosts(p, s, tx, PostFee(p, tx.amount), h, t);
    } else if tx.kind == TX_BOOST_POST {
      BoostCoversPosts(s, tx, BoostSplit(p, tx.amount));
    }
  }

  lemma CreatedPosts(p: Params, s: State, tx: Tx, fee: Uint64, h: Uint64, t: Int64)
    requires Inv(p, s) && NonceRoom(s, 1) && PostIdsDistinct(p) && tx.sender in s.accounts
    ensures PostsCovered(s.posts, Created(p, s, tx, fee, h, t).posts)
  {
    FreshPostId(p, s, tx.sender);
  }

  lemma BoostCoversPosts(s: State, tx: Tx, split: Split)
    requires tx.postId in s.posts
    ensures PostsCovered(s.posts, BoostedPosts(s, tx, split))
  {}

  lemma PostsCoveredThen(a: map<PostId, Post>, b: map<PostId, Post>, c: map<PostId, Post>)
    requires PostsCovered(a, b) && PostsCovered(b, c)
    ensures PostsCovered(a, c)
  {}

  /** One step of the simulation: the executing state accepts the transaction and the relation is kept. */
  lemma SimStep(p: Params, base: State, view: map<Address, Account>, names: set<Bytes>, exec: State,
                tx: Tx, h: Uint64, t: Int64)
    requires Sim(base, view, exec) && Simple(tx) && ValidTx(p, SpecReader(base, view, names), tx)
    requires Sound(p, exec) && NonceRoom(exec, 1) && GoodParams(p) && PostIdsDistinct(p)
    ensures ValidTx(p, ReaderOf(exec), tx) && ApplyTx(p, exec, tx, h, t).Some?
    ensures Sound(p, ApplyTx(p, exec, tx, h, t).value)
    ensures Sim(base, SpecApply(view, tx), ApplyTx(p, exec, tx, h, t).value)
  {
    AcceptedIsValid(p, base, view, names, exec, tx);
    AcceptedIsAffordable(p, base, view, names, tx);
    TxSound(p, exec, tx, h, t);
    var next := ApplyTx(p, exec, tx, h, t).value;
    SimpleMoves(p, exec, tx, h, t);
    SimplePosts(p, exec, tx, h, t);
    PostsCoveredThen(base.posts, exec.posts, next.posts);
    BalancesFit(p, exec);
    BalancesFit(p, next);
    CoverStep(view, exec.accounts, next.accounts, tx);
  }

  lemma BalancesFit(p: Params, s: State)
    requires Sound(p, s)
    ensures forall a :: a in s.accounts ==> 0 <= s.accounts[a].balance < TWO64 && 0 <= s.accounts[a].staked
  {
    forall a | a in s.accounts
      ensures 0 <= s.accounts[a].balance < TWO64 && 0 <= s.accounts[a].staked
    {
      AccountBound(s, a);
    }
  }

  /** At the start the view is the base state, and the block begins by releasing unbonded coins. */
  lemma SimStart(p: Params, s: State, h: Uint64)
    requires Sound(p, s)
    ensures Sim(s, s.accounts, Release(s, h)) && Sound(p, Release(s, h))
  {
    ReleaseStep(p, s, h);
    ReleasePositive(s.queue, h);
    CreditEntriesFacts(s.accounts, Matured(s.queue, h));
    forall a | a in s.accounts
      ensures a in Release(s, h).accounts && Covers(s.accounts[a], Release(s, h).accounts[a])
    {
      CreditsRaise(s.accounts, Matured(s.queue, h), a);
    }
  }

  lemma {:induction false} CreditsRaise(accounts: map<Address, Account>, q: seq<Unbonding>, a: Address)
    requires a in accounts && forall i :: 0 <= i < |q| ==> q[i].amount >= 0
    ensures a in CreditEntries(accounts, q) && CreditEntries(accounts, q)[a].balance >= accounts[a].balance
  {
    if q != [] {
      CreditsRaise(accounts, q[..|q| - 1], a);
    }
  }
}
