/** Exactly which transactions execute, and what the rules add up to over whole runs. */
module Rules {
  import opened Words
  import opened Types
  import opened Ledger
  import opened Invariant
  import opened Steps
  import opened Blocks
  import opened Runs
  import opened Effects
  import opened UnbondingCuts
  import opened AccountHistory
  import opened Authenticity
  import opened Replay
  import opened KVRuns

  // ---------- When a transaction executes ----------

  /** It is the sender's next transaction and the sender can pay for it. */
  predicate NextInLine(s: State, tx: Tx) {
    tx.sender in s.accounts && tx.nonce == Wrap(s.accounts[tx.sender].nonce + 1) && Paid(tx) <= BalanceOf(s, tx.sender)
  }

  /** A stake of x is allowed to stand: it is nothing, or not below the minimum. */
  predicate StakeAllowed(p: Params, x: int) { x == 0 || x >= p.minStake }

  /** What the state must allow. */
  ghost predicate Allowed(p: Params, s: State, tx: Tx)
    requires tx.sender in s.accounts
  {
    && (tx.kind == TX_CREATE_POST && tx.postId != NO_POST ==>
          tx.postId in s.posts && s.posts[tx.postId].parent == NO_POST)
    && (tx.kind == TX_BOOST_POST ==> tx.postId in s.posts && !s.posts[tx.postId].withdrawn)
    && (tx.kind == TX_REGISTER_NAME ==>
          s.accounts[tx.sender].name == [] && forall a :: a in s.accounts ==> s.accounts[a].name != tx.text)
    && (tx.kind == TX_STAKE ==> BondOf(s, tx.sender) > 0 || StakeAllowed(p, tx.amount))
    && (tx.kind == TX_UNSTAKE ==>
          tx.amount <= BondOf(s, tx.sender) && StakeAllowed(p, BondOf(s, tx.sender) - tx.amount))
    && (tx.kind == TX_UNSTAKE_POST ==> tx.postId in s.posts && StakeKey(tx.postId, tx.sender) in s.stakes)
  }

  /** A transaction executes if and only if its sender signed it, it is well formed, it is next in line and paid for,
      and the state allows it. */
  lemma ExecutesExactly(p: Params, s: State, tx: Tx, h: Uint64, t: Int64)
    requires Inv(p, s)
    ensures ApplyTxs(p, s, [tx], h, t).Some?
            <==> Owned(p, tx) && WellFormed(p, tx) && NextInLine(s, tx) && Allowed(p, s, tx)
  {
    TxsUnfold(p, s, [], h, t);
    TxsNext(p, s, [], tx, h, t);
    assert [] + [tx] == [tx];
    ValidExactly(p, s, tx);
    if ValidTx(p, ReaderOf(s), tx) {
      ValidTxApplies(p, s, tx, h, t);
    }
  }

  lemma ValidExactly(p: Params, s: State, tx: Tx)
    requires Inv(p, s)
    ensures ValidTx(p, ReaderOf(s), tx) <==> Owned(p, tx) && WellFormed(p, tx) && NextInLine(s, tx) && Allowed(p, s, tx)
  {
    NamesFree(p, s, tx.text);
    if tx.kind == TX_REGISTER_NAME {
      assert tx.sender in s.accounts ==> s.accounts[tx.sender].balance >= 0;
    }
  }

  lemma NamesFree(p: Params, s: State, n: Bytes)
    requires Inv(p, s)
    ensures n != [] ==> (n in ReaderOf(s).names <==> exists a :: a in s.accounts && s.accounts[a].name == n)
  {
    if n in s.names {
      assert NameResolves(s.accounts, s.names, n);
    }
    forall a | a in s.accounts && s.accounts[a].name == n && n != []
      ensures n in s.names && s.names[n] == a
    {
      assert NameIndexed(s.accounts, s.names, a);
    }
  }

  // ---------- Stakes over runs ----------

  lemma {:induction false} TxsStakeFloor(p: Params, s: State, txs: seq<Tx>, h: Uint64, t: Int64, a: Address)
    requires ApplyTxs(p, s, txs, h, t).Some? && BondOf(s, a) >= 0 && StakeAllowed(p, BondOf(s, a))
    ensures var x := BondOf(ApplyTxs(p, s, txs, h, t).value, a); x >= 0 && StakeAllowed(p, x)
  {
    if txs == [] {
      TxsUnfold(p, s, txs, h, t);
    } else {
      var init, last := txs[..|txs| - 1], txs[|txs| - 1];
      LastTx(p, s, txs, h, t);
      TxsStakeFloor(p, s, init, h, t, a);
      TxBond(p, ApplyTxs(p, s, init, h, t).value, last, h, t, a);
    }
  }

  lemma {:induction false} SparedBond(p: Params, s: State, evs: seq<Evidence>, a: Address)
    requires Spares(evs, a)
    ensures BondCuts(p, s, evs, a) == 0
  {
    if evs != [] {
      SparedBond(p, s, evs[..|evs| - 1], a);
    }
  }

  /** In any run an account that no evidence names never has a stake below the minimum, unless genesis gave it one. */
  lemma {:induction false} StakeFloor(p: Params, s: State, blocks: seq<Block>, a: Address)
    requires Inv(p, s) && GoodParams(p) && PostIdsDistinct(p)
    requires TxCount(blocks) < TWO64 && NonceRoom(s, TxCount(blocks)) && Execute(p, s, blocks).Some?
    requires StakeAllowed(p, BondOf(s, a)) && forall i :: 0 <= i < |blocks| ==> Spares(blocks[i].evidence, a)
    ensures StakeAllowed(p, BondOf(Execute(p, s, blocks).value, a))
  {
    ExecuteUnfold(p, s, blocks);
    if blocks != [] {
      var n := |blocks| - 1;
      LastBlock(p, s, blocks);
      StakeFloor(p, s, blocks[..n], a);
      ExecuteStep(p, s, blocks[..n], |blocks[n].txs|);
      BlockStakeFloor(p, Execute(p, s, blocks[..n]).value, blocks[n], a);
    }
  }

  lemma BlockStakeFloor(p: Params, s: State, b: Block, a: Address)
    requires Inv(p, s) && GoodParams(p) && ApplyBlock(p, s, b).Some? && Spares(b.evidence, a)
    requires StakeAllowed(p, BondOf(s, a))
    ensures StakeAllowed(p, BondOf(ApplyBlock(p, s, b).value, a))
  {
    BeginEffect(p, s, b, a);
    SparedBond(p, Release(s, b.header.height), b.evidence, a);
    TxsStakeFloor(p, BeginBlock(p, s, b), b.txs, b.header.height, b.header.timestamp, a);
    ProposerRewarded(p, s, b);
  }

  // ---------- Posts over runs ----------

  /** How a post may move: what was written stays, its burn grows, and once withdrawn it is final. */
  predicate PostMoves(before: Content, after: Content) {
    && after == before.(burned := after.burned, withdrawn := after.withdrawn)
    && before.burned <= after.burned
    && (before.withdrawn ==> after == before)
  }

  /** Every post moves as posts may. */
  ghost predicate PostsMove(s: State, r: State) {
    forall id {:trigger PostOf(s, id)} {:trigger PostOf(r, id)} ::
      PostOf(s, id).Some? ==> PostOf(r, id).Some? && PostMoves(PostOf(s, id).value, PostOf(r, id).value)
  }

  /** A reply goes to a post that exists and is no reply itself. */
  ghost predicate Threaded(s: State) {
    forall id {:trigger PostOf(s, id)} :: PostOf(s, id).Some? && PostOf(s, id).value.parent != NO_POST ==>
      var up := PostOf(s, PostOf(s, id).value.parent); up.Some? && up.value.parent == NO_POST
  }

  lemma TxPosts(p: Params, s: State, tx: Tx, h: Uint64, t: Int64)
    requires Inv(p, s) && NonceRoom(s, 1) && GoodParams(p) && PostIdsDistinct(p) && Threaded(s)
    requires ValidTx(p, ReaderOf(s), tx) && ApplyTx(p, s, tx, h, t).Some?
    ensures PostsMove(s, ApplyTx(p, s, tx, h, t).value) && Threaded(ApplyTx(p, s, tx, h, t).value)
  {
    var r := ApplyTx(p, s, tx, h, t).value;
    ValidSpender(p, s, tx);
    FreshWhenNew(p, s, tx);
    forall id
      ensures PostOf(r, id) == NextPost(p, PostOf(s, id), tx, h, t, id)
    {
      TxFacts(p, s, tx, h, t, id, NO_ADDRESS);
    }
    NextPostMoves(p, s, r, tx, h, t);
  }

  lemma FreshWhenNew(p: Params, s: State, tx: Tx)
    requires Inv(p, s) && NonceRoom(s, 1) && PostIdsDistinct(p) && ValidTx(p, ReaderOf(s), tx)
    ensures PostOf(s, p.postId(tx.sender, tx.nonce)).None?
  {
    ValidSpender(p, s, tx);
    FreshPostId(p, s, tx.sender);
  }

  lemma NextPostMoves(p: Params, s: State, r: State, tx: Tx, h: Uint64, t: Int64)
    requires forall id :: PostOf(r, id) == NextPost(p, PostOf(s, id), tx, h, t, id)
    requires ValidTx(p, ReaderOf(s), tx) && PostOf(s, p.postId(tx.sender, tx.nonce)).None? && Threaded(s)
    ensures PostsMove(s, r) && Threaded(r)
  {
    assert tx.kind == TX_CREATE_POST && tx.postId != NO_POST ==> PostOf(s, tx.postId).Some?;
  }

  lemma PostsMoveThen(a: State, b: State, c: State)
    requires PostsMove(a, b) && PostsMove(b, c)
    ensures PostsMove(a, c)
  {}

  lemma SamePosts(s: State, r: State)
    requires r.posts == s.posts
    ensures PostsMove(s, r) && (Threaded(s) ==> Threaded(r))
  {
    assert forall id :: PostOf(r, id) == PostOf(s, id);
  }

  lemma {:induction false} TxsPosts(p: Params, s: State, txs: seq<Tx>, h: Uint64, t: Int64)
    requires Inv(p, s) && NonceRoom(s, |txs|) && |txs| < TWO64 && GoodParams(p) && PostIdsDistinct(p) && Threaded(s)
    requires ApplyTxs(p, s, txs, h, t).Some?
    ensures PostsMove(s, ApplyTxs(p, s, txs, h, t).value) && Threaded(ApplyTxs(p, s, txs, h, t).value)
  {
    if txs == [] {
      TxsUnfold(p, s, txs, h, t);
      SamePosts(s, s);
    } else {
      var init, last := txs[..|txs| - 1], txs[|txs| - 1];
      LastTx(p, s, txs, h, t);
      TxsPosts(p, s, init, h, t);
      TxsStep(p, s, init, h, t, 1);
      var m := ApplyTxs(p, s, init, h, t).value;
      TxPosts(p, m, last, h, t);
      PostsMoveThen(s, m, ApplyTx(p, m, last, h, t).value);
    }
  }

  lemma BlockPosts(p: Params, s: State, b: Block)
    requires Inv(p, s) && GoodParams(p) && PostIdsDistinct(p) && NonceRoom(s, |b.txs|) && |b.txs| < TWO64
    requires ApplyBlock(p, s, b).Some? && Threaded(s)
    ensures PostsMove(s, ApplyBlock(p, s, b).value) && Threaded(ApplyBlock(p, s, b).value)
  {
    var m, n, r := BeginBlock(p, s, b), AfterTxs(p, s, b), ApplyBlock(p, s, b).value;
    BeginBlockStep(p, s, b);
    EvidenceKeepsPosts(p, Release(s, b.header.height), b.evidence);
    SamePosts(s, m);
    TxsPosts(p, m, b.txs, b.header.height, b.header.timestamp);
    ProposerRewarded(p, s, b);
    SamePosts(n, r);
    PostsMoveThen(s, m, n);
    PostsMoveThen(s, n, r);
  }

  /** Posts are forever: from any point of a run to its end, what was written stays, burns grow, and a withdrawn post
      never changes again; replies always go to existing posts that are no replies. */
  lemma {:induction false} PostsAreForever(p: Params, s: State, blocks: seq<Block>, i: nat)
    requires Inv(p, s) && GoodParams(p) && PostIdsDistinct(p) && Threaded(s) && i <= |blocks|
    requires TxCount(blocks) < TWO64 && NonceRoom(s, TxCount(blocks)) && Execute(p, s, blocks).Some?
    ensures Execute(p, s, blocks[..i]).Some? && Threaded(Execute(p, s, blocks).value)
    ensures PostsMove(Execute(p, s, blocks[..i]).value, Execute(p, s, blocks).value)
    decreases |blocks|
  {
    ExecuteUnfold(p, s, blocks);
    if blocks == [] {
      SamePosts(s, s);
      assert blocks[..i] == blocks;
    } else {
      var n := |blocks| - 1;
      LastBlock(p, s, blocks);
      PostsAreForever(p, s, blocks[..n], if i < n then i else n);
      ExecuteStep(p, s, blocks[..n], |blocks[n].txs|);
      BlockPosts(p, Execute(p, s, blocks[..n]).value, blocks[n]);
      PostsForeverNext(p, s, blocks, i);
    }
  }

  lemma PostsForeverNext(p: Params, s: State, blocks: seq<Block>, i: nat)
    requires blocks != [] && i <= |blocks| && Execute(p, s, blocks).Some?
    requires var init := blocks[..|blocks| - 1];
             && Execute(p, s, init).Some? && PostsMove(Execute(p, s, init).value, Execute(p, s, blocks).value)
             && (i < |blocks| ==> Execute(p, s, init[..i]).Some?
                                  && PostsMove(Execute(p, s, init[..i]).value, Execute(p, s, init).value))
    ensures Execute(p, s, blocks[..i]).Some?
    ensures PostsMove(Execute(p, s, blocks[..i]).value, Execute(p, s, blocks).value)
  {
    if i == |blocks| {
      assert blocks[..i] == blocks;
      SamePosts(Execute(p, s, blocks).value, Execute(p, s, blocks).value);
    } else {
      var init := blocks[..|blocks| - 1];
      assert init[..i] == blocks[..i];
      PostsMoveThen(Execute(p, s, init[..i]).value, Execute(p, s, init).value, Execute(p, s, blocks).value);
    }
  }
}
