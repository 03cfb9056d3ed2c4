/** Persistence over whole runs: a node saves after every block and is restarted from its store. */
module KVRuns {
  import opened Words
  import opened Types
  import opened Ledger
  import opened Invariant
  import opened Runs
  import opened History
  import opened Encoding
  import opened StateRoots
  import opened KVStores
  import opened KVLoad

  // ---------- Accounts and posts are never removed ----------

  lemma TxKeepsPosts(p: Params, s: State, tx: Tx, h: Uint64, t: Int64)
    requires ApplyTx(p, s, tx, h, t).Some?
    ensures s.posts.Keys <= ApplyTx(p, s, tx, h, t).value.posts.Keys
  {}

  lemma {:induction false} TxsKeepPosts(p: Params, s: State, txs: seq<Tx>, h: Uint64, t: Int64)
    requires ApplyTxs(p, s, txs, h, t).Some?
    ensures s.posts.Keys <= ApplyTxs(p, s, txs, h, t).value.posts.Keys
  {
    TxsUnfold(p, s, txs, h, t);
    if txs != [] {
      var n := |txs| - 1;
      LastTx(p, s, txs, h, t);
      TxsKeepPosts(p, s, txs[..n], h, t);
      TxKeepsPosts(p, ApplyTxs(p, s, txs[..n], h, t).value, txs[n], h, t);
    }
  }

  lemma {:induction false} EvidenceKeepsPosts(p: Params, s: State, evs: seq<Evidence>)
    ensures ApplyEvidences(p, s, evs).posts == s.posts
  {
    if evs != [] {
      EvidenceKeepsPosts(p, s, evs[..|evs| - 1]);
    }
  }

  lemma BlockKeepsRecords(p: Params, s: State, b: Block)
    requires ApplyBlock(p, s, b).Some?
    ensures s.accounts.Keys <= ApplyBlock(p, s, b).value.accounts.Keys
    ensures s.posts.Keys <= ApplyBlock(p, s, b).value.posts.Keys
  {
    BlockKeepsNames(p, s, b);
    EvidenceKeepsPosts(p, Release(s, b.header.height), b.evidence);
    TxsKeepPosts(p, BeginBlock(p, s, b), b.txs, b.header.height, b.header.timestamp);
  }

  // ---------- The states and stores of a run ----------

  /** states[n] is the state after n blocks. */
  ghost predicate RunStates(p: Params, blocks: seq<Block>, states: seq<State>) {
    && |states| == |blocks| + 1
    && forall n {:trigger BlockAt(p, blocks, states, n)} :: 0 <= n < |blocks| ==> BlockAt(p, blocks, states, n)
  }

  ghost predicate BlockAt(p: Params, blocks: seq<Block>, states: seq<State>, n: int)
    requires |states| == |blocks| + 1 && 0 <= n < |blocks|
  {
    ApplyBlock(p, states[n], blocks[n]) == Some(states[n + 1])
  }

  lemma {:induction false} RunStatesExecute(p: Params, blocks: seq<Block>, states: seq<State>, n: nat)
    requires RunStates(p, blocks, states) && n <= |blocks|
    ensures Execute(p, states[0], blocks[..n]) == Some(states[n])
  {
    ExecuteUnfold(p, states[0], blocks[..n]);
    if n > 0 {
      RunStatesExecute(p, blocks, states, n - 1);
      assert BlockAt(p, blocks, states, n - 1);
      assert blocks[..n][..n - 1] == blocks[..n - 1];
    }
  }

  /** dbs[n] is the store after n blocks: the genesis state was saved into an empty store, and every block's outcome
      over what was there before. */
  ghost predicate SavedRun(states: seq<State>, dbs: seq<Database>) {
    && |dbs| == |states| && |dbs| > 0
    && forall n {:trigger SavedStep(states, dbs, n)} :: 0 <= n < |dbs| ==> SavedStep(states, dbs, n)
  }

  /** What the store held before the n-th save. */
  ghost function Before(dbs: seq<Database>, n: nat): Database
    requires n < |dbs|
  {
    if n == 0 then map[] else dbs[n - 1]
  }

  ghost predicate SavedStep(states: seq<State>, dbs: seq<Database>, n: int)
    requires |dbs| == |states| && 0 <= n < |dbs|
  {
    SavedOver(Before(dbs, n), states[n], dbs[n])
  }

  /** One of the first n saved states had this key. */
  ghost predicate OnceSaved(states: seq<State>, k: Key, n: nat)
    requires n <= |states|
  {
    exists i :: 0 <= i < n && RecordOf(states[i], k).Some?
  }

  /** Before each save the store holds exactly the keys that some earlier saved state had. */
  lemma {:induction false} StoreHolds(states: seq<State>, dbs: seq<Database>, k: Key, n: nat)
    requires SavedRun(states, dbs) && n < |dbs|
    ensures Lookup(Before(dbs, n), k).Some? <==> OnceSaved(states, k, n)
  {
    if n > 0 {
      StoreHolds(states, dbs, k, n - 1);
      assert SavedStep(states, dbs, n - 1);
      assert SavedAt(Before(dbs, n - 1), states[n - 1], dbs[n - 1], k);
    }
  }

  lemma {:induction false} RecordsStay(p: Params, blocks: seq<Block>, states: seq<State>, i: nat, n: nat)
    requires RunStates(p, blocks, states) && i <= n <= |blocks|
    ensures states[i].accounts.Keys <= states[n].accounts.Keys && states[i].posts.Keys <= states[n].posts.Keys
    decreases n - i
  {
    if i < n {
      RecordsStay(p, blocks, states, i, n - 1);
      assert BlockAt(p, blocks, states, n - 1);
      BlockKeepsRecords(p, states[n - 1], blocks[n - 1]);
    }
  }

  /** No position that was saved earlier in the run has since been closed. */
  ghost predicate NothingClosed(states: seq<State>)
    requires |states| > 0
  {
    forall i :: 0 <= i < |states| ==> states[i].stakes.Keys <= states[|states| - 1].stakes.Keys
  }

  /** What is stale in the store of a run is a position that has been closed. */
  lemma StaleIsPosition(p: Params, blocks: seq<Block>, states: seq<State>, dbs: seq<Database>, k: Key)
    requires RunStates(p, blocks, states) && SavedRun(states, dbs)
    ensures StaleAt(Before(dbs, |blocks|), states[|blocks|], k) ==>
      k.PositionKey? && k.key !in states[|blocks|].stakes
      && exists i :: 0 <= i < |blocks| && k.key in states[i].stakes
  {
    var n := |blocks|;
    StoreHolds(states, dbs, k, n);
    if OnceSaved(states, k, n) {
      var i :| 0 <= i < n && RecordOf(states[i], k).Some?;
      RecordsStay(p, blocks, states, i, n);
    }
  }

  /** A position that was saved and has been closed since is still in the store. */
  lemma ClosedIsStale(states: seq<State>, dbs: seq<Database>, n: nat, i: nat, k: StakeKey)
    requires SavedRun(states, dbs) && i < n < |states| && k in states[i].stakes && k !in states[n].stakes
    ensures StaleAt(Before(dbs, n), states[n], PositionKey(k))
  {
    StoreHolds(states, dbs, PositionKey(k), n);
    assert RecordOf(states[i], PositionKey(k)).Some?;
  }

  lemma StaleIsClosed(p: Params, blocks: seq<Block>, states: seq<State>, dbs: seq<Database>)
    requires RunStates(p, blocks, states) && SavedRun(states, dbs)
    ensures NoStale(Before(dbs, |blocks|), states[|blocks|]) <==> NothingClosed(states)
  {
    var n := |blocks|;
    var db, s := Before(dbs, n), states[n];
    if NothingClosed(states) {
      forall k: Key
        ensures !StaleAt(db, s, k)
      {
        StaleIsPosition(p, blocks, states, dbs, k);
      }
    }
    if NoStale(db, s) {
      forall i, k | 0 <= i < n && k in states[i].stakes
        ensures k in s.stakes
      {
        if k !in s.stakes {
          ClosedIsStale(states, dbs, n, i, k);
        }
      }
    }
  }

  /** A store that only ever took storable states of a run is clean: it can always be loaded. */
  lemma {:induction false} RunStoreClean(states: seq<State>, dbs: seq<Database>, n: nat)
    requires SavedRun(states, dbs) && n < |dbs| && forall i :: 0 <= i < |states| ==> Storable(states[i])
    ensures Clean(dbs[n])
  {
    if n > 0 {
      RunStoreClean(states, dbs, n - 1);
    }
    assert SavedStep(states, dbs, n);
    SavedClean(Before(dbs, n), states[n], dbs[n]);
  }

  /** What the store of a saved run holds restores the last state, all but its slash record, exactly when no position
      that the run ever saved has been closed since. */
  lemma RestartState(p: Params, blocks: seq<Block>, states: seq<State>, dbs: seq<Database>, t: State)
    requires RunStates(p, blocks, states) && SavedRun(states, dbs)
    requires Inv(p, states[|blocks|]) && Storable(states[|blocks|]) && LoadedFrom(dbs[|blocks|], t)
    ensures t == states[|blocks|].(slashed := {}) <==> NothingClosed(states)
    ensures t.height == states[|blocks|].height
  {
    var n := |blocks|;
    StaleIsClosed(p, blocks, states, dbs);
    assert SavedStep(states, dbs, n);
    RestoredExactly(p, Before(dbs, n), states[n], dbs[n], t);
    LoadedMeta(Before(dbs, n), states[n], dbs[n], t);
  }

  /** Restarting a node that saved its genesis state and then after every block of a run restores its state and its
      state root exactly when no position that the run ever saved has been closed since; accounts and posts never go
      stale. */
  lemma RestartExact(p: Params, blocks: seq<Block>, states: seq<State>, dbs: seq<Database>, t: State)
    requires RunStates(p, blocks, states) && SavedRun(states, dbs)
    requires Inv(p, states[|blocks|]) && Storable(states[|blocks|])
    requires Representable(states[|blocks|]) && Representable(t) && LoadedFrom(dbs[|blocks|], t)
    ensures t == states[|blocks|].(slashed := {}) <==> NothingClosed(states)
    ensures Stream(RootFields(t)) == Stream(RootFields(states[|blocks|])) <==> NothingClosed(states)
  {
    var n := |blocks|;
    StaleIsClosed(p, blocks, states, dbs);
    assert SavedStep(states, dbs, n);
    PersistenceRoundTrip(p, Before(dbs, n), states[n], dbs[n], t);
  }

  /** Every closed position comes back: if a position held after block i is gone after block n of the run, a restart
      has it again, and the state root of the restarted node differs. */
  lemma ClosedComesBack(p: Params, blocks: seq<Block>, states: seq<State>, dbs: seq<Database>,
                        t: State, i: nat, k: StakeKey)
    requires RunStates(p, blocks, states) && SavedRun(states, dbs)
    requires Inv(p, states[|blocks|]) && Storable(states[|blocks|])
    requires Representable(states[|blocks|]) && Representable(t) && LoadedFrom(dbs[|blocks|], t)
    requires i < |blocks| && k in states[i].stakes && k !in states[|blocks|].stakes
    ensures !NothingClosed(states)
    ensures k in t.stakes && t.stakes != states[|blocks|].stakes
    ensures Stream(RootFields(t)) != Stream(RootFields(states[|blocks|]))
  {
    var n := |blocks|;
    ClosedIsStale(states, dbs, n, i, k);
    assert SavedStep(states, dbs, n);
    LoadedPosition(Before(dbs, n), states[n], dbs[n], t, k);
    RestartExact(p, blocks, states, dbs, t);
  }

  /** One block is enough: a position that the state before a block holds and the state after it does not is back after
      both have been saved in turn, whatever the store held before. */
  lemma BlockClosesInVain(p: Params, db0: Database, s: State, db1: Database, b: Block,
                          db2: Database, t: State, k: StakeKey)
    requires ApplyBlock(p, s, b).Some? && SavedOver(db0, s, db1)
    requires var u := ApplyBlock(p, s, b).value;
             && Inv(p, u) && Storable(u) && Representable(u) && Representable(t)
             && SavedOver(db1, u, db2) && LoadedFrom(db2, t) && k in s.stakes && k !in u.stakes
    ensures k in t.stakes && Stream(RootFields(t)) != Stream(RootFields(ApplyBlock(p, s, b).value))
  {
    var u := ApplyBlock(p, s, b).value;
    assert SavedAt(db0, s, db1, PositionKey(k));
    assert StaleAt(db1, u, PositionKey(k));
    LoadedPosition(db1, u, db2, t, k);
    PersistenceRoundTrip(p, db1, u, db2, t);
  }
}
