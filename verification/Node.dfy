/** Opening a node: its state comes from the store or, when there is none yet, from genesis. */
module Nodes {
  import opened Words
  import opened Types
  import opened Ledger
  import opened Invariant
  import opened Genesis
  import opened WorldStates
  import opened Mempools
  import opened Consensus
  import opened KVStores
  import opened KVLoad
  import opened KVRuns
  import opened Chains
  import opened Engines

  /** The store holds no chain yet: height zero and no accounts. */
  ghost predicate Blank(db: Database) {
    Counter(db, HeightKey) == 0 && forall a: Address :: Lookup(db, AccountKey(a)).None?
  }

  lemma LoadedBlank(db: Database, t: State)
    requires LoadedFrom(db, t)
    ensures Blank(db) <==> t.height == 0 && |t.accounts| == 0
  {
    forall a: Address
      ensures Lookup(db, AccountKey(a)).None? <==> a !in t.accounts
    {
      assert AccountAt(db, t.accounts, a, {});
    }
  }

  /** Loads the state of a store, or initializes it from genesis and saves that when the store is blank. */
  method OpenState(kv: KVStore, accts: seq<GenesisAccount>, vals: seq<GenesisValidator>, validAddress: Address -> bool)
    returns (ws: WorldState?)
    modifies kv
    ensures ws != null ==> fresh(ws)
    ensures ws == null ==> kv.db == old(kv.db)
    ensures Clean(old(kv.db)) && !Blank(old(kv.db)) ==>
      ws != null && LoadedFrom(old(kv.db), ws.View()) && kv.db == old(kv.db)
    ensures Clean(old(kv.db)) && Blank(old(kv.db)) ==>
      && (ws != null <==> GenesisState(accts, vals, validAddress).Some?)
      && (ws != null ==> GenesisState(accts, vals, validAddress) == Some(ws.View())
                         && SavedOver(old(kv.db), ws.View(), kv.db))
  {
    ws := LoadState(kv);
    if ws == null {
      return;
    }
    if Clean(kv.db) {
      LoadedBlank(kv.db, ws.View());
    }
    if ws.chainHeight == 0 && |ws.accounts| == 0 {
      ws := InitializeState(accts, vals, validAddress);
      if ws != null {
        kv.SaveState(ws);
      }
    }
  }

  // ---------- Restarting after a saved run ----------

  /** The store is what a node left that started from genesis, committed the blocks and saved after each of them, and
      the block store still has the last block. */
  ghost predicate Left(p: Params, accts: seq<GenesisAccount>, vals: seq<GenesisValidator>,
                       validAddress: Address -> bool,
                       blocks: seq<Block>, states: seq<State>, dbs: seq<Database>, db: Database,
                       blockAt: Uint64 -> Option<Block>)
  {
    && RunStates(p, blocks, states) && SavedRun(states, dbs) && db == dbs[|blocks|]
    && (forall i :: 0 <= i < |states| ==> Storable(states[i]))
    && GenesisState(accts, vals, validAddress) == Some(states[0]) && StakesFit(InitialValidators(vals))
    && NodeOk(p, states[0], blocks, states[|blocks|], Head(blocks), states[|blocks|].height)
    && (blocks != [] ==> 0 < states[|blocks|].height && blockAt(states[|blocks|].height) == Head(blocks))
  }

  /** The store of a saved run is clean, and it records the height of the last state. */
  lemma LeftStore(states: seq<State>, dbs: seq<Database>, n: nat)
    requires SavedRun(states, dbs) && n < |dbs| && forall i :: 0 <= i < |states| ==> Storable(states[i])
    ensures Clean(dbs[n]) && Counter(dbs[n], HeightKey) == states[n].height
  {
    RunStoreClean(states, dbs, n);
    assert SavedStep(states, dbs, n);
    LoadedCounterAt(Before(dbs, n), states[n], dbs[n], HeightKey, states[n].height);
  }

  /** The state that opening the store of a saved run yields. */
  ghost predicate Opened(db: Database, blocks: seq<Block>, states: seq<State>, t: State)
    requires |states| > 0
  {
    LoadedFrom(db, t) || (blocks == [] && t == states[0])
  }

  /** The restarted node satisfies the node's invariant exactly when its state came back with nothing lost or added. */
  lemma RestartedNode(p: Params, blocks: seq<Block>, states: seq<State>, dbs: seq<Database>, last: Option<Block>,
                      height: Uint64, t: State)
    requires RunStates(p, blocks, states) && SavedRun(states, dbs) && Storable(states[|blocks|])
    requires NodeOk(p, states[0], blocks, states[|blocks|], last, height)
    requires Opened(dbs[|blocks|], blocks, states, t) && states[0].slashed == {}
    ensures var s := states[|blocks|];
            && t.height == s.height
            && (t == s.(slashed := {}) <==> NothingClosed(states))
            && (NodeOk(p, states[0], blocks, t, last, height) <==> NothingClosed(states) && s.slashed == {})
  {
    var s := states[|blocks|];
    OnlyItsState(p, states[0], blocks, s, last, height, t);
    if LoadedFrom(dbs[|blocks|], t) {
      RestartState(p, blocks, states, dbs, t);
    }
  }

  lemma OnlyItsState(p: Params, g: State, chain: seq<Block>, s: State, last: Option<Block>, height: Uint64, t: State)
    requires NodeOk(p, g, chain, s, last, height)
    ensures NodeOk(p, g, chain, t, last, height) <==> t == s
    ensures Inv(p, s)
  {}

  /** Opens a node: state from the store or genesis, last block from the block store. After a saved run it always
      succeeds; its state is the one it was stopped in, all but the slash record, exactly when no saved position has
      been closed since; and it satisfies the node's invariant exactly when, besides, nobody had been slashed. */
  method OpenNode(p: Params, accts: seq<GenesisAccount>, vals: seq<GenesisValidator>, validAddress: Address -> bool,
                  address: Address, mempool: Mempool, kv: KVStore, blockAt: Uint64 -> Option<Block>,
                  ghost genesis: State, ghost blocks: seq<Block>, ghost states: seq<State>, ghost dbs: seq<Database>)
    returns (e: Engine?)
    modifies kv
    ensures e != null ==> fresh(e)
    ensures e != null ==> e.lastBlock == if e.state.chainHeight > 0 then blockAt(e.state.chainHeight) else None
    ensures Left(p, accts, vals, validAddress, blocks, states, dbs, old(kv.db), blockAt) && genesis == states[0] ==>
      && e != null && e.chain == blocks && e.lastBlock == Head(blocks)
      && (e.state.View() == states[|blocks|].(slashed := {}) <==> NothingClosed(states))
      && (e.Valid() <==> NothingClosed(states) && states[|blocks|].slashed == {})
  {
    ghost var db := kv.db;
    if Left(p, accts, vals, validAddress, blocks, states, dbs, db, blockAt) {
      LeftStore(states, dbs, |blocks|);
    }
    var ws := OpenState(kv, accts, vals, validAddress);
    if ws == null {
      return null;
    }
    var last := None;
    if ws.chainHeight > 0 {
      last := blockAt(ws.chainHeight);
    }
    if Left(p, accts, vals, validAddress, blocks, states, dbs, db, blockAt) {
      RestartedNode(p, blocks, states, dbs, Head(blocks), states[|blocks|].height, ws.View());
    }
    e := new Engine(p, vals, address, ws, mempool, kv, last, genesis, blocks);
  }
}
