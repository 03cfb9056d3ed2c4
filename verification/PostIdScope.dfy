/** Post ids need to be distinct only on the (author, nonce) pairs at which a run creates posts: every run with that
    property is, block for block, a run under parameters whose ids never collide. */
module PostIdScope {
  import opened Words
  import opened Types
  import opened Ledger
  import opened Invariant
  import opened Fees
  import opened Blocks
  import opened Genesis
  import opened Encoding
  import opened Hashes
  import opened Runs

  type Pair = (Address, Uint64)

  /** The pairs at which a list of transactions creates posts. */
  ghost function Mints(txs: seq<Tx>): set<Pair> {
    set i | 0 <= i < |txs| && txs[i].kind == TX_CREATE_POST :: (txs[i].sender, txs[i].nonce)
  }

  ghost predicate DistinctOn(id: (Address, Uint64) -> PostId, pairs: set<Pair>) {
    forall x, y :: x in pairs && y in pairs && id(x.0, x.1) == id(y.0, y.1) ==> x == y
  }

  ghost predicate DistinctIds(id: (Address, Uint64) -> PostId) {
    forall a: Address, n: Uint64, b: Address, m: Uint64 :: id(a, n) == id(b, m) ==> a == b && n == m
  }

  ghost predicate AgreeOn(f: (Address, Uint64) -> PostId, g: (Address, Uint64) -> PostId, pairs: set<Pair>) {
    forall x :: x in pairs ==> f(x.0, x.1) == g(x.0, x.1)
  }

  // ---------- Extending a partial assignment of ids ----------

  /** There are as many ids as pairs, so an assignment that is distinct on some pairs extends to one that is distinct
      everywhere: start from the plain numbering and exchange two values for each given pair. */
  lemma {:induction false} ExtendIds(f: (Address, Uint64) -> PostId, pairs: set<Pair>)
    returns (g: (Address, Uint64) -> PostId)
    requires DistinctOn(f, pairs)
    ensures DistinctIds(g) && AgreeOn(f, g, pairs)
    decreases |pairs|
  {
    if pairs == {} {
      g := (a: Address, n: Uint64) => a * 0x1_0000_0000_0000_0000 + n;
    } else {
      var x :| x in pairs;
      var g0 := ExtendIds(f, pairs - {x});
      g := Exchange(g0, x, f(x.0, x.1));
      forall y | y in pairs
        ensures f(y.0, y.1) == g(y.0, y.1)
      {
        assert y != x ==> y in pairs - {x} && g0(y.0, y.1) == f(y.0, y.1) != f(x.0, x.1);
      }
    }
  }

  /** Gives x the id y, and the former id of x to whatever had y. */
  lemma Exchange(g: (Address, Uint64) -> PostId, x: Pair, y: PostId) returns (h: (Address, Uint64) -> PostId)
    requires DistinctIds(g)
    ensures DistinctIds(h) && h(x.0, x.1) == y
    ensures forall a: Address, n: Uint64 :: (a, n) != x && g(a, n) != y ==> h(a, n) == g(a, n)
  {
    h := (a: Address, n: Uint64) => if (a, n) == x then y else if g(a, n) == y then g(x.0, x.1) else g(a, n);
  }

  // ---------- Execution looks at the ids of executed pairs only ----------

  /** The same parameters with another assignment of ids. */
  function Renamed(p: Params, id: (Address, Uint64) -> PostId): Params {
    p.(postId := id)
  }

  lemma SameValidation(p: Params, id: (Address, Uint64) -> PostId, r: Reader, tx: Tx)
    ensures ValidTx(Renamed(p, id), r, tx) == ValidTx(p, r, tx)
  {}

  lemma SameSplits(p: Params, id: (Address, Uint64) -> PostId, amount: Uint64)
    ensures PostFee(Renamed(p, id), amount) == PostFee(p, amount)
    ensures BoostSplit(Renamed(p, id), amount) == BoostSplit(p, amount)
  {}

  lemma SameTx(p: Params, id: (Address, Uint64) -> PostId, s: State, tx: Tx, h: Uint64, t: Int64)
    requires ValidTx(p, ReaderOf(s), tx)
    requires tx.kind == TX_CREATE_POST ==> id(tx.sender, tx.nonce) == p.postId(tx.sender, tx.nonce)
    ensures ApplyTx(Renamed(p, id), s, tx, h, t) == ApplyTx(p, s, tx, h, t)
    ensures TxDust(Renamed(p, id), s, tx) == TxDust(p, s, tx)
  {
    SameSplits(p, id, tx.amount);
    ValidSpender(p, s, tx);
  }

  lemma {:induction false} SameTxs(p: Params, id: (Address, Uint64) -> PostId, s: State, txs: seq<Tx>,
                                   h: Uint64, t: Int64)
    requires AgreeOn(p.postId, id, Mints(txs)) && ApplyTxs(p, s, txs, h, t).Some?
    ensures ApplyTxs(Renamed(p, id), s, txs, h, t) == ApplyTxs(p, s, txs, h, t)
    ensures TxsDust(Renamed(p, id), s, txs, h, t) == TxsDust(p, s, txs, h, t)
  {
    TxsUnfold(p, s, txs, h, t);
    TxsUnfold(Renamed(p, id), s, txs, h, t);
    if txs != [] {
      var init, last := txs[..|txs| - 1], txs[|txs| - 1];
      LastTx(p, s, txs, h, t);
      MintsPart(txs);
      SameTxs(p, id, s, init, h, t);
      var m := ApplyTxs(p, s, init, h, t).value;
      SameValidation(p, id, ReaderOf(m), last);
      SameTx(p, id, m, last, h, t);
    }
  }

  lemma MintsPart(txs: seq<Tx>)
    requires txs != []
    ensures Mints(txs[..|txs| - 1]) <= Mints(txs)
    ensures var last := txs[|txs| - 1]; last.kind == TX_CREATE_POST ==> (last.sender, last.nonce) in Mints(txs)
  {}

  lemma {:induction false} SameEvidence(p: Params, id: (Address, Uint64) -> PostId, s: State, evs: seq<Evidence>)
    ensures ApplyEvidences(Renamed(p, id), s, evs) == ApplyEvidences(p, s, evs)
  {
    if evs != [] {
      SameEvidence(p, id, s, evs[..|evs| - 1]);
      SameOneEvidence(p, id, ApplyEvidences(p, s, evs[..|evs| - 1]), evs[|evs| - 1]);
    }
  }

  lemma SameOneEvidence(p: Params, id: (Address, Uint64) -> PostId, s: State, ev: Evidence)
    ensures ApplyEvidence(Renamed(p, id), s, ev) == ApplyEvidence(p, s, ev)
  {}

  lemma SameBlock(p: Params, id: (Address, Uint64) -> PostId, s: State, b: Block)
    requires AgreeOn(p.postId, id, Mints(b.txs)) && ApplyBlock(p, s, b).Some?
    ensures ApplyBlock(Renamed(p, id), s, b) == ApplyBlock(p, s, b)
    ensures BlockDust(Renamed(p, id), s, b) == BlockDust(p, s, b)
  {
    SameEvidence(p, id, Release(s, b.header.height), b.evidence);
    SameTxs(p, id, BeginBlock(p, s, b), b.txs, b.header.height, b.header.timestamp);
  }

  lemma {:induction false} SameRun(p: Params, id: (Address, Uint64) -> PostId, s: State, blocks: seq<Block>)
    requires AgreeOn(p.postId, id, Mints(AllTxs(blocks))) && Execute(p, s, blocks).Some?
    ensures Execute(Renamed(p, id), s, blocks) == Execute(p, s, blocks)
    ensures RunDust(Renamed(p, id), s, blocks) == RunDust(p, s, blocks)
  {
    ExecuteUnfold(p, s, blocks);
    ExecuteUnfold(Renamed(p, id), s, blocks);
    if blocks != [] {
      var n := |blocks| - 1;
      MintsSplit(AllTxs(blocks[..n]), blocks[n].txs);
      SameRun(p, id, s, blocks[..n]);
      SameBlock(p, id, Execute(p, s, blocks[..n]).value, blocks[n]);
    }
  }

  lemma MintsSplit(front: seq<Tx>, back: seq<Tx>)
    ensures Mints(front) <= Mints(front + back) && Mints(back) <= Mints(front + back)
  {
    var all := front + back;
    forall x | x in Mints(front)
      ensures x in Mints(all)
    {
      var i :| 0 <= i < |front| && front[i].kind == TX_CREATE_POST && x == (front[i].sender, front[i].nonce);
      assert all[i] == front[i];
    }
    forall x | x in Mints(back)
      ensures x in Mints(all)
    {
      var i :| 0 <= i < |back| && back[i].kind == TX_CREATE_POST && x == (back[i].sender, back[i].nonce);
      assert all[|front| + i] == back[i];
    }
  }

  // ---------- The transfer ----------

  /** A run in which the ids of the posts it creates do not collide; nothing is asked of other pairs. */
  ghost predicate ScopedRun(p: Params, accts: seq<GenesisAccount>, vals: seq<GenesisValidator>,
                            validAddress: Address -> bool, blocks: seq<Block>)
  {
    && GoodParams(p) && DistinctOn(p.postId, Mints(AllTxs(blocks)))
    && DistinctAccounts(accts) && StakedOnce(vals)
    && GenesisState(accts, vals, validAddress).Some?
    && TxCount(blocks) < TWO64
    && Execute(p, GenesisState(accts, vals, validAddress).value, blocks).Some?
  }

  /** Every such run is a run under parameters that differ in the ids of other pairs only, with the same states. */
  lemma ScopedRunIsRun(p: Params, accts: seq<GenesisAccount>, vals: seq<GenesisValidator>,
                       validAddress: Address -> bool, blocks: seq<Block>) returns (q: Params)
    requires ScopedRun(p, accts, vals, validAddress, blocks)
    ensures q == p.(postId := q.postId) && Run(q, accts, vals, validAddress, blocks)
    ensures var g := GenesisState(accts, vals, validAddress).value;
            Execute(q, g, blocks) == Execute(p, g, blocks) && RunDust(q, g, blocks) == RunDust(p, g, blocks)
  {
    var id := ExtendIds(p.postId, Mints(AllTxs(blocks)));
    q := Renamed(p, id);
    SameRun(p, id, GenesisState(accts, vals, validAddress).value, blocks);
  }

  /** Conservation under the weaker hypothesis. */
  lemma ScopedConservation(p: Params, accts: seq<GenesisAccount>, vals: seq<GenesisValidator>,
                           validAddress: Address -> bool, blocks: seq<Block>)
    requires ScopedRun(p, accts, vals, validAddress, blocks)
    ensures var g := GenesisState(accts, vals, validAddress).value;
            var r := Execute(p, g, blocks).value;
            Wealth(r) + RunDust(p, g, blocks) == Supply(accts) + r.issued && RunDust(p, g, blocks) >= 0
  {
    var q := ScopedRunIsRun(p, accts, vals, validAddress, blocks);
    Conservation(q, accts, vals, validAddress, blocks);
  }

  /** If SHA-256 does not collide on the encodings of the pairs that the run creates posts at, their ids are
      distinct. */
  lemma ScopedIdsFromHash(p: Params, pairs: set<Pair>)
    requires forall a: Address, n: Uint64 :: p.postId(a, n) == p.sha256(Stream(PostIdFields(a, n)))
    requires NoCollision(p, set x | x in pairs :: Stream(PostIdFields(x.0, x.1)))
    ensures DistinctOn(p.postId, pairs)
  {
    forall x, y | x in pairs && y in pairs && p.postId(x.0, x.1) == p.postId(y.0, y.1)
      ensures x == y
    {
      PostIdFieldsInjective(x.0, x.1, y.0, y.1);
    }
  }
}
