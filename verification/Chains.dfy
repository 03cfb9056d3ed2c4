/** Chains of committed blocks: what a node's chain satisfies, and why equal heads mean equal histories. */
module Chains {
  import opened Words
  import opened Types
  import opened Ledger
  import opened Invariant
  import opened Runs
  import opened Encoding
  import opened Hashes
  import opened StateRoots
  import opened Proposals

  function Head(chain: seq<Block>): Option<Block> {
    if chain == [] then None else Some(chain[|chain| - 1])
  }

  /** Block i points at its parent and commits to its transactions. */
  ghost predicate LinkedAt(p: Params, chain: seq<Block>, i: int)
    requires 0 <= i < |chain|
  {
    && chain[i].header.prevHash == ExpectedParent(p, Head(chain[..i]))
    && chain[i].header.txRoot == TxRoot(p, chain[i].txs)
  }

  ghost predicate Linked(p: Params, chain: seq<Block>) {
    forall i {:trigger LinkedAt(p, chain, i)} :: 0 <= i < |chain| ==> LinkedAt(p, chain, i)
  }

  /** Along a linked chain each block names the hash of its parent's header, the first one zero, and the root of its
      transactions. */
  lemma ParentHashes(p: Params, chain: seq<Block>, i: nat)
    requires Linked(p, chain) && i < |chain|
    ensures chain[i].header.prevHash == if i == 0 then 0 else p.sha256(Stream(HeaderFields(chain[i - 1].header)))
    ensures chain[i].header.txRoot == TxRoot(p, chain[i].txs)
  {
    assert LinkedAt(p, chain, i);
  }

  /** The head names the root of the state that the chain leads to. */
  ghost predicate Rooted(p: Params, s: State, head: Option<Block>) {
    head.Some? ==> head.value.header.stateRoot == StateRoot(p, s)
  }

  lemma ExecuteNext(p: Params, g: State, chain: seq<Block>, b: Block)
    requires Execute(p, g, chain).Some?
    ensures Execute(p, g, chain + [b]) == ApplyBlock(p, Execute(p, g, chain).value, b)
  {
    ExecuteUnfold(p, g, chain + [b]);
    assert (chain + [b])[..|chain|] == chain;
  }

  lemma LinkNext(p: Params, chain: seq<Block>, b: Block)
    requires Linked(p, chain)
    requires b.header.prevHash == ExpectedParent(p, Head(chain)) && b.header.txRoot == TxRoot(p, b.txs)
    ensures Linked(p, chain + [b])
  {
    var next := chain + [b];
    forall i | 0 <= i < |next|
      ensures LinkedAt(p, next, i)
    {
      if i < |chain| {
        assert LinkedAt(p, chain, i);
        assert next[..i] == chain[..i];
      } else {
        assert next[..i] == chain;
      }
    }
  }

  // ---------- Agreement on history ----------

  /** Everything that is hashed when a chain is built or checked, state roots aside. */
  ghost function ChainInputs(p: Params, chain: seq<Block>): set<Bytes> {
    if chain == [] then {} else
      var b := chain[|chain| - 1];
      ChainInputs(p, chain[..|chain| - 1]) + {Stream(HeaderFields(b.header))} + TxInputs(p, b.txs)
  }

  ghost predicate ChainFits(chain: seq<Block>) {
    forall i :: 0 <= i < |chain| ==> TxsFit(chain[i].txs)
  }

  /** A chain that links up, with heights one by one and sizes that fit. */
  ghost predicate GoodChain(p: Params, chain: seq<Block>) {
    Linked(p, chain) && Consecutive(chain) && ChainFits(chain)
  }

  predicate EvidenceFree(chain: seq<Block>) {
    forall i :: 0 <= i < |chain| ==> chain[i].evidence == []
  }

  lemma FewerInputs(p: Params, small: set<Bytes>, large: set<Bytes>)
    requires small <= large && NoCollision(p, large)
    ensures NoCollision(p, small)
  {}

  lemma HeadsEqual(p: Params, b: Block, c: Block, inputs: set<Bytes>)
    requires NoCollision(p, inputs) && HeaderHash(p, b.header) == HeaderHash(p, c.header)
    requires Stream(HeaderFields(b.header)) in inputs && Stream(HeaderFields(c.header)) in inputs
    ensures b.header == c.header
  {
    HeaderInjective(b.header, c.header);
  }

  lemma LastLink(p: Params, chain: seq<Block>)
    requires chain != [] && Linked(p, chain)
    ensures var n := |chain| - 1;
            && Linked(p, chain[..n])
            && chain[n].header.prevHash == ExpectedParent(p, Head(chain[..n]))
            && chain[n].header.txRoot == TxRoot(p, chain[n].txs)
  {
    var n := |chain| - 1;
    assert LinkedAt(p, chain, n);
    forall i | 0 <= i < n
      ensures LinkedAt(p, chain[..n], i)
    {
      assert LinkedAt(p, chain, i);
      assert chain[..n][..i] == chain[..i];
    }
  }

  lemma Extended(c: seq<Block>, d: seq<Block>)
    requires c != [] && d != [] && SameHistory(c[..|c| - 1], d[..|d| - 1])
    requires c[|c| - 1].header == d[|d| - 1].header && c[|c| - 1].txs == d[|d| - 1].txs
    ensures SameHistory(c, d)
  {
    assert forall i :: 0 <= i < |c| - 1 ==> c[..|c| - 1][i] == c[i] && d[..|c| - 1][i] == d[i];
  }

  /** The same header and transactions at every height. */
  predicate SameHistory(c: seq<Block>, d: seq<Block>) {
    |c| == |d| && forall i :: 0 <= i < |c| ==> c[i].header == d[i].header && c[i].txs == d[i].txs
  }

  /** Two chains whose heads hash equally have the same headers and the same transactions at every
      height, if SHA-256 does not collide on what they hashed. */
  lemma {:induction false} SameHeadSameHistory(p: Params, c: seq<Block>, d: seq<Block>)
    requires GoodChain(p, c) && c != [] && GoodChain(p, d) && d != []
    requires NoCollision(p, ChainInputs(p, c) + ChainInputs(p, d))
    requires HeaderHash(p, c[|c| - 1].header) == HeaderHash(p, d[|d| - 1].header)
    ensures SameHistory(c, d)
    decreases |c|
  {
    LastBlocksEqual(p, c, d);
    ParentsEqual(p, c, d);
    var c', d' := c[..|c| - 1], d[..|d| - 1];
    if c' != [] {
      SameHeadSameHistory(p, c', d');
    }
    Extended(c, d);
  }

  /** Well-formed chains with one head have parents that hash equally, if they have parents. */
  lemma ParentsEqual(p: Params, c: seq<Block>, d: seq<Block>)
    requires GoodChain(p, c) && c != [] && GoodChain(p, d) && d != []
    requires NoCollision(p, ChainInputs(p, c) + ChainInputs(p, d)) && c[|c| - 1].header == d[|d| - 1].header
    ensures |c| == |d| && GoodChain(p, c[..|c| - 1]) && GoodChain(p, d[..|d| - 1])
    ensures NoCollision(p, ChainInputs(p, c[..|c| - 1]) + ChainInputs(p, d[..|d| - 1]))
    ensures var c', d' := c[..|c| - 1], d[..|d| - 1];
            c' != [] ==> d' != [] && HeaderHash(p, c'[|c'| - 1].header) == HeaderHash(p, d'[|d'| - 1].header)
  {
    GoodPrefix(p, c);
    GoodPrefix(p, d);
    FewerInputs(p, ChainInputs(p, c[..|c| - 1]) + ChainInputs(p, d[..|d| - 1]), ChainInputs(p, c) + ChainInputs(p, d));
  }

  lemma GoodPrefix(p: Params, c: seq<Block>)
    requires GoodChain(p, c) && c != []
    ensures GoodChain(p, c[..|c| - 1]) && ChainInputs(p, c[..|c| - 1]) <= ChainInputs(p, c)
    ensures |c| == c[|c| - 1].header.height
    ensures |c| > 1 ==> c[|c| - 1].header.prevHash == HeaderHash(p, c[|c| - 2].header)
  {
    LastLink(p, c);
  }

  lemma LastBlocksEqual(p: Params, c: seq<Block>, d: seq<Block>)
    requires c != [] && d != [] && GoodChain(p, c) && GoodChain(p, d)
    requires NoCollision(p, ChainInputs(p, c) + ChainInputs(p, d))
    requires HeaderHash(p, c[|c| - 1].header) == HeaderHash(p, d[|d| - 1].header)
    ensures c[|c| - 1].header == d[|d| - 1].header && c[|c| - 1].txs == d[|d| - 1].txs
  {
    var b, e := c[|c| - 1], d[|d| - 1];
    var inputs := ChainInputs(p, c) + ChainInputs(p, d);
    HeadsEqual(p, b, e, inputs);
    LastLink(p, c);
    LastLink(p, d);
    FewerInputs(p, TxInputs(p, b.txs) + TxInputs(p, e.txs), inputs);
    TxRootInjective(p, b.txs, e.txs);
  }

  /** Equal evidence-free histories lead to equal states. */
  lemma {:induction false} SameHistorySameState(p: Params, g: State, c: seq<Block>, d: seq<Block>)
    requires SameHistory(c, d) && EvidenceFree(c) && EvidenceFree(d)
    ensures Execute(p, g, c) == Execute(p, g, d)
  {
    ExecuteUnfold(p, g, c);
    ExecuteUnfold(p, g, d);
    if c != [] {
      var n := |c| - 1;
      SameHistorySameState(p, g, c[..n], d[..n]);
      assert c[n].(qc := d[n].qc) == d[n];
    }
  }

  /** Chain agreement: equal head hashes mean equal histories and equal states. */
  lemma ChainAgreement(p: Params, g: State, c: seq<Block>, d: seq<Block>)
    requires GoodChain(p, c) && EvidenceFree(c) && GoodChain(p, d) && EvidenceFree(d)
    requires Head(c).Some? && Head(d).Some?
    requires HeaderHash(p, Head(c).value.header) == HeaderHash(p, Head(d).value.header)
    requires NoCollision(p, ChainInputs(p, c) + ChainInputs(p, d))
    ensures SameHistory(c, d) && Execute(p, g, c) == Execute(p, g, d)
  {
    SameHeadSameHistory(p, c, d);
    SameHistorySameState(p, g, c, d);
  }

  // ---------- Agreement on the state alone ----------

  /** Evidence or not: two states whose chains' heads name the same state root are the same, up to the slash
      record, if SHA-256 does not collide on the two printouts. */
  lemma SameHeadSameState(p: Params, s: State, head: Block, t: State, other: Block)
    requires Inv(p, s) && Inv(p, t) && Representable(s) && Representable(t)
    requires Rooted(p, s, Some(head)) && Rooted(p, t, Some(other)) && head.header == other.header
    requires NoCollision(p, {Stream(RootFields(s)), Stream(RootFields(t))})
    ensures s == t.(slashed := s.slashed)
  {
    RootDetermines(p, s, t);
  }
}
