/** What a chain that nodes build says about every one of its blocks: proposer, time, size, root and certificate. */
module LawfulChains {
  import opened Words
  import opened Types
  import opened Ledger
  import opened Genesis
  import opened Runs
  import opened ValidatorSort
  import opened Consensus
  import opened Quorum
  import opened Hashes
  import opened StateRoots
  import opened Proposals
  import opened Chains

  /** The set that proposes and votes: the active one, or the genesis one when there is none. */
  function ActiveValidators(vs: seq<Validator>, genesisVals: seq<GenesisValidator>): seq<Validator> {
    if |vs| > 0 then vs else InitialValidators(genesisVals)
  }

  /** Block b after a chain that ends with last and leads to state s: the scheduled validator proposed it, its time is
      later, its size is allowed, it names the state it leads to, and its certificate, if it has one, is accepted. */
  ghost predicate LawfulBlock(p: Params, s: State, last: Option<Block>, vs: seq<Validator>, b: Block) {
    && b.header.proposer == Proposer(vs, b.header.height).address
    && (last.Some? ==> last.value.header.timestamp < b.header.timestamp)
    && (p.maxTxPerBlock > 0 ==> |b.txs| <= p.maxTxPerBlock)
    && ApplyBlock(p, s, b).Some? && b.header.stateRoot == StateRoot(p, ApplyBlock(p, s, b).value)
    && (b.qc.Some? ==> Accepted(p, b.qc.value, HeaderHash(p, b.header), vs))
  }

  /** Every block of the chain is lawful after those before it. Proofs use it only through LawfulUnfold: the two
      intermediate predicates keep the verifier from unfolding it elsewhere. */
  ghost predicate Lawful(p: Params, g: State, genesisVals: seq<GenesisValidator>, chain: seq<Block>)
    decreases |chain|, 2
  {
    LawfulFolded(p, g, genesisVals, chain)
  }

  ghost predicate LawfulFolded(p: Params, g: State, genesisVals: seq<GenesisValidator>, chain: seq<Block>)
    decreases |chain|, 1
  {
    LawfulFrom(p, g, genesisVals, chain)
  }

  ghost predicate LawfulFrom(p: Params, g: State, genesisVals: seq<GenesisValidator>, chain: seq<Block>)
    decreases |chain|, 0
  {
    chain == [] || (
      var init := chain[..|chain| - 1];
      && Lawful(p, g, genesisVals, init) && Execute(p, g, init).Some?
      && var s := Execute(p, g, init).value;
         LawfulBlock(p, s, Head(init), ActiveValidators(s.validators, genesisVals), chain[|chain| - 1]))
  }

  lemma LawfulUnfold(p: Params, g: State, genesisVals: seq<GenesisValidator>, chain: seq<Block>)
    ensures Lawful(p, g, genesisVals, chain) == LawfulFrom(p, g, genesisVals, chain)
  {
    assert Lawful(p, g, genesisVals, chain) == LawfulFolded(p, g, genesisVals, chain);
    assert LawfulFolded(p, g, genesisVals, chain) == LawfulFrom(p, g, genesisVals, chain);
  }

  lemma LawfulNext(p: Params, g: State, genesisVals: seq<GenesisValidator>, chain: seq<Block>, s: State, b: Block)
    requires Lawful(p, g, genesisVals, chain) && Execute(p, g, chain) == Some(s)
    requires LawfulBlock(p, s, Head(chain), ActiveValidators(s.validators, genesisVals), b)
    ensures Lawful(p, g, genesisVals, chain + [b])
  {
    LawfulUnfold(p, g, genesisVals, chain + [b]);
    assert (chain + [b])[..|chain|] == chain;
  }

  lemma LawfulLast(p: Params, g: State, genesisVals: seq<GenesisValidator>, chain: seq<Block>)
    requires Lawful(p, g, genesisVals, chain) && chain != []
    ensures var init := chain[..|chain| - 1];
            && Execute(p, g, init).Some?
            && var s := Execute(p, g, init).value;
               LawfulBlock(p, s, Head(init), ActiveValidators(s.validators, genesisVals), chain[|chain| - 1])
  {
    LawfulUnfold(p, g, genesisVals, chain);
  }

  /** Each block of a lawful chain is lawful after those before it. */
  lemma {:induction false} LawfulAt(p: Params, g: State, genesisVals: seq<GenesisValidator>, chain: seq<Block>, i: nat)
    requires Lawful(p, g, genesisVals, chain) && i < |chain|
    ensures Execute(p, g, chain[..i]).Some?
    ensures var s := Execute(p, g, chain[..i]).value;
            LawfulBlock(p, s, Head(chain[..i]), ActiveValidators(s.validators, genesisVals), chain[i])
    decreases |chain|
  {
    if i == |chain| - 1 {
      LawfulLast(p, g, genesisVals, chain);
    } else {
      LawfulUnfold(p, g, genesisVals, chain);
      LawfulAt(p, g, genesisVals, chain[..|chain| - 1], i);
      assert chain[..|chain| - 1][..i] == chain[..i];
    }
  }

  /** A block that a validator accepts continues a lawful chain, with no certificate or an accepted one. */
  lemma PassedIsLawful(p: Params, g: State, genesisVals: seq<GenesisValidator>, chain: seq<Block>, s: State, b: Block,
                       qc: Option<QuorumCert>, now: Int64)
    requires Lawful(p, g, genesisVals, chain) && Execute(p, g, chain) == Some(s)
    requires Passes(p, b, s, Head(chain), ActiveValidators(s.validators, genesisVals), now)
    requires qc.Some? ==> Accepted(p, qc.value, HeaderHash(p, b.header), ActiveValidators(s.validators, genesisVals))
    ensures Lawful(p, g, genesisVals, chain + [b.(qc := qc)])
  {
    assert ApplyBlock(p, s, b.(qc := qc)) == ApplyBlock(p, s, b);
    LawfulNext(p, g, genesisVals, chain, s, b.(qc := qc));
  }

  /** Time runs forward along a lawful chain, from any block to any later one. */
  lemma {:induction false} TimeRunsForward(p: Params, g: State, genesisVals: seq<GenesisValidator>, chain: seq<Block>,
                                           i: nat, j: nat)
    requires Lawful(p, g, genesisVals, chain) && i < j < |chain|
    ensures chain[i].header.timestamp < chain[j].header.timestamp
    decreases j
  {
    LawfulAt(p, g, genesisVals, chain, j);
    assert chain[..j][j - 1] == chain[j - 1];
    if i < j - 1 {
      TimeRunsForward(p, g, genesisVals, chain, i, j - 1);
    }
  }

  /** Every certified block of a lawful chain was signed by more than two thirds of the stake of the set active before
      it, or of the genesis set if there was none, and its proposer owned its height there. */
  lemma CertifiedByTwoThirds(p: Params, g: State, genesisVals: seq<GenesisValidator>, chain: seq<Block>, i: nat)
    requires Lawful(p, g, genesisVals, chain) && i < |chain| && chain[i].qc.Some?
    ensures Execute(p, g, chain[..i]).Some?
    ensures var active := Execute(p, g, chain[..i]).value.validators;
            var vs := if active != [] then active else InitialValidators(genesisVals);
            && chain[i].header.proposer == Proposer(vs, chain[i].header.height).address
            && chain[i].qc.value.blockHash == HeaderHash(p, chain[i].header)
            && (StakesFit(vs) && DistinctAddresses(vs) && StakeSum(vs) < TWO64 ==>
                  3 * StakeOf(StakeMap(vs), AllSigners(p, chain[i].qc.value, vs)) > 2 * StakeSum(vs))
  {
    LawfulAt(p, g, genesisVals, chain, i);
    var vs := ActiveValidators(Execute(p, g, chain[..i]).value.validators, genesisVals);
    if StakesFit(vs) && DistinctAddresses(vs) && StakeSum(vs) < TWO64 {
      CertificateExact(p, chain[i].qc.value, HeaderHash(p, chain[i].header), vs);
    }
  }
}
