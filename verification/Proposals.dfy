/** Checking a proposed block, and tallying the votes for it. */
module Proposals {
  import opened Words
  import opened Types
  import opened Sums
  import opened Ordering
  import opened Ledger
  import opened WorldStates
  import opened ValidatorSort
  import opened BlockExecutors
  import opened Consensus
  import opened Quorum
  import opened Hashes
  import opened StateRoots
  import opened StateRootWriter

  const ALLOWED_DRIFT := 15
  const NO_HASH: Digest := 0

  function ExpectedHeight(last: Option<Block>): Uint64 {
    match last
    case None => 1
    case Some(b) => Wrap(b.header.height + 1)
  }

  function ExpectedParent(p: Params, last: Option<Block>): Digest {
    match last
    case None => NO_HASH
    case Some(b) => HeaderHash(p, b.header)
  }

  /** The block executes on the state, and the header names the root of the result. */
  ghost predicate RootMatches(p: Params, b: Block, s: State) {
    ApplyBlock(p, s, b).Some? && b.header.stateRoot == StateRoot(p, ApplyBlock(p, s, b).value)
  }

  /** Everything a validator checks about a proposal except its timestamp. */
  ghost predicate PassesUntimed(p: Params, b: Block, s: State, last: Option<Block>, vs: seq<Validator>) {
    && b.header.height == ExpectedHeight(last)
    && b.header.prevHash == ExpectedParent(p, last)
    && b.header.proposer == Proposer(vs, b.header.height).address
    && b.header.txRoot == TxRoot(p, b.txs)
    && (p.maxTxPerBlock > 0 ==> |b.txs| <= p.maxTxPerBlock)
    && RootMatches(p, b, s)
  }

  predicate TimestampOk(b: Block, last: Option<Block>, now: Int64) {
    && (last.Some? ==> b.header.timestamp > last.value.header.timestamp)
    && b.header.timestamp <= now + ALLOWED_DRIFT
  }

  ghost predicate Passes(p: Params, b: Block, s: State, last: Option<Block>, vs: seq<Validator>, now: Int64) {
    PassesUntimed(p, b, s, last, vs) && TimestampOk(b, last, now)
  }

  method CheckExecution(p: Params, b: Block, ws: WorldState) returns (ok: bool)
    requires CanApply(p, ws.View(), b)
    ensures ok <==> RootMatches(p, b, ws.View())
    ensures ws.View() == old(ws.View())
  {
    var result := ExecuteBlock(p, ws, b);
    if result == null {
      return false;
    }
    var root := ComputeStateRoot(p, result);
    return b.header.stateRoot == root;
  }

  /** The checks of a validator, in order; no check changes the state. */
  method ValidateProposedBlock(p: Params, b: Block, ws: WorldState, last: Option<Block>, vs: seq<Validator>, now: Int64)
    returns (ok: bool)
    requires CanApply(p, ws.View(), b) && StakesFit(vs)
    ensures ok <==> Passes(p, b, ws.View(), last, vs, now)
    ensures ws.View() == old(ws.View())
  {
    if b.header.height != ExpectedHeight(last) {
      return false;
    }
    var parent := NO_HASH;
    if last.Some? {
      parent := HashHeader(p, last.value.header);
    }
    if b.header.prevHash != parent {
      return false;
    }
    var proposer := ProposerForHeight(vs, b.header.height);
    if b.header.proposer != proposer.address || !TimestampOk(b, last, now) {
      return false;
    }
    var root := ComputeTxRoot(p, b.txs);
    if b.header.txRoot != root {
      return false;
    }
    if p.maxTxPerBlock > 0 && |b.txs| > p.maxTxPerBlock {
      return false;
    }
    ok := CheckExecution(p, b, ws);
  }

  // ---------- The proposer's tally ----------

  function Weight(stakes: map<Address, int>, a: Address): int {
    if a in stakes then stakes[a] else 0
  }

  /** The stake behind the votes, counting every valid vote, repeats included. */
  function Tally(p: Params, votes: seq<Vote>, stakes: map<Address, int>, height: Uint64, hash: Digest): int {
    if votes == [] then 0 else
      var v := votes[|votes| - 1];
      Tally(p, votes[..|votes| - 1], stakes, height, hash)
      + if VerifyVote(p, v) && v.height == height && v.blockHash == hash then Weight(stakes, v.voter) else 0
  }

  method TallyVotes(p: Params, votes: seq<Vote>, vs: seq<Validator>, height: Uint64, hash: Digest)
    returns (enough: bool)
    requires StakesFit(vs)
    ensures enough <==> Wrap(Tally(p, votes, StakeMap(vs), height, hash)) >= Threshold(vs)
  {
    var stakes := BuildStakeMap(vs);
    StakeMapFits(vs);
    var voteStake: Uint64 := 0;
    for i := 0 to |votes|
      invariant voteStake == Wrap(Tally(p, votes[..i], stakes, height, hash))
    {
      assert votes[..i + 1][..i] == votes[..i];
      var v := votes[i];
      if VerifyVote(p, v) && v.height == height && v.blockHash == hash {
        WrapShift(Tally(p, votes[..i], stakes, height, hash), Weight(stakes, v.voter));
        voteStake := Wrap(voteStake + Weight(stakes, v.voter));
      }
    }
    assert votes[..|votes|] == votes;
    var required := QuorumThreshold(vs);
    return voteStake >= required;
  }

  /** No validator has two countable votes. */
  predicate VotesOnce(p: Params, qc: QuorumCert) {
    forall i, j :: 0 <= i < j < |qc.votes| && Counts(p, qc, qc.votes[i]) && Counts(p, qc, qc.votes[j]) ==>
      qc.votes[i].voter != qc.votes[j].voter
  }

  lemma {:induction false} TallyIsStake(p: Params, qc: QuorumCert, stakes: map<Address, int>, n: nat)
    requires n <= |qc.votes| && VotesOnce(p, qc)
    ensures Tally(p, qc.votes[..n], stakes, qc.height, qc.blockHash) == StakeOf(stakes, Signers(p, qc, stakes, n))
  {
    if n == 0 {
      assert Part(stakes, Signers(p, qc, stakes, 0)) == map[];
      SumEmpty(Part(stakes, Signers(p, qc, stakes, 0)), Itself);
    } else {
      var v := qc.votes[n - 1];
      TallyIsStake(p, qc, stakes, n - 1);
      SignersStep(p, qc, stakes, n - 1);
      assert qc.votes[..n][..n - 1] == qc.votes[..n - 1];
      if Counts(p, qc, v) && v.voter in stakes {
        assert v.voter !in Signers(p, qc, stakes, n - 1);
        StakeOfOneMore(stakes, Signers(p, qc, stakes, n - 1), v.voter);
      } else {
        assert Signers(p, qc, stakes, n) == Signers(p, qc, stakes, n - 1);
      }
    }
  }

  /** The proposer's tally decides about the certificate as its peers do with this validator set. */
  ghost predicate TallyDecides(p: Params, qc: QuorumCert, vs: seq<Validator>) {
    Wrap(Tally(p, qc.votes, StakeMap(vs), qc.height, qc.blockHash)) >= Threshold(vs)
    <==> Accepted(p, qc, qc.blockHash, vs)
  }

  /** When nobody's vote is counted twice, the proposer's tally decides exactly as its peers will. */
  lemma TallyAgrees(p: Params, qc: QuorumCert, vs: seq<Validator>)
    requires VotesOnce(p, qc)
    ensures TallyDecides(p, qc, vs)
  {
    TallyIsStake(p, qc, StakeMap(vs), |qc.votes|);
    assert qc.votes[..|qc.votes|] == qc.votes;
  }

  /** Whenever somebody's vote is counted twice there is a validator set of two, each with half of the stake, for which
      the tally passes although every peer refuses the certificate. */
  lemma RepeatedVotePasses(p: Params, qc: QuorumCert) returns (vs: seq<Validator>)
    requires !VotesOnce(p, qc) && |qc.votes| < TWO63
    ensures StakesFit(vs) && DistinctAddresses(vs)
    ensures Wrap(Tally(p, qc.votes, StakeMap(vs), qc.height, qc.blockHash)) >= Threshold(vs)
    ensures !Accepted(p, qc, qc.blockHash, vs)
  {
    var i, j :| 0 <= i < j < |qc.votes| && Counts(p, qc, qc.votes[i]) && Counts(p, qc, qc.votes[j])
                && qc.votes[i].voter == qc.votes[j].voter;
    var a := qc.votes[i].voter;
    var other := Outsider(qc.votes);
    vs := [Validator(a, NO_KEY, 2), Validator(other, NO_KEY, 2)];
    TwoStakes(vs);
    TallyCount(p, qc, StakeMap(vs), i, j, |qc.votes|);
    assert qc.votes[..|qc.votes|] == qc.votes;
    OneSigner(p, qc, StakeMap(vs), i, other);
  }

  /** The proposer's tally agrees with the certificate check for every validator set if and only if nobody's vote is
      counted twice. A slice has fewer than 2^63 entries. */
  lemma TallyExact(p: Params, qc: QuorumCert)
    requires |qc.votes| < TWO63
    ensures VotesOnce(p, qc) <==>
      forall vs {:trigger TallyDecides(p, qc, vs)} :: StakesFit(vs) ==> TallyDecides(p, qc, vs)
  {
    if VotesOnce(p, qc) {
      forall vs
        ensures TallyDecides(p, qc, vs)
      {
        TallyAgrees(p, qc, vs);
      }
    } else {
      var vs := RepeatedVotePasses(p, qc);
      assert !TallyDecides(p, qc, vs);
    }
  }

  lemma TwoStakes(vs: seq<Validator>)
    requires |vs| == 2 && vs[0].address != vs[1].address && vs[0].stake == 2 && vs[1].stake == 2
    ensures StakeSum(vs) == 4 && StakeMap(vs) == map[vs[0].address := 2, vs[1].address := 2]
  {
    assert vs[..1] == [vs[0]] && vs[..1][..0] == [];
    assert StakeSum(vs[..1]) == 2;
    assert StakeMap(vs[..1]) == map[vs[0].address := 2];
  }

  /** With weights of two, the tally of the first n votes is at most 2n, and a voter counted twice alone brings four. */
  lemma {:induction false} TallyCount(p: Params, qc: QuorumCert, stakes: map<Address, int>, i: nat, j: nat, n: nat)
    requires i < j < |qc.votes| && n <= |qc.votes| && forall a :: a in stakes ==> stakes[a] == 2
    requires Counts(p, qc, qc.votes[i]) && Counts(p, qc, qc.votes[j])
    requires qc.votes[i].voter in stakes && qc.votes[j].voter in stakes
    ensures var t := Tally(p, qc.votes[..n], stakes, qc.height, qc.blockHash);
            0 <= t <= 2 * n && (i < n ==> t >= 2) && (j < n ==> t >= 4)
  {
    if n > 0 {
      TallyCount(p, qc, stakes, i, j, n - 1);
      assert qc.votes[..n][..n - 1] == qc.votes[..n - 1];
    }
  }

  /** Of two validators, one of whom did not vote, only the other can be a signer. */
  lemma OneSigner(p: Params, qc: QuorumCert, stakes: map<Address, int>, i: nat, other: Address)
    requires i < |qc.votes| && Counts(p, qc, qc.votes[i]) && qc.votes[i].voter in stakes
    requires forall a :: a in stakes ==> a == qc.votes[i].voter || a == other
    requires forall k :: 0 <= k < |qc.votes| ==> qc.votes[k].voter != other
    ensures StakeOf(stakes, Signers(p, qc, stakes, |qc.votes|)) == stakes[qc.votes[i].voter]
  {
    var a := qc.votes[i].voter;
    assert Signers(p, qc, stakes, |qc.votes|) == {a};
    NobodySigned(stakes);
    StakeOfOneMore(stakes, {}, a);
    assert {} + {a} == {a};
  }

  // ---------- Somebody did not vote ----------

  /** The n lowest addresses. */
  ghost function Lowest(n: nat): set<Address>
    requires n < TWO64
  {
    if n == 0 then {} else Lowest(n - 1) + {n - 1}
  }

  lemma {:induction false} LowestCount(n: nat)
    requires n < TWO64
    ensures |Lowest(n)| == n && forall a :: a in Lowest(n) ==> a < n
  {
    if n > 0 {
      LowestCount(n - 1);
    }
  }

  lemma {:induction false} VoterCount(votes: seq<Vote>, n: nat)
    requires n <= |votes|
    ensures |set i | 0 <= i < n :: votes[i].voter| <= n
  {
    if n > 0 {
      VoterCount(votes, n - 1);
      assert (set i | 0 <= i < n :: votes[i].voter)
             == (set i | 0 <= i < n - 1 :: votes[i].voter) + {votes[n - 1].voter};
    }
  }

  /** There are more addresses than votes. */
  lemma Outsider(votes: seq<Vote>) returns (other: Address)
    requires |votes| < TWO63
    ensures forall i :: 0 <= i < |votes| ==> votes[i].voter != other
  {
    var voters := set i | 0 <= i < |votes| :: votes[i].voter;
    var some := Lowest(|votes| + 1);
    LowestCount(|votes| + 1);
    VoterCount(votes, |votes|);
    if some <= voters {
      SubsetSize(some, voters);
    }
    other :| other in some && other !in voters;
  }
}
