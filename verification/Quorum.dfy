/** Quorum certificates: what an accepted one proves, and what two conflicting ones prove. */
module Quorum {
  import opened Words
  import opened Types
  import opened SafeMath
  import opened Sums
  import opened Ledger
  import opened ValidatorSort
  import opened Consensus

  /** Stake by address; a later entry for the same address replaces an earlier one. */
  function StakeMap(vs: seq<Validator>): map<Address, int> {
    if vs == [] then map[] else
      var last := vs[|vs| - 1];
      StakeMap(vs[..|vs| - 1])[last.address := last.stake]
  }

  function Threshold(vs: seq<Validator>): int {
    2 * Wrap(StakeSum(vs)) / 3 + 1
  }

  method QuorumThreshold(vs: seq<Validator>) returns (required: Uint64)
    requires StakesFit(vs)
    ensures required == Threshold(vs)
  {
    var total := TotalStake(vs);
    MulDivIsClampedFloor(total, 2, 3);
    required := Plus(MulDiv(total, 2, 3), 1);
  }

  /** A vote the certificate may count. */
  predicate Counts(p: Params, qc: QuorumCert, v: Vote) {
    v.height == qc.height && v.blockHash == qc.blockHash && VerifyVote(p, v)
  }

  /** The validators behind the first n votes of a certificate. */
  function Signers(p: Params, qc: QuorumCert, stakes: map<Address, int>, n: nat): set<Address>
    requires n <= |qc.votes|
  {
    set i | 0 <= i < n && qc.votes[i].voter in stakes && Counts(p, qc, qc.votes[i]) :: qc.votes[i].voter
  }

  function AllSigners(p: Params, qc: QuorumCert, vs: seq<Validator>): set<Address> {
    Signers(p, qc, StakeMap(vs), |qc.votes|)
  }

  ghost function StakeOf(stakes: map<Address, int>, who: set<Address>): int {
    SumBy(Part(stakes, who), Itself)
  }

  /** Acceptance: the certificate is for this block and distinct validators with enough stake signed it. */
  ghost predicate Accepted(p: Params, qc: QuorumCert, blockHash: Digest, vs: seq<Validator>) {
    qc.blockHash == blockHash && Wrap(StakeOf(StakeMap(vs), AllSigners(p, qc, vs))) >= Threshold(vs)
  }

  lemma {:induction false} StakeMapFits(vs: seq<Validator>)
    requires StakesFit(vs)
    ensures forall a :: a in StakeMap(vs) ==> 0 <= StakeMap(vs)[a] < TWO64
  {
    if vs != [] {
      StakeMapFits(vs[..|vs| - 1]);
    }
  }

  method BuildStakeMap(vs: seq<Validator>) returns (stakes: map<Address, int>)
    ensures stakes == StakeMap(vs)
  {
    stakes := map[];
    for i := 0 to |vs|
      invariant stakes == StakeMap(vs[..i])
    {
      assert vs[..i + 1][..i] == vs[..i];
      stakes := stakes[vs[i].address := vs[i].stake];
    }
    assert vs[..|vs|] == vs;
  }

  lemma SignersStep(p: Params, qc: QuorumCert, stakes: map<Address, int>, i: nat)
    requires i < |qc.votes|
    ensures Signers(p, qc, stakes, i + 1)
            == Signers(p, qc, stakes, i)
               + if qc.votes[i].voter in stakes && Counts(p, qc, qc.votes[i]) then {qc.votes[i].voter} else {}
  {}

  lemma StakeOfOneMore(stakes: map<Address, int>, who: set<Address>, a: Address)
    requires a in stakes && a !in who
    ensures StakeOf(stakes, who + {a}) == StakeOf(stakes, who) + stakes[a]
  {
    assert Part(stakes, who + {a}) == Part(stakes, who)[a := stakes[a]];
    SumUpdate(Part(stakes, who), a, stakes[a], Itself);
  }

  /** Checks a certificate: votes of non-validators, repeats, votes for something else and bad signatures are
      skipped; what remains must reach the threshold. */
  method ValidateQuorumCertificate(p: Params, qc: QuorumCert, blockHash: Digest, vs: seq<Validator>) returns (ok: bool)
    requires StakesFit(vs)
    ensures ok <==> Accepted(p, qc, blockHash, vs)
  {
    if qc.blockHash != blockHash {
      return false;
    }
    var stakes := BuildStakeMap(vs);
    StakeMapFits(vs);
    var seen: set<Address> := {};
    var voteStake: Uint64 := 0;
    NobodySigned(stakes);
    for i := 0 to |qc.votes|
      invariant seen == Signers(p, qc, stakes, i)
      invariant voteStake == Wrap(StakeOf(stakes, seen))
    {
      seen, voteStake := CountVote(p, qc, stakes, i, seen, voteStake);
    }
    var required := QuorumThreshold(vs);
    return voteStake >= required;
  }

  /** Counts one vote, unless it is a non-validator's, a repeat, for something else, or badly signed. */
  method CountVote(p: Params, qc: QuorumCert, stakes: map<Address, int>, i: nat, seen: set<Address>, voteStake: Uint64)
    returns (seen': set<Address>, voteStake': Uint64)
    requires i < |qc.votes| && seen == Signers(p, qc, stakes, i) && voteStake == Wrap(StakeOf(stakes, seen))
    requires forall a :: a in stakes ==> 0 <= stakes[a] < TWO64
    ensures seen' == Signers(p, qc, stakes, i + 1) && voteStake' == Wrap(StakeOf(stakes, seen'))
  {
    SignersStep(p, qc, stakes, i);
    var vote := qc.votes[i];
    if vote.voter !in stakes || vote.voter in seen {
      return seen, voteStake;
    }
    if vote.height != qc.height || vote.blockHash != qc.blockHash || !VerifyVote(p, vote) {
      return seen, voteStake;
    }
    StakeOfOneMore(stakes, seen, vote.voter);
    WrapShift(StakeOf(stakes, seen), stakes[vote.voter]);
    return seen + {vote.voter}, Wrap(voteStake + stakes[vote.voter]);
  }

  lemma NobodySigned(stakes: map<Address, int>)
    ensures StakeOf(stakes, {}) == 0
  {
    assert Part(stakes, {}) == map[];
    SumEmpty(Part(stakes, {}), Itself);
  }

  // ---------- Stake by address ----------

  lemma {:induction false} StakeMapTotal(vs: seq<Validator>)
    requires DistinctAddresses(vs)
    ensures SumBy(StakeMap(vs), Itself) == StakeSum(vs)
    ensures forall a :: a in StakeMap(vs) <==> exists i :: 0 <= i < |vs| && vs[i].address == a
    ensures forall i :: 0 <= i < |vs| ==> vs[i].address in StakeMap(vs) && StakeMap(vs)[vs[i].address] == vs[i].stake
  {
    if vs == [] {
      SumEmpty(StakeMap(vs), Itself);
    } else {
      var n := |vs| - 1;
      StakeMapTotal(vs[..n]);
      SumUpdate(StakeMap(vs[..n]), vs[n].address, vs[n].stake, Itself);
      assert forall i :: 0 <= i < n ==> vs[..n][i] == vs[i];
    }
  }

  /** Stake adds over disjoint groups, so two groups overlap in at least their sum minus everything. */
  lemma {:induction false} Overlap(stakes: map<Address, int>, a: set<Address>, b: set<Address>)
    requires forall x :: x in stakes ==> stakes[x] >= 0
    ensures StakeOf(stakes, a) + StakeOf(stakes, b) <= SumBy(stakes, Itself) + StakeOf(stakes, a * b)
    ensures 0 <= StakeOf(stakes, a) <= SumBy(stakes, Itself)
    decreases |stakes|
  {
    if stakes == map[] {
      NoStake(stakes, a);
      NoStake(stakes, b);
      NoStake(stakes, a * b);
      SumEmpty(stakes, Itself);
    } else {
      var x :| x in stakes;
      SumRemove(stakes, x, Itself);
      Overlap(stakes - {x}, a, b);
      StakeWithout(stakes, a, x);
      StakeWithout(stakes, b, x);
      StakeWithout(stakes, a * b, x);
    }
  }

  lemma NoStake(stakes: map<Address, int>, who: set<Address>)
    requires stakes == map[]
    ensures StakeOf(stakes, who) == 0
  {
    SumEmpty(Part(stakes, who), Itself);
  }

  lemma StakeWithout(stakes: map<Address, int>, who: set<Address>, x: Address)
    requires x in stakes
    ensures StakeOf(stakes, who) == StakeOf(stakes - {x}, who) + if x in who then stakes[x] else 0
  {
    if x in who {
      SumRemove(Part(stakes, who), x, Itself);
      assert Part(stakes, who) - {x} == Part(stakes - {x}, who);
    } else {
      assert Part(stakes, who) == Part(stakes - {x}, who);
    }
  }

  lemma SignerVote(p: Params, qc: QuorumCert, vs: seq<Validator>, a: Address) returns (i: nat)
    requires a in AllSigners(p, qc, vs)
    ensures i < |qc.votes| && qc.votes[i].voter == a && Counts(p, qc, qc.votes[i])
  {
    i :| 0 <= i < |qc.votes| && qc.votes[i].voter in StakeMap(vs) && Counts(p, qc, qc.votes[i])
         && qc.votes[i].voter == a;
  }

  /** There is a valid piece of evidence against a made of one vote from each certificate. */
  ghost predicate Caught(p: Params, qc1: QuorumCert, qc2: QuorumCert, a: Address) {
    exists i, j :: 0 <= i < |qc1.votes| && 0 <= j < |qc2.votes|
      && qc1.votes[i].voter == a && ValidEvidence(p, Evidence(qc1.votes[i], qc2.votes[j]))
  }

  // ---------- Two thirds, exactly ----------

  /** An integer exceeds the floor of a third exactly when its triple exceeds the whole. */
  lemma ThirdsExactly(x: int, total: int)
    ensures x >= total / 3 + 1 <==> 3 * x > total
  {}

  lemma SignedStakeFits(p: Params, qc: QuorumCert, vs: seq<Validator>)
    requires StakesFit(vs) && DistinctAddresses(vs)
    ensures 0 <= StakeOf(StakeMap(vs), AllSigners(p, qc, vs)) <= StakeSum(vs)
  {
    var signers := AllSigners(p, qc, vs);
    StakeMapFits(vs);
    StakeMapTotal(vs);
    Overlap(StakeMap(vs), signers, signers);
  }

  /** A certificate is accepted if and only if it is for this block and its signers hold more than two thirds of the
      stake: less is never enough, and more always is. */
  lemma CertificateExact(p: Params, qc: QuorumCert, hash: Digest, vs: seq<Validator>)
    requires StakesFit(vs) && DistinctAddresses(vs) && StakeSum(vs) < TWO64
    ensures Accepted(p, qc, hash, vs)
            <==> qc.blockHash == hash && 3 * StakeOf(StakeMap(vs), AllSigners(p, qc, vs)) > 2 * StakeSum(vs)
  {
    SignedStakeFits(p, qc, vs);
    ThirdsExactly(StakeOf(StakeMap(vs), AllSigners(p, qc, vs)), 2 * StakeSum(vs));
  }

  /** A signer is a validator with a vote of its own for exactly the certified block and height. */
  lemma SignerExact(p: Params, qc: QuorumCert, vs: seq<Validator>, a: Address)
    requires DistinctAddresses(vs)
    ensures a in AllSigners(p, qc, vs) <==>
      && (exists j :: 0 <= j < |vs| && vs[j].address == a)
      && exists i :: 0 <= i < |qc.votes| && var v := qc.votes[i];
           && v.voter == a && v.height == qc.height && v.blockHash == qc.blockHash
           && |v.signature| > 0 && p.addressOf(v.pubKey) == a && p.voteSigned(v)
  {
    StakeMapTotal(vs);
  }

  // ---------- Accountable safety ----------

  /** Accountable safety: if two certificates of the same height for different blocks are both accepted, validators
      with strictly more than a third of the stake signed both, and each of them can be convicted. */
  lemma AccountableSafety(p: Params, qc1: QuorumCert, hash1: Digest, qc2: QuorumCert, hash2: Digest, vs: seq<Validator>)
    requires StakesFit(vs) && DistinctAddresses(vs) && StakeSum(vs) < TWO64
    requires Accepted(p, qc1, hash1, vs) && Accepted(p, qc2, hash2, vs)
    requires qc1.height == qc2.height && hash1 != hash2
    ensures var both := AllSigners(p, qc1, vs) * AllSigners(p, qc2, vs);
            && 3 * StakeOf(StakeMap(vs), both) > StakeSum(vs)
            && forall a :: a in both ==> Caught(p, qc1, qc2, a)
  {
    var s1, s2 := AllSigners(p, qc1, vs), AllSigners(p, qc2, vs);
    var stakes: map<Address, int> := StakeMap(vs);
    StakeMapFits(vs);
    StakeMapTotal(vs);
    Overlap(stakes, s1, s2);
    Overlap(stakes, s2, s1);
    assert vs[..|vs|] == vs;
    PartialStake(vs, 0, |vs|);
    forall a | a in s1 * s2
      ensures Caught(p, qc1, qc2, a)
    {
      var i := SignerVote(p, qc1, vs, a);
      var j := SignerVote(p, qc2, vs, a);
      assert ValidEvidence(p, Evidence(qc1.votes[i], qc2.votes[j]));
    }
  }
}
