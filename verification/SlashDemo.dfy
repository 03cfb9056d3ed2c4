/** A restart that splits the chain: evidence that was punished before the restart is punished once more after it. */
module SlashDemo {
  import opened Words
  import opened Types
  import opened Ledger
  import opened Genesis
  import opened Runs
  import opened Encoding
  import opened StateRoots
  import opened Demo
  import opened Forgetting

  /** Validator 1 has signed two blocks at one height. */
  const PROOF: Evidence := Evidence(Vote(0, 1, 1, 1, [1]), Vote(0, 2, 1, 1, [1]))

  function ProofBlock(h: Uint64): Block {
    Block(Header(h, 0, 1, 0, 0, 0), [], [PROOF], None)
  }

  /** Without reward, epoch or releases, a block of evidence is that evidence. */
  lemma ProofInBlock(p: Params, s: State, h: Uint64)
    requires p.blockReward == 0 && p.epochLength == 0 && s.queue == []
    ensures ApplyBlock(p, s, ProofBlock(h)) == Some(ApplyEvidence(p, s, PROOF).(height := h))
  {
    assert Release(s, h) == s;
    assert [PROOF][..0] == [] && ApplyEvidences(p, s, []) == s;
    assert BeginBlock(p, s, ProofBlock(h)) == ApplyEvidence(p, s, PROOF);
    TxsUnfold(p, ApplyEvidence(p, s, PROOF), [], h, 0);
  }

  /** A state in which validator 1 has some stake, and the offence is not on record. */
  predicate Unpunished(s: State) {
    && s.accounts.Keys == {1, 2, 3} && s.queue == [] && s.slashed == {}
    && 1 <= s.accounts[1].staked <= 600
  }

  /** The smallest slash, one coin, comes out of the stake. */
  lemma ProofSlashes(x: Bytes, s: State)
    requires Unpunished(s)
    ensures ApplyEvidence(DemoParams(x), s, PROOF)
            == s.(accounts := s.accounts[1 := s.accounts[1].(staked := s.accounts[1].staked - 1)],
                  slashed := {SlashKey(1, 0)}, burned := s.burned + 1)
  {
    assert ValidEvidence(DemoParams(x), PROOF);
    assert SlashAmount(DemoParams(x), AtRisk(s, 1)) == 1;
  }

  lemma ProofIgnored(x: Bytes, s: State)
    requires SlashKey(1, 0) in s.slashed
    ensures ApplyEvidence(DemoParams(x), s, PROOF) == s
  {}

  /** States of this chain are small. */
  ghost predicate Small(s: State) {
    && s.accounts.Keys == {1, 2, 3} && s.posts == map[] && s.stakes == map[] && s.queue == []
    && s.validators == [Validator(1, 1, 600)] && 0 <= s.burned <= 2 && s.issued == 0
    && (forall a :: a in s.accounts ==> SmallAccount(s.accounts[a]))
  }

  predicate SmallAccount(c: Account) {
    0 <= c.balance <= 2000 && c.nonce == 0 && c.name == [] && 0 <= c.staked <= 600
  }

  lemma SmallRepresentable(s: State)
    requires Small(s)
    ensures Representable(s)
  {
    assert |s.accounts| == |s.accounts.Keys| == 3;
    forall a | a in s.accounts
      ensures AccountOk(ToAccountRow(a, s.accounts[a]))
    {
      assert SmallAccount(s.accounts[a]);
    }
  }

  lemma BurnedIsPrinted(s: State, t: State)
    requires Representable(s) && Representable(t) && s.burned != t.burned
    ensures Stream(RootFields(s)) != Stream(RootFields(t))
  {
    if Stream(RootFields(s)) == Stream(RootFields(t)) {
      ReadAccounts(s, t);
      ReadPosts(s, t);
      ReadStakes(s, t);
      ReadLists(s, t);
      ReadCounters(s, t);
    }
  }

  /** Punished in the first block, the offence is punished again in the second by the node that has lost its record. */
  lemma SecondProof(x: Bytes, s: State)
    requires Small(s) && s.burned == 1 && SlashKey(1, 0) in s.slashed && s.accounts[1].staked >= 1
    ensures ApplyBlock(DemoParams(x), s, ProofBlock(2)) == Some(s.(height := 2))
    ensures var again := ApplyBlock(DemoParams(x), Forget(s), ProofBlock(2));
            again.Some? && again.value.burned == 2 && Small(again.value)
  {
    var p := DemoParams(x);
    ProofInBlock(p, s, 2);
    ProofIgnored(x, s);
    ProofInBlock(p, Forget(s), 2);
    assert SmallAccount(s.accounts[1]);
    ProofSlashes(x, Forget(s));
  }

  /** What the first block makes of the genesis state. */
  function FirstSlash(g: State): State
    requires 1 in g.accounts
  {
    g.(accounts := g.accounts[1 := g.accounts[1].(staked := g.accounts[1].staked - 1)],
       slashed := {SlashKey(1, 0)}, burned := g.burned + 1, height := 1)
  }

  lemma FirstSlashSmall(g: State)
    requires g.accounts == START && g.posts == map[] && g.stakes == map[] && g.queue == []
    requires g.validators == [Validator(1, 1, 600)] && g.burned == g.issued == 0
    ensures Small(FirstSlash(g)) && FirstSlash(g).burned == 1 && FirstSlash(g).accounts[1].staked == 599
  {}

  lemma FirstSlashReached(x: Bytes, g: State)
    requires GenesisState(ACCOUNTS, VALIDATORS, AnyAddress) == Some(g) && Unpunished(g)
    ensures Reached(DemoParams(x), FirstSlash(g))
  {
    ProofSlashes(x, g);
    ProofInBlock(DemoParams(x), g, 1);
    LeadsNowhere(x, g);
    LeadsOn(x, [], g, ProofBlock(1), FirstSlash(g));
    LeadsReaches(x, [] + [ProofBlock(1)], FirstSlash(g));
  }

  /** The state after the first block. */
  lemma Punished(x: Bytes) returns (s: State)
    ensures Reached(DemoParams(x), s) && Small(s) && s.burned == 1 && s.slashed == {SlashKey(1, 0)}
    ensures s.accounts[1].staked == 599
  {
    var g := DemoGenesis();
    s := FirstSlash(g);
    FirstSlashSmall(g);
    FirstSlashReached(x, g);
  }

  lemma RootsDiffer(x: Bytes, s: State)
    requires Small(s) && s.burned == 1 && SlashKey(1, 0) in s.slashed && s.accounts[1].staked >= 1
    requires ApplyBlock(DemoParams(x), s, ProofBlock(2)).Some?
    ensures !Follows(DemoParams(x), Forget(s), s, ProofBlock(2))
  {
    SecondProof(x, s);
    var again := ApplyBlock(DemoParams(x), Forget(s), ProofBlock(2)).value;
    SmallRepresentable(s.(height := 2));
    SmallRepresentable(again);
    BurnedIsPrinted(again, s.(height := 2));
  }

  /** In a state that one block reaches from genesis, the next block with the same evidence burns one more coin on a
      node that was restarted in between, and the two state roots differ. */
  lemma ForgetfulSplit() returns (p: Params, s: State, b: Block)
    ensures Reached(p, s) && AllOld(p, s.slashed, b.evidence)
    ensures ApplyBlock(p, s, b).Some? && ApplyBlock(p, Forget(s), b).Some?
    ensures ApplyBlock(p, Forget(s), b).value.burned == ApplyBlock(p, s, b).value.burned + 1
    ensures !Follows(p, Forget(s), s, b)
  {
    p, b := DemoParams([]), ProofBlock(2);
    s := Punished([]);
    SecondProof([], s);
    RootsDiffer([], s);
  }
}
