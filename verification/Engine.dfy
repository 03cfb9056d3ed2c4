/** A validator node as a state machine: proposing, accepting finalized blocks, syncing, committing. Each handler
    runs under the node's lock and is one atomic step. */
module Engines {
  import opened Words
  import opened Types
  import opened Ledger
  import opened Invariant
  import opened Executors
  import opened Blocks
  import opened Genesis
  import opened WorldStates
  import opened BlockExecutors
  import opened Reaping
  import opened Mempools
  import opened Runs
  import opened Consensus
  import opened Quorum
  import opened ValidatorRuns
  import opened Encoding
  import opened Hashes
  import opened StateRoots
  import opened StateRootWriter
  import opened KVStores
  import opened Proposals
  import opened Chains
  import opened LawfulChains
  import opened Authenticity

  /** Room for that many more issued coins and k more transactions. */
  ghost predicate RoomFor(p: Params, s: State, coins: int, k: nat) {
    Wealth(s) + coins < TWO64 && s.issued + coins < TWO64 && NonceRoom(s, k) && k < TWO64
  }

  /** What every node state satisfies, on values: the state is what executing the chain from genesis yields. */
  ghost predicate NodeOk(p: Params, g: State, chain: seq<Block>, s: State, last: Option<Block>, height: Uint64) {
    && GoodParams(p) && PostIdsDistinct(p)
    && Execute(p, g, chain) == Some(s)
    && Sound(p, s)
    && StakesFit(s.validators)
    && last == Head(chain)
    && height == (if chain == [] then 0 else chain[|chain| - 1].header.height)
    && Linked(p, chain)
    && Rooted(p, s, last)
  }

  /** Blocks that differ in their certificate alone do the same. */
  lemma CertificateIrrelevant(p: Params, s: State, b: Block, qc: Option<QuorumCert>)
    ensures ApplyBlock(p, s, b.(qc := qc)) == ApplyBlock(p, s, b)
  {}

  lemma RoomToApply(p: Params, g: State, chain: seq<Block>, s: State, last: Option<Block>, height: Uint64, b: Block)
    requires NodeOk(p, g, chain, s, last, height) && RoomFor(p, s, p.blockReward, |b.txs|)
    ensures CanApply(p, s, b)
  {}

  lemma RoomAfter(p: Params, s: State, b: Block, coins: int, k: nat)
    requires Inv(p, s) && GoodParams(p) && PostIdsDistinct(p) && ApplyBlock(p, s, b).Some?
    requires RoomFor(p, s, coins, k) && |b.txs| <= k
    ensures RoomFor(p, ApplyBlock(p, s, b).value, coins - p.blockReward, k - |b.txs|)
  {
    BlockStep(p, s, b, k - |b.txs|);
  }

  lemma RoomLess(p: Params, s: State, coins: int, k: nat, fewer: int, j: nat)
    requires RoomFor(p, s, coins, k) && fewer <= coins && j <= k
    ensures RoomFor(p, s, fewer, j)
  {}

  /** Committing a block that executes, links and names its state root keeps the node's invariant. */
  lemma CommitStep(p: Params, g: State, chain: seq<Block>, s: State, last: Option<Block>, height: Uint64, b: Block)
    requires NodeOk(p, g, chain, s, last, height) && CanApply(p, s, b)
    requires b.header.prevHash == ExpectedParent(p, last) && b.header.txRoot == TxRoot(p, b.txs)
    requires RootMatches(p, b, s)
    ensures NodeOk(p, g, chain + [b], ApplyBlock(p, s, b).value, Some(b), b.header.height)
  {
    CommitSound(p, s, b);
    CommitLinks(p, g, chain, s, b);
    CommitRoot(p, s, b);
  }

  lemma CommitLinks(p: Params, g: State, chain: seq<Block>, s: State, b: Block)
    requires Execute(p, g, chain) == Some(s) && Linked(p, chain)
    requires b.header.prevHash == ExpectedParent(p, Head(chain)) && b.header.txRoot == TxRoot(p, b.txs)
    ensures Execute(p, g, chain + [b]) == ApplyBlock(p, s, b) && Linked(p, chain + [b]) && Head(chain + [b]) == Some(b)
  {
    ExecuteNext(p, g, chain, b);
    LinkNext(p, chain, b);
  }

  lemma CommitRoot(p: Params, s: State, b: Block)
    requires RootMatches(p, b, s)
    ensures ApplyBlock(p, s, b).Some? && Rooted(p, ApplyBlock(p, s, b).value, Some(b))
  {}

  lemma CommitSound(p: Params, s: State, b: Block)
    requires CanApply(p, s, b) && StakesFit(s.validators) && ApplyBlock(p, s, b).Some?
    ensures Sound(p, ApplyBlock(p, s, b).value) && StakesFit(ApplyBlock(p, s, b).value.validators)
  {
    BlockStep(p, s, b, 0);
    BlockStakesFit(p, s, b);
  }

  datatype FinalizedBlock = FinalizedBlock(block: Block, qc: Option<QuorumCert>)

  function Adopted(fbs: seq<FinalizedBlock>): (r: seq<Block>)
    ensures |r| == |fbs|
  {
    seq(|fbs|, i requires 0 <= i < |fbs| => fbs[i].block.(qc := fbs[i].qc))
  }

  function TxsFrom(fbs: seq<FinalizedBlock>, i: nat): nat
    requires i <= |fbs|
    decreases |fbs| - i
  {
    if i == |fbs| then 0 else |fbs[i].block.txs| + TxsFrom(fbs, i + 1)
  }

  /** What the blocks from i on issue. */
  function RewardsFrom(reward: nat, fbs: seq<FinalizedBlock>, i: nat): nat
    requires i <= |fbs|
    decreases |fbs| - i
  {
    if i == |fbs| then 0 else reward + RewardsFrom(reward, fbs, i + 1)
  }

  /** When a synced block is adopted. */
  ghost predicate SyncOk(p: Params, fb: FinalizedBlock, s: State, last: Option<Block>, vs: seq<Validator>, now: Int64) {
    && (fb.qc.Some? ==> Accepted(p, fb.qc.value, HeaderHash(p, fb.block.header), vs))
    && Passes(p, fb.block, s, last, vs, now)
  }

  /** What stays pooled after a block: what it did not include and its outcome has not overtaken. */
  function Cleaned(p: Params, pool: map<Digest, Tx>, b: Block, accounts: map<Address, Account>): map<Digest, Tx> {
    map k | k in pool && k !in Digests(p, b.txs) && pool[k].sender in accounts
            && pool[k].nonce > accounts[pool[k].sender].nonce :: pool[k]
  }

  /** What stays pooled after the first n blocks of a response have been adopted one after the other. Proofs use it only
      through PoolUnfold: the two intermediate functions keep the verifier from unfolding it elsewhere. */
  ghost function PoolAfter(p: Params, g: State, start: seq<Block>, pool: map<Digest, Tx>, fbs: seq<FinalizedBlock>,
                           n: nat): map<Digest, Tx>
    requires n <= |fbs|
    decreases n, 2
  {
    PoolAfterFolded(p, g, start, pool, fbs, n)
  }

  ghost function PoolAfterFolded(p: Params, g: State, start: seq<Block>, pool: map<Digest, Tx>,
                                 fbs: seq<FinalizedBlock>, n: nat): map<Digest, Tx>
    requires n <= |fbs|
    decreases n, 1
  {
    PoolAfterFrom(p, g, start, pool, fbs, n)
  }

  ghost function PoolAfterFrom(p: Params, g: State, start: seq<Block>, pool: map<Digest, Tx>,
                               fbs: seq<FinalizedBlock>, n: nat): map<Digest, Tx>
    requires n <= |fbs|
    decreases n, 0
  {
    if n == 0 then pool else
      match Execute(p, g, start + Adopted(fbs[..n]))
      case None => map[]
      case Some(s) => Cleaned(p, PoolAfter(p, g, start, pool, fbs, n - 1), fbs[n - 1].block, s.accounts)
  }

  lemma PoolUnfold(p: Params, g: State, start: seq<Block>, pool: map<Digest, Tx>, fbs: seq<FinalizedBlock>, n: nat)
    requires n <= |fbs|
    ensures PoolAfter(p, g, start, pool, fbs, n) == PoolAfterFrom(p, g, start, pool, fbs, n)
  {
    assert PoolAfter(p, g, start, pool, fbs, n) == PoolAfterFolded(p, g, start, pool, fbs, n);
    assert PoolAfterFolded(p, g, start, pool, fbs, n) == PoolAfterFrom(p, g, start, pool, fbs, n);
  }

  /** The block with the votes for it as its certificate. */
  function Sealed(b: Block, hash: Digest, votes: seq<Vote>): Block {
    b.(qc := Some(QuorumCert(b.header.height, hash, votes)))
  }

  /** The proposer's tally of the votes for a block reaches the threshold. */
  ghost predicate Carried(p: Params, b: Block, votes: seq<Vote>, vs: seq<Validator>) {
    Wrap(Tally(p, votes, StakeMap(vs), b.header.height, HeaderHash(p, b.header))) >= Threshold(vs)
  }

  /** When a node in state s, with the given last block, height and validator set, commits a finalized block: its
      certificate is accepted, it is new and it passes validation. */
  ghost predicate CommitsIn(p: Params, s: State, last: Option<Block>, height: Uint64, vs: seq<Validator>, b: Block,
                            qc: QuorumCert, now: Int64)
  {
    Accepted(p, qc, HeaderHash(p, b.header), vs) && b.header.height > height && Passes(p, b, s, last, vs, now)
  }

  /** A certificate of votes that carry the block is accepted when nobody's vote is counted twice. */
  lemma CarriedIsAccepted(p: Params, b: Block, votes: seq<Vote>, vs: seq<Validator>)
    requires Carried(p, b, votes, vs)
    ensures var qc := QuorumCert(b.header.height, HeaderHash(p, b.header), votes);
            VotesOnce(p, qc) ==> Accepted(p, qc, HeaderHash(p, b.header), vs)
  {
    var qc := QuorumCert(b.header.height, HeaderHash(p, b.header), votes);
    if VotesOnce(p, qc) {
      TallyAgrees(p, qc, vs);
    }
  }

  /** It is this node's turn at the given height: the next height, and its own slot. */
  ghost predicate OnTurn(last: Option<Block>, current: Uint64, vs: seq<Validator>, address: Address, height: Uint64) {
    height == ExpectedHeight(last) && height > current && Proposer(vs, height).address == address
  }

  /** A block made at this time can be committed by a peer with this clock: it is later than its parent, and not more
      than fifteen seconds ahead of the clock. */
  predicate InTime(last: Option<Block>, time: Int64, clock: Int64) {
    (last.Some? ==> last.value.header.timestamp < time) && time <= clock + 15
  }

  /** A proposal made on turn, with an accepted certificate, is committed by a peer in the same state if and only if it
      is in time. */
  lemma ProposalCommits(p: Params, s: State, last: Option<Block>, current: Uint64, vs: seq<Validator>, b: Block,
                        qc: QuorumCert, clock: Int64)
    requires PassesUntimed(p, b, s, last, vs) && Accepted(p, qc, HeaderHash(p, b.header), vs)
    requires OnTurn(last, current, vs, b.header.proposer, b.header.height)
    ensures CommitsIn(p, s, last, current, vs, b.(qc := Some(qc)), qc, clock)
            <==> InTime(last, b.header.timestamp, clock)
  {
    CertificateIrrelevant(p, s, b, Some(qc));
  }

  /** A node that has committed nothing. */
  lemma FreshNode(p: Params, s: State)
    requires GoodParams(p) && PostIdsDistinct(p) && Sound(p, s) && StakesFit(s.validators)
    ensures NodeOk(p, s, [], s, None, 0)
  {
    ExecuteUnfold(p, s, []);
  }

  class Engine {
    const p: Params
    const genesisVals: seq<GenesisValidator>
    const address: Address
    const mempool: Mempool
    const kv: KVStore
    var state: WorldState
    var lastBlock: Option<Block>
    var currentHeight: Uint64
    ghost const genesis: State
    ghost var chain: seq<Block>

    ghost predicate Valid()
      reads this, state
    {
      && NodeOk(p, genesis, chain, state.View(), lastBlock, currentHeight)
      && StakesFit(InitialValidators(genesisVals))
    }

    /** Every block of the chain had the scheduled proposer, a later time than its parent, an allowed size, the root
        of its state and no certificate or an accepted one. */
    ghost predicate LawfulSoFar()
      reads this
    {
      Lawful(p, genesis, genesisVals, chain)
    }

    /** Builds a node around any state and last block. It satisfies the node's invariant exactly when the state is
        what the blocks of its history lead to and the last block is their head. */
    constructor (p: Params, genesisVals: seq<GenesisValidator>, address: Address, ws: WorldState, mempool: Mempool,
                 kv: KVStore, last: Option<Block>, ghost genesis: State, ghost history: seq<Block>)
      ensures this.p == p && this.genesisVals == genesisVals && this.address == address
      ensures this.mempool == mempool && this.kv == kv && state == ws && lastBlock == last
      ensures currentHeight == if last.Some? then last.value.header.height else ws.chainHeight
      ensures chain == history && this.genesis == genesis
      ensures Valid() <==> NodeOk(p, genesis, history, ws.View(), last, currentHeight)
                           && StakesFit(InitialValidators(genesisVals))
    {
      this.p, this.genesisVals, this.address, this.mempool, this.kv := p, genesisVals, address, mempool, kv;
      state, currentHeight := ws, ws.chainHeight;
      lastBlock := last;
      if last.Some? {
        currentHeight := last.value.header.height;
      }
      this.genesis, chain := genesis, history;
    }

    function Validators(): seq<Validator>
      reads this, state
    {
      ActiveValidators(state.activeValidators, genesisVals)
    }

    lemma ValidatorsFit()
      requires Valid()
      ensures StakesFit(Validators())
    {}

    /** Hashes of the block's transactions. */
    method HashAll(txs: seq<Tx>) returns (hashes: seq<Digest>)
      ensures hashes == Digests(p, txs)
    {
      hashes := [];
      for i := 0 to |txs|
        invariant hashes == Digests(p, txs)[..i]
      {
        var h := HashTx(p, txs[i]);
        hashes := hashes + [h];
      }
    }

    /** Drops the block's transactions and every transaction that the new state has overtaken, and no others. */
    method CleanPool(b: Block, newState: WorldState)
      modifies mempool
      ensures mempool.txs == Cleaned(p, old(mempool.txs), b, newState.accounts)
    {
      var hashes := HashAll(b.txs);
      mempool.Remove(hashes);
      mempool.EvictStale(newState);
    }

    /** Writes the new state to the store and cleans the pool. */
    method Persist(b: Block, newState: WorldState)
      modifies mempool, kv
      ensures SavedOver(old(kv.db), newState.View(), kv.db)
      ensures mempool.txs == Cleaned(p, old(mempool.txs), b, newState.accounts)
    {
      kv.SaveState(newState);
      CleanPool(b, newState);
    }

    /** Persists the new state, cleans the pool and advances the node. */
    method CommitBlock(b: Block, newState: WorldState)
      requires StakesFit(InitialValidators(genesisVals))
      requires NodeOk(p, genesis, chain + [b], newState.View(), Some(b), b.header.height)
      modifies this, mempool, kv
      ensures Valid() && state == newState && newState.View() == old(newState.View())
      ensures chain == old(chain) + [b] && lastBlock == Some(b) && currentHeight == b.header.height
      ensures SavedOver(old(kv.db), newState.View(), kv.db)
      ensures mempool.txs == Cleaned(p, old(mempool.txs), b, newState.accounts)
    {
      Persist(b, newState);
      Advance(b, newState);
    }

    method Advance(b: Block, newState: WorldState)
      requires StakesFit(InitialValidators(genesisVals))
      requires NodeOk(p, genesis, chain + [b], newState.View(), Some(b), b.header.height)
      modifies this
      ensures Valid() && state == newState
      ensures chain == old(chain) + [b] && lastBlock == Some(b) && currentHeight == b.header.height
    {
      state, lastBlock, currentHeight := newState, Some(b), b.header.height;
      chain := chain + [b];
    }

    // ---------- Proposing ----------

    /** Reaps the pool and builds the block, its state root still empty. */
    method DraftProposal(height: Uint64, now: Int64)
      returns (b: Block, ghost seen: map<Address, Account>, ghost queues: seq<Queue>)
      requires Valid() && RoomFor(p, state.View(), p.blockReward, |mempool.txs|)
      ensures b.header == Header(height, ExpectedParent(p, lastBlock), address, now, NO_HASH, TxRoot(p, b.txs))
      ensures b.evidence == [] && CanApply(p, state.View(), b)
      ensures Reaped(p, state.View(), mempool.txs, p.maxTxPerBlock, b.txs, seen, queues)
      ensures AllSimple(mempool.txs) ==> ApplyBlock(p, state.View(), b).Some?
      ensures state.View() == old(state.View()) && mempool.txs == old(mempool.txs)
    {
      ghost var s := state.View();
      var txs;
      txs, seen, queues := mempool.ReapForBlock(p, state, p.maxTxPerBlock);
      AssembledSize(queues, txs, mempool.txs);
      var txRoot := ComputeTxRoot(p, txs);
      var prevHash := NO_HASH;
      if lastBlock.Some? {
        prevHash := HashHeader(p, lastBlock.value.header);
      }
      b := Block(Header(height, prevHash, address, now, NO_HASH, txRoot), txs, [], None);
      RoomLess(p, s, p.blockReward, |mempool.txs|, p.blockReward, |txs|);
      RoomToApply(p, genesis, chain, s, lastBlock, currentHeight, b);
      if AllSimple(mempool.txs) {
        DraftExecutes(p, s, b, seen);
      }
    }

    /** Drafts a block of what the pool yields, executes it on trial and fills in the state root. For a pool of
        transfers, posts, boosts and stakes, at the right height and on the right node, the proposal executes and
        passes every check but the clock on any node in the same state. */
    method AssembleProposal(height: Uint64, now: Int64)
      returns (b: Block, newState: WorldState?, ghost seen: map<Address, Account>, ghost queues: seq<Queue>)
      requires Valid() && RoomFor(p, state.View(), p.blockReward, |mempool.txs|)
      ensures newState != null ==> fresh(newState)
      ensures b.header.height == height && b.header.prevHash == ExpectedParent(p, lastBlock) && b.evidence == []
      ensures b.header.proposer == address && b.header.timestamp == now && b.header.txRoot == TxRoot(p, b.txs)
      ensures Reaped(p, state.View(), mempool.txs, p.maxTxPerBlock, b.txs, seen, queues) && CanApply(p, state.View(), b)
      ensures newState != null <==> ApplyBlock(p, state.View(), b).Some?
      ensures newState != null ==>
        RootMatches(p, b, state.View()) && ApplyBlock(p, state.View(), b) == Some(newState.View())
      ensures AllSimple(mempool.txs) ==> newState != null
      ensures newState != null && height == ExpectedHeight(lastBlock)
              && Proposer(Validators(), height).address == address
              ==> PassesUntimed(p, b, state.View(), lastBlock, Validators())
      ensures state.View() == old(state.View()) && mempool.txs == old(mempool.txs)
    {
      var draft;
      draft, seen, queues := DraftProposal(height, now);
      newState := ExecuteBlock(p, state, draft);
      b := draft;
      if newState != null {
        var root := ComputeStateRoot(p, newState);
        b := draft.(header := draft.header.(stateRoot := root));
        RootNotRead(p, state.View(), draft, root);
      }
    }

    /** The last block is b with a certificate for b that holds exactly these votes; if none of them repeats, the
        given set accepts it. */
    ghost predicate Certified(b: Block, votes: seq<Vote>, vs: seq<Validator>)
      reads this
    {
      && lastBlock.Some? && lastBlock.value.qc.Some? && lastBlock.value == b.(qc := lastBlock.value.qc)
      && var qc := lastBlock.value.qc.value;
         && qc.height == b.header.height && qc.blockHash == HeaderHash(p, b.header) && qc.votes == votes
         && (VotesOnce(p, qc) ==> Accepted(p, qc, HeaderHash(p, b.header), vs))
    }

    lemma SealedCommits(b: Block, qc: QuorumCert, now: Int64)
      requires Valid() && b.header.proposer == address && b.header.timestamp == now
      requires VotesOnce(p, qc) ==> Accepted(p, qc, HeaderHash(p, b.header), Validators())
      requires OnTurn(lastBlock, currentHeight, Validators(), address, b.header.height)
               ==> PassesUntimed(p, b, state.View(), lastBlock, Validators())
      ensures VotesOnce(p, qc) && OnTurn(lastBlock, currentHeight, Validators(), address, b.header.height) ==>
        && (forall clock: Int64 ::
              CommitsIn(p, state.View(), lastBlock, currentHeight, Validators(), b.(qc := Some(qc)), qc, clock)
              <==> InTime(lastBlock, now, clock))
        && (LawfulSoFar() && InTime(lastBlock, now, now) ==>
              Lawful(p, genesis, genesisVals, chain + [b.(qc := Some(qc))]))
    {
      if VotesOnce(p, qc) && OnTurn(lastBlock, currentHeight, Validators(), address, b.header.height) {
        forall clock: Int64
          ensures CommitsIn(p, state.View(), lastBlock, currentHeight, Validators(), b.(qc := Some(qc)), qc, clock)
                  <==> InTime(lastBlock, now, clock)
        {
          ProposalCommits(p, state.View(), lastBlock, currentHeight, Validators(), b, qc, clock);
        }
        if LawfulSoFar() && InTime(lastBlock, now, now) {
          PassedIsLawful(p, genesis, genesisVals, chain, state.View(), b, Some(qc), now);
        }
      }
    }

    /** Proposes at the given height. The votes come from the node itself and its peers, who see the block. The
        proposal, which carries what the pool yields, is committed with its certificate exactly when it executes and
        the tally of all valid votes reaches the threshold; otherwise nothing changes. */
    method ProposeBlock(height: Uint64, now: Int64, collect: (Block, Digest) -> seq<Vote>)
      returns (committed: bool, ghost b: Block, ghost seen: map<Address, Account>, ghost queues: seq<Queue>)
      requires Valid() && RoomFor(p, state.View(), p.blockReward, |mempool.txs|)
      modifies this, mempool, kv
      ensures Valid()
      ensures b.header.height == height && b.header.proposer == address && b.header.timestamp == now && b.evidence == []
      ensures Reaped(p, old(state.View()), old(mempool.txs), p.maxTxPerBlock, b.txs, seen, queues)
      ensures committed <==>
        ApplyBlock(p, old(state.View()), b).Some?
        && Carried(p, b, collect(b, HeaderHash(p, b.header)), old(Validators()))
      ensures AllSimple(old(mempool.txs)) ==> ApplyBlock(p, old(state.View()), b).Some?
      ensures committed ==>
        && chain == old(chain) + [Sealed(b, HeaderHash(p, b.header), collect(b, HeaderHash(p, b.header)))]
        && ApplyBlock(p, old(state.View()), b) == Some(state.View()) && SavedOver(old(kv.db), state.View(), kv.db)
        && mempool.txs == Cleaned(p, old(mempool.txs), b, state.accounts)
      ensures committed ==> Certified(b, collect(b, HeaderHash(p, b.header)), old(Validators()))
      ensures committed && VotesOnce(p, lastBlock.value.qc.value)
              && OnTurn(old(lastBlock), old(currentHeight), old(Validators()), address, height) ==>
        && (forall clock: Int64 ::
              CommitsIn(p, old(state.View()), old(lastBlock), old(currentHeight), old(Validators()),
                        lastBlock.value, lastBlock.value.qc.value, clock)
              <==> InTime(old(lastBlock), now, clock))
        && (old(LawfulSoFar()) && InTime(old(lastBlock), now, now) ==> LawfulSoFar())
      ensures old(Consecutive(chain)) && |old(chain)| + 1 < TWO64 && height == ExpectedHeight(old(lastBlock))
              ==> Consecutive(chain)
      ensures !committed ==> kv.db == old(kv.db) && mempool.txs == old(mempool.txs) && state == old(state)
                             && chain == old(chain) && lastBlock == old(lastBlock)
                             && currentHeight == old(currentHeight)
    {
      committed := false;
      var proposal, newState;
      proposal, newState, seen, queues := AssembleProposal(height, now);
      b := proposal;
      if newState == null {
        return;
      }
      var hash := HashHeader(p, proposal.header);
      var votes := collect(proposal, hash);
      ValidatorsFit();
      var enough := TallyVotes(p, votes, Validators(), height, hash);
      if !enough {
        return;
      }
      var sealed := Sealed(proposal, hash, votes);
      CommitReady(p, genesis, chain, state.View(), lastBlock, currentHeight, proposal, sealed.qc);
      ConsecutiveKept(chain, sealed);
      CarriedIsAccepted(p, proposal, votes, Validators());
      SealedCommits(proposal, sealed.qc.value, now);
      CommitBlock(sealed, newState);
      committed := true;
    }

    // ---------- Blocks from the network ----------

    /** When a finalized block is committed: its certificate is accepted, it is new and it passes validation. */
    ghost predicate Commits(b: Block, qc: QuorumCert, now: Int64)
      reads this, state
    {
      CommitsIn(p, state.View(), lastBlock, currentHeight, Validators(), b, qc, now)
    }

    /** A finalized block with its certificate. It is committed exactly when the certificate is accepted, the block is
        new and it passes validation; otherwise nothing changes. */
    method OnFinalizedBlock(b: Block, qc: QuorumCert, now: Int64) returns (committed: bool)
      requires Valid() && RoomFor(p, state.View(), p.blockReward, |b.txs|)
      modifies this, mempool, kv
      ensures Valid()
      ensures committed <==> old(Commits(b, qc, now))
      ensures committed ==>
        && chain == old(chain) + [b.(qc := Some(qc))] && SavedOver(old(kv.db), state.View(), kv.db)
        && ApplyBlock(p, old(state.View()), b) == Some(state.View())
        && mempool.txs == Cleaned(p, old(mempool.txs), b, state.accounts)
      ensures committed ==> b.header.timestamp <= now + 15 && old(currentHeight) < currentHeight == b.header.height
      ensures committed && old(lastBlock).Some? ==> old(lastBlock).value.header.timestamp < b.header.timestamp
      ensures old(Consecutive(chain)) && |old(chain)| + 1 < TWO64 ==> Consecutive(chain)
      ensures old(LawfulSoFar()) ==> LawfulSoFar()
      ensures !committed ==> chain == old(chain) && state == old(state) && lastBlock == old(lastBlock)
                             && currentHeight == old(currentHeight) && kv.db == old(kv.db)
                             && mempool.txs == old(mempool.txs)
    {
      committed := false;
      var hash := HashHeader(p, b.header);
      ValidatorsFit();
      var certified := ValidateQuorumCertificate(p, qc, hash, Validators());
      if !certified || b.header.height <= currentHeight {
        return;
      }
      committed := Adopt(b, Some(qc), now);
    }

    lemma AdoptedIsLawful(b: Block, qc: Option<QuorumCert>, now: Int64)
      requires Valid() && Passes(p, b, state.View(), lastBlock, Validators(), now)
      ensures LawfulSoFar() && (qc.Some? ==> Accepted(p, qc.value, HeaderHash(p, b.header), Validators()))
              ==> Lawful(p, genesis, genesisVals, chain + [b.(qc := qc)])
    {
      if LawfulSoFar() && (qc.Some? ==> Accepted(p, qc.value, HeaderHash(p, b.header), Validators())) {
        PassedIsLawful(p, genesis, genesisVals, chain, state.View(), b, qc, now);
      }
    }

    /** Validates, executes and commits. */
    method Adopt(b: Block, qc: Option<QuorumCert>, now: Int64) returns (committed: bool)
      requires Valid() && RoomFor(p, state.View(), p.blockReward, |b.txs|)
      modifies this, mempool, kv
      ensures Valid()
      ensures committed <==> Passes(p, b, old(state.View()), old(lastBlock), old(Validators()), now)
      ensures committed ==>
        && chain == old(chain) + [b.(qc := qc)] && SavedOver(old(kv.db), state.View(), kv.db)
        && ApplyBlock(p, old(state.View()), b) == Some(state.View())
        && mempool.txs == Cleaned(p, old(mempool.txs), b, state.accounts)
      ensures committed ==> currentHeight == b.header.height
      ensures old(Consecutive(chain)) && |old(chain)| + 1 < TWO64 ==> Consecutive(chain)
      ensures old(LawfulSoFar()) && (qc.Some? ==> Accepted(p, qc.value, HeaderHash(p, b.header), old(Validators())))
              ==> LawfulSoFar()
      ensures !committed ==> chain == old(chain) && state == old(state) && lastBlock == old(lastBlock)
                             && currentHeight == old(currentHeight) && kv.db == old(kv.db)
                             && mempool.txs == old(mempool.txs)
    {
      RoomToApply(p, genesis, chain, state.View(), lastBlock, currentHeight, b);
      ValidatorsFit();
      committed := ValidateProposedBlock(p, b, state, lastBlock, Validators(), now);
      if committed {
        var newState := ExecuteBlock(p, state, b);
        CommitReady(p, genesis, chain, state.View(), lastBlock, currentHeight, b, qc);
        ConsecutiveKept(chain, b.(qc := qc));
        AdoptedIsLawful(b, qc, now);
        CommitBlock(b.(qc := qc), newState);
      }
    }

    /** One block of a sync response; a certificate is checked only when one was sent. */
    method SyncOne(fb: FinalizedBlock, now: Int64) returns (committed: bool)
      requires Valid() && RoomFor(p, state.View(), p.blockReward, |fb.block.txs|)
      modifies this, mempool, kv
      ensures Valid()
      ensures committed <==> SyncOk(p, fb, old(state.View()), old(lastBlock), old(Validators()), now)
      ensures committed ==> chain == old(chain) + [fb.block.(qc := fb.qc)]
      ensures committed ==>
        && ApplyBlock(p, old(state.View()), fb.block) == Some(state.View())
        && SavedOver(old(kv.db), state.View(), kv.db)
        && mempool.txs == Cleaned(p, old(mempool.txs), fb.block, state.accounts)
      ensures old(Consecutive(chain)) && |old(chain)| + 1 < TWO64 ==> Consecutive(chain)
      ensures old(LawfulSoFar()) ==> LawfulSoFar()
      ensures !committed ==> chain == old(chain) && state == old(state) && lastBlock == old(lastBlock)
                             && currentHeight == old(currentHeight) && kv.db == old(kv.db)
                             && mempool.txs == old(mempool.txs)
    {
      if fb.qc.Some? {
        var hash := HashHeader(p, fb.block.header);
        ValidatorsFit();
        var certified := ValidateQuorumCertificate(p, fb.qc.value, hash, Validators());
        if !certified {
          return false;
        }
      }
      committed := Adopt(fb.block, fb.qc, now);
    }

    /** n blocks of a sync response have been adopted, and there is room for the others. */
    ghost predicate Synced(start: seq<Block>, pool: map<Digest, Tx>, fbs: seq<FinalizedBlock>, n: nat)
      reads this, state, mempool
      requires n <= |fbs|
    {
      && chain == start + Adopted(fbs[..n])
      && mempool.txs == PoolAfter(p, genesis, start, pool, fbs, n)
      && RoomFor(p, state.View(), RewardsFrom(p.blockReward, fbs, n), TxsFrom(fbs, n))
      && (Consecutive(start) && |start| + |fbs| < TWO64 ==> Consecutive(chain))
      && (Lawful(p, genesis, genesisVals, start) ==> LawfulSoFar())
    }

    lemma SyncedStart(fbs: seq<FinalizedBlock>)
      requires RoomFor(p, state.View(), RewardsFrom(p.blockReward, fbs, 0), TxsFrom(fbs, 0))
      ensures Synced(chain, mempool.txs, fbs, 0)
    {
      assert chain + Adopted(fbs[..0]) == chain;
      PoolUnfold(p, genesis, chain, mempool.txs, fbs, 0);
    }

    lemma RoomForNext(start: seq<Block>, pool: map<Digest, Tx>, fbs: seq<FinalizedBlock>, n: nat)
      requires n < |fbs| && Synced(start, pool, fbs, n)
      ensures RoomFor(p, state.View(), p.blockReward, |fbs[n].block.txs|)
    {
      RoomLess(p, state.View(), RewardsFrom(p.blockReward, fbs, n), TxsFrom(fbs, n), p.blockReward, |fbs[n].block.txs|);
    }

    /** After one more block has been adopted from state s with the pool rest. */
    lemma SyncedNext(start: seq<Block>, pool: map<Digest, Tx>, fbs: seq<FinalizedBlock>, n: nat, s: State,
                     rest: map<Digest, Tx>)
      requires n < |fbs| && Valid() && Inv(p, s) && ApplyBlock(p, s, fbs[n].block) == Some(state.View())
      requires RoomFor(p, s, RewardsFrom(p.blockReward, fbs, n), TxsFrom(fbs, n))
      requires chain == start + Adopted(fbs[..n]) + [fbs[n].block.(qc := fbs[n].qc)]
      requires rest == PoolAfter(p, genesis, start, pool, fbs, n)
      requires mempool.txs == Cleaned(p, rest, fbs[n].block, state.accounts)
      requires Consecutive(start) && |start| + |fbs| < TWO64 ==> Consecutive(chain)
      requires Lawful(p, genesis, genesisVals, start) ==> LawfulSoFar()
      ensures Synced(start, pool, fbs, n + 1)
    {
      SyncRoom(p, s, state.View(), fbs, n);
      AdoptedNext(start, fbs, n);
      PoolNext(p, genesis, start, pool, fbs, n, state.View());
    }

    method SyncNext(fbs: seq<FinalizedBlock>, n: nat, now: Int64, ghost start: seq<Block>, ghost pool: map<Digest, Tx>)
      returns (ok: bool)
      requires n < |fbs| && Valid() && Synced(start, pool, fbs, n)
      modifies this, mempool, kv
      ensures Valid()
      ensures ok ==> Synced(start, pool, fbs, n + 1)
      ensures !ok ==> Synced(start, pool, fbs, n) && !SyncOk(p, fbs[n], state.View(), lastBlock, Validators(), now)
    {
      ghost var s, rest := state.View(), mempool.txs;
      RoomForNext(start, pool, fbs, n);
      ok := SyncOne(fbs[n], now);
      if ok {
        SyncedNext(start, pool, fbs, n, s, rest);
      }
    }

    /** A sync response: blocks are adopted one after the other up to the first that is refused. */
    method SyncBlocks(fbs: seq<FinalizedBlock>, clock: nat -> Int64) returns (n: nat)
      requires Valid() && RoomFor(p, state.View(), RewardsFrom(p.blockReward, fbs, 0), TxsFrom(fbs, 0))
      modifies this, mempool, kv
      ensures Valid() && n <= |fbs|
      ensures chain == old(chain) + Adopted(fbs[..n])
      ensures mempool.txs == PoolAfter(p, genesis, old(chain), old(mempool.txs), fbs, n)
      ensures n < |fbs| ==> !SyncOk(p, fbs[n], state.View(), lastBlock, Validators(), clock(n))
      ensures old(LawfulSoFar()) ==> LawfulSoFar()
      ensures old(Consecutive(chain)) && |old(chain)| + |fbs| < TWO64 ==> Consecutive(chain)
    {
      ghost var start, pool := chain, mempool.txs;
      SyncedStart(fbs);
      n := SyncFrom(fbs, clock, start, pool);
    }

    method SyncFrom(fbs: seq<FinalizedBlock>, clock: nat -> Int64, ghost start: seq<Block>, ghost pool: map<Digest, Tx>)
      returns (n: nat)
      requires Valid() && Synced(start, pool, fbs, 0)
      modifies this, mempool, kv
      ensures n <= |fbs| && Valid() && Synced(start, pool, fbs, n)
      ensures n < |fbs| ==> !SyncOk(p, fbs[n], state.View(), lastBlock, Validators(), clock(n))
    {
      for i := 0 to |fbs|
        invariant Valid() && Synced(start, pool, fbs, i)
      {
        var ok := SyncNext(fbs, i, clock(i), start, pool);
        if !ok {
          return i;
        }
      }
      return |fbs|;
    }
  }

  lemma ConsecutiveKept(chain: seq<Block>, b: Block)
    ensures Consecutive(chain) && |chain| + 1 < TWO64 && b.header.height == ExpectedHeight(Head(chain))
            ==> Consecutive(chain + [b])
  {}

  lemma AdoptedNext(start: seq<Block>, fbs: seq<FinalizedBlock>, n: nat)
    requires n < |fbs|
    ensures start + Adopted(fbs[..n + 1]) == start + Adopted(fbs[..n]) + [fbs[n].block.(qc := fbs[n].qc)]
  {
    assert Adopted(fbs[..n + 1]) == Adopted(fbs[..n]) + [fbs[n].block.(qc := fbs[n].qc)];
  }

  lemma SyncRoom(p: Params, s: State, r: State, fbs: seq<FinalizedBlock>, n: nat)
    requires n < |fbs| && Inv(p, s) && GoodParams(p) && PostIdsDistinct(p) && ApplyBlock(p, s, fbs[n].block) == Some(r)
    requires RoomFor(p, s, RewardsFrom(p.blockReward, fbs, n), TxsFrom(fbs, n))
    ensures RoomFor(p, r, RewardsFrom(p.blockReward, fbs, n + 1), TxsFrom(fbs, n + 1))
  {
    RoomAfter(p, s, fbs[n].block, RewardsFrom(p.blockReward, fbs, n), TxsFrom(fbs, n));
  }

  lemma PoolNext(p: Params, g: State, start: seq<Block>, pool: map<Digest, Tx>, fbs: seq<FinalizedBlock>, n: nat,
                 s: State)
    requires n < |fbs| && Execute(p, g, start + Adopted(fbs[..n + 1])) == Some(s)
    ensures PoolAfter(p, g, start, pool, fbs, n + 1)
            == Cleaned(p, PoolAfter(p, g, start, pool, fbs, n), fbs[n].block, s.accounts)
  {
    PoolUnfold(p, g, start, pool, fbs, n + 1);
  }

  /** Committing a checked block, whatever certificate is attached to it, keeps the node's invariant. */
  lemma CommitReady(p: Params, g: State, chain: seq<Block>, s: State, last: Option<Block>, height: Uint64, b: Block,
                    qc: Option<QuorumCert>)
    requires NodeOk(p, g, chain, s, last, height) && CanApply(p, s, b)
    requires b.header.prevHash == ExpectedParent(p, last) && b.header.txRoot == TxRoot(p, b.txs)
    requires RootMatches(p, b, s)
    ensures NodeOk(p, g, chain + [b.(qc := qc)], ApplyBlock(p, s, b).value, Some(b.(qc := qc)), b.header.height)
  {
    CertificateIrrelevant(p, s, b, qc);
    CommitStep(p, g, chain, s, last, height, b.(qc := qc));
  }

  /** Execution does not look at the state root in the header. */
  lemma RootNotRead(p: Params, s: State, b: Block, root: Digest)
    ensures ApplyBlock(p, s, b.(header := b.header.(stateRoot := root))) == ApplyBlock(p, s, b)
  {}

  // ---------- Agreement between nodes ----------

  /** Two nodes from the same genesis whose last committed headers hash equally have committed the same headers and
      transactions at every height and hold the same world state, provided their blocks carried no evidence, their
      heights advanced one at a time and SHA-256 did not collide on what they hashed. */
  lemma NodesAgree(a: Engine, b: Engine)
    requires a.Valid() && b.Valid() && a.p == b.p && a.genesis == b.genesis
    requires a.lastBlock.Some? && b.lastBlock.Some?
    requires HeaderHash(a.p, a.lastBlock.value.header) == HeaderHash(b.p, b.lastBlock.value.header)
    requires Consecutive(a.chain) && ChainFits(a.chain) && EvidenceFree(a.chain)
    requires Consecutive(b.chain) && ChainFits(b.chain) && EvidenceFree(b.chain)
    requires NoCollision(a.p, ChainInputs(a.p, a.chain) + ChainInputs(b.p, b.chain))
    ensures SameHistory(a.chain, b.chain) && a.state.View() == b.state.View()
  {
    ChainAgreement(a.p, a.genesis, a.chain, b.chain);
  }

  /** With evidence too: nodes with the same last header hold the same world state up to the slash record, whatever
      their histories, if SHA-256 does not collide on the two state printouts. */
  lemma NodesShareState(a: Engine, b: Engine)
    requires a.Valid() && b.Valid() && a.p == b.p
    requires a.lastBlock.Some? && b.lastBlock.Some? && a.lastBlock.value.header == b.lastBlock.value.header
    requires Representable(a.state.View()) && Representable(b.state.View())
    requires NoCollision(a.p, {Stream(RootFields(a.state.View())), Stream(RootFields(b.state.View()))})
    ensures a.state.View() == b.state.View().(slashed := a.state.slashRecord)
  {
    SameHeadSameState(a.p, a.state.View(), a.lastBlock.value, b.state.View(), b.lastBlock.value);
  }

  /** Every transaction on a node's chain was signed by the owner of the sending account. */
  lemma NodeChainOwned(a: Engine, i: nat, j: nat)
    requires a.Valid() && i < |a.chain| && j < |a.chain[i].txs|
    ensures a.p.txSigned(a.chain[i].txs[j]) && a.p.addressOf(a.chain[i].txs[j].pubKey) == a.chain[i].txs[j].sender
  {
    RunOwned(a.p, a.genesis, a.chain, i, j);
  }

  /** The node started from these genesis accounts and its own genesis validators, all distinct, and the supply has
      room for all it has issued. */
  ghost predicate FromGenesis(a: Engine, accts: seq<GenesisAccount>, validAddress: Address -> bool)
    reads a
  {
    && Run(a.p, accts, a.genesisVals, validAddress, a.chain)
    && a.genesis == GenesisState(accts, a.genesisVals, validAddress).value
    && (forall i, j :: 0 <= i < j < |a.genesisVals| ==> a.genesisVals[i].address != a.genesisVals[j].address)
    && Supply(accts) + |a.genesisVals| + |a.chain| * a.p.blockReward < TWO64
  }

  lemma NodeSetFits(a: Engine, accts: seq<GenesisAccount>, validAddress: Address -> bool)
    requires a.Valid() && FromGenesis(a, accts, validAddress)
    ensures FitSet(a.Validators(), MAX64)
  {
    RunFits(a.p, accts, a.genesisVals, validAddress, a.chain);
  }

  /** Forks are accountable on every chain from a genesis of distinct validators. */
  lemma ForksFromGenesis(a: Engine, b: Engine, accts: seq<GenesisAccount>, validAddress: Address -> bool,
                         block1: Block, qc1: QuorumCert, now1: Int64, block2: Block, qc2: QuorumCert, now2: Int64)
    requires a.Valid() && b.Valid() && a.p == b.p && a.genesisVals == b.genesisVals
    requires a.state.View() == b.state.View() && FromGenesis(a, accts, validAddress)
    requires a.Commits(block1, qc1, now1) && b.Commits(block2, qc2, now2)
    requires qc1.height == qc2.height && block1.header != block2.header
    requires NoCollision(a.p, {Stream(HeaderFields(block1.header)), Stream(HeaderFields(block2.header))})
    ensures var both := AllSigners(a.p, qc1, a.Validators()) * AllSigners(a.p, qc2, a.Validators());
            && 3 * StakeOf(StakeMap(a.Validators()), both) > StakeSum(a.Validators())
            && forall x :: x in both ==> Caught(a.p, qc1, qc2, x)
  {
    NodeSetFits(a, accts, validAddress);
    ForksAreAccountable(a, b, block1, qc1, now1, block2, qc2, now2);
  }

  /** Forks are accountable: if two nodes in the same state commit finalized blocks with different headers under
      certificates of the same height, validators with strictly more than a third of the stake signed both blocks,
      and each of them can be convicted. */
  lemma ForksAreAccountable(a: Engine, b: Engine, block1: Block, qc1: QuorumCert, now1: Int64,
                            block2: Block, qc2: QuorumCert, now2: Int64)
    requires a.Valid() && b.Valid() && a.p == b.p && a.genesisVals == b.genesisVals
    requires a.state.View() == b.state.View() && FitSet(a.Validators(), MAX64)
    requires a.Commits(block1, qc1, now1) && b.Commits(block2, qc2, now2)
    requires qc1.height == qc2.height && block1.header != block2.header
    requires NoCollision(a.p, {Stream(HeaderFields(block1.header)), Stream(HeaderFields(block2.header))})
    ensures var both := AllSigners(a.p, qc1, a.Validators()) * AllSigners(a.p, qc2, a.Validators());
            && 3 * StakeOf(StakeMap(a.Validators()), both) > StakeSum(a.Validators())
            && forall x :: x in both ==> Caught(a.p, qc1, qc2, x)
  {
    assert a.Validators() == b.Validators();
    FitSetFits(a.Validators(), MAX64);
    if HeaderHash(a.p, block1.header) == HeaderHash(a.p, block2.header) {
      HeaderInjective(block1.header, block2.header);
    }
    AccountableSafety(a.p, qc1, HeaderHash(a.p, block1.header), qc2, HeaderHash(a.p, block2.header), a.Validators());
  }
}
