# DRANA ledger: a Dafny model

DRANA is a proof-of-stake chain for posts. This project models its deterministic core — block execution over the world
state, block assembly in the mempool, consensus, the state root and hash encoding, and the key-value store — and
proves what holds over every input, every block and every run.

The model has two layers. `Ledger` defines what one block does to a state as mathematics: unbounded integers, no
iteration order. The executable layer (`WorldStates`, `Executors`, `BlockExecutors`, `Genesis`, `Mempools`,
`StateRootWriter`, `KVStores`, `KVLoad`, `Proposals`, `Engines`, `Nodes`) follows the program: objects updated in
place, loops over maps in an arbitrary order (`:|`), in-place sorting, buffers filled at a moving offset. Each of its
methods is proved equal to a definition of the first layer, so every theorem about the definitions is a theorem about
what the methods compute, and no result depends on a map order. uint64 additions and subtractions on amounts go
through `Plus` and `Minus`, whose preconditions forbid wrap-around; where the program does wrap (nonces, counters,
heights, vote tallies, the speculative balances) the model wraps too, through `Wrap`.

A third group of modules says what all this amounts to, in terms of its own: the books of every account (`Effects`,
`AccountHistory`, `GenesisBooks`), posts, positions and names replayed from transactions alone (`Replay`), who may do
what (`Authenticity`, `Rules`, `Admission`), and the validators, epochs and blocks of a chain (`ValidatorKeys`,
`Epochs`, `LawfulChains`). Their statements spell out what a step does; they do not cite the account updates, fee
splits and validation rules of the first layer.

Conventions:

- Addresses, hashes, post ids and keys are the numbers that their big-endian bytes spell. `LexIsNumeric` proves that
  comparing the bytes is comparing the numbers.
- SHA-256, address derivation, signature verification and the Unicode rules for post text are fields of `Params`;
  everything is proved for all choices of these functions. Where a result needs SHA-256 not to collide, the hypothesis
  names the messages on which it must not. Post ids are a field too, assumed distinct for all pairs of author and
  nonce; `PostIdScope` shows that a run needs this only for the pairs at which it creates posts, and derives it from
  the hash.
- `GoodParams` is the parameter range the ledger relies on: post fee below 100 percent, boost percentages adding up to
  at most 100, slash percent at most 100, minimum post commitment at least 1. The genesis loader reads these
  unchecked.
- `Inv` is the invariant of every reachable state, `Wealth` all coins there are, `Sound` the invariant with a wealth
  that fits a uint64. The clock, the votes that peers return and the blocks they send are parameters.

## Findings

Places where the code does less than one might expect; each has a lemma.

- The pro-rata staker split of a boost floors every share and pays the remainder to nobody. Conservation therefore has
  a dust term (`Runs.Conservation`), which is at most the number of existing stakers minus one per boost
  (`Fees.BoostDustBound`; the bound is reached, `Fees.BoostDustTight`, `DustDemo.DustWitness`). A boost loses nothing
  if and only if every share comes out even (`Fees.BoostDustExact`), and a run conserves all coins if and only if each
  of its boosts does (`Runs.ConservationExact`).
- A genesis file that stakes one validator address twice loses coins, and only then (`Genesis.GenesisSound`).
- The speculative state of the mempool does not track names, positions or stake. Block assembly is safe for a set of
  transaction kinds if and only if it contains none of name registration, unstaking and unstaking from a post
  (`AssemblyKinds.SafeKindsExactly`; for each of the three, a pool that `Add` admits in a state that a run reaches);
  `Overbooking` has the families of accepted pairs that do not execute.
- The pool compares a transaction's amount with the free balance whatever its kind. So it turns away an unstake of more
  than the free balance although it would execute, and no other executable transaction (`Admission.AdmittedExactly`,
  `AdmissionDemo.UnstakeTurnedAway`).
- A proposer does not compare its clock with the last block's time. If its tally passes, it commits a proposal that every
  peer in the same state refuses, exactly when the proposal is not later than the last block or too far ahead of the
  peer's clock (`Engines.ProposalCommits`).
- The proposer's own tally counts repeated votes. It agrees with the check its peers make, for every validator set, if
  and only if nobody's vote is counted twice (`Proposals.TallyExact`).
- Saving a state never deletes keys. A restart after a saved run always succeeds, and gets the state back exactly when
  no position that the run ever saved has been closed (`Nodes.OpenNode`, `KVRuns.RestartExact`); every position closed
  by a later block is back after a restart (`KVRuns.ClosedComesBack`).
- The slash record is not saved. Within a run nobody is slashed twice for one height (`History.SlashedOnce`). A
  restarted node slashes again on a later block with the same evidence, and ends with another state root or refuses
  the block, if and only if an offender has something at risk after that block's releases (`Forgetting.ForgottenRoot`,
  `Forgetting.RestartForgetsSlashes`); what it burns in addition is stated by `Forgetting.ForgottenBlock`, and
  `SlashDemo.ForgetfulSplit` is such a block one block after genesis.

## Model

| member | source | states |
|---|---|---|
| `SafeMath.MulDivIsClampedFloor` | internal/types/safemath.go:8-20 | the two-word multiply-divide is the exact floor of a·b/c, clamped at 2^64-1 |
| `SafeMath.MulDivFraction` | internal/types/safemath.go:8-20 | for a fraction of at most one it never clamps and never exceeds a |
| `Fees.BoostSplitFits` | internal/state/executor.go:116-131 | the three boost fees together never exceed the amount, so the booster's stake cannot underflow |
| `Fees.ProRataBound` | internal/state/executor.go:151-163 | the floored shares never exceed the reward and miss it by less than one unit per staker |
| `Fees.BoostDustBound` | internal/state/executor.go:151-163 | on an open post of a reachable state the unpaid remainder is between 0 and the number of existing stakers minus one |
| `Fees.BoostDustExact` | internal/state/executor.go:151-163 | total stake times the loss is the sum of the remainders; a boost loses nothing if and only if every share comes out even |
| `Fees.BoostDustTight` | internal/state/executor.go:151-163 | the bound is reached for every number of equal stakers |
| `DustDemo.DustWitness` | internal/state/executor.go:151-163 | a valid boost, in a state that two blocks reach from genesis, that loses as much as the bound allows |
| `Blocks.ValidTxApplies` | internal/validation/validate.go:19-214 | what validation accepts, the executor's own checks never refuse |
| `Rules.ExecutesExactly` | internal/validation/validate.go:19-214 | a transaction executes if and only if its sender signed it, it is well formed, it is next in line and paid for, and the state allows it |
| `Authenticity.RunOwned` | internal/validation/validate.go:40-61 | in every run each executed transaction is signed, by the key the sending address is derived from, and well formed for its kind |
| `Names.ValidNameExactly` | internal/validation/validate.go:142-162 | a valid name is three to twenty characters of lower-case words joined by single underscores |
| `Blocks.TxStep` | internal/state/executor.go:18-309 | every transaction kind applies when valid, keeps the invariant and moves coins without loss except boost dust |
| `Blocks.TxNonces` | internal/validation/validate.go:58-61 | a transaction raises its sender's nonce by one and no other |
| `Blocks.BlockStep` | internal/state/executor.go:313-362 | a block keeps the invariant; wealth grows by exactly the reward minus dust |
| `Effects.TxBalance` | internal/state/executor.go:39-225 | a transaction changes each balance by what its sender pays and the account earns: transfers, author and staker shares at the configured rates, closed positions |
| `Effects.TxBond` | internal/state/executor.go:227-261 | only staking and unstaking move a stake, the sender's alone, by exactly the amount |
| `Effects.TxBurn` | internal/state/executor.go:63-125 | posts burn the fee and boosts the burn share at the configured rates, nothing else burns |
| `AccountHistory.EvidenceEffect` | internal/state/executor.go:263-297 | evidence puts an offence on record and burns the percentage of what is at risk, at least one coin, if and only if it proves a double signature not yet on record |
| `AccountHistory.ProposerRewarded` | internal/state/executor.go:342-360 | from the last transaction to the end of a block the proposer receives exactly the reward, which is issued, and no other account changes |
| `AccountHistory.BlockEffect` | internal/state/executor.go:313-362 | each balance, each stake and the burn after a block, from what fell due, was spent, earned, rewarded and slashed |
| `AccountHistory.BooksBalance` | internal/state/executor.go:313-362 | the same over any run: an account's stake is what it had plus what it staked less what it unstaked and what slashes took, and its balance likewise |
| `Steps.CreatePostKeepsInv` | internal/state/executor.go:63-103 | a new post has a fresh id, one position and agreeing caches |
| `Steps.FreshPostId` | internal/types/post.go:13-18 | the id derived from the next nonce is not in use in any reachable state |
| `PostSteps.BoostKeepsInv` | internal/state/executor.go:105-181 | a boost keeps post totals, staker counts and account caches equal to the positions |
| `PostSteps.BoostWealth` | internal/state/executor.go:105-181 | a boost moves coins between holders and the burn, up to the dust |
| `PostSteps.UnstakePostsAgree` | internal/state/executor.go:183-225 | an unstake keeps post caches right; the author's leaves total and count at zero and the post withdrawn |
| `PostSteps.UnstakePostKeepsInv` | internal/state/executor.go:183-225 | an unstake, forced ones included, keeps the invariant and all wealth |
| `Bounds.PositionsEqualCaches` | internal/state/executor.go:63-225 | all positions together are worth what the accounts' post-stake balances say |
| `Bounds.PostBound` | internal/state/executor.go:105-225 | post totals and every position on a post are bounded by the wealth, so no unstake subtraction underflows |
| `Slashing.SlashIsExact` | internal/state/executor.go:263-297 | accepted evidence takes exactly the slash from stake, then unbonding, burns it, and touches nobody else |
| `Slashing.CutInOrder` | internal/state/state.go:211-235 | an unbonding entry is cut only after all earlier entries of its owner are used up |
| `Slashing.CutTotals` | internal/state/state.go:211-235 | cutting takes exactly the amount asked for, or all there is |
| `Slashing.EvidenceStep` | internal/state/executor.go:263-297 | evidence keeps the invariant and the wealth, valid or not |
| `WorldStates.WorldState.SetAccount` | internal/state/state.go:48-54 | stores the account and points the name index at it |
| `WorldStates.WorldState.GetPostStakers` | internal/state/state.go:92-100 | enumerates the positions of a post once each, in any order |
| `WorldStates.WorldState.RemoveMaturedUnbonding` | internal/state/state.go:186-197 | splits the queue into due and pending entries, both in queue order |
| `WorldStates.WorldState.UnbondingBalanceFor` | internal/state/state.go:200-208 | sums the entries of an address without wrap-around |
| `WorldStates.WorldState.SlashUnbonding` | internal/state/state.go:211-235 | the in-place edits yield the cut queue without emptied entries |
| `WorldStates.WorldState.SetValidatorPubKey` | internal/state/state.go:291-299 | sets the key of the first entry with the address |
| `WorldStates.WorldState.PubKeyForAccount` | internal/state/state.go:281-288 | finds the key of the first entry with the address |
| `WorldStates.WorldState.Clone` | internal/state/state.go:322-357 | an independent copy with the same contents |
| `ValidatorSort.SortValidatorSet` | internal/state/state.go:301-307 | the in-place insertion sort yields a permutation in ascending address order |
| `ValidatorSort.ComputeActiveValidatorSet` | internal/state/state.go:254-268 | whatever the map order, the result is the sorted set of accounts with enough stake |
| `Executors.ApplyTransferTo` | internal/state/executor.go:39-61 | the in-place transfer computes the ledger's transfer without wrap-around |
| `Executors.ApplyCreatePostTo` | internal/state/executor.go:63-103 | the in-place creation computes the ledger's without wrap-around |
| `Executors.PayStakers` | internal/state/executor.go:151-163 | whatever the order of stakers, all get their share once |
| `Executors.ApplyBoostTo` | internal/state/executor.go:105-181 | the in-place boost computes the ledger's, for every order of stakers, without wrap-around |
| `Executors.ForceOut` | internal/state/executor.go:206-221 | whatever the order, all other stakers are paid back and removed once |
| `Executors.ApplyUnstakePostTo` | internal/state/executor.go:183-225 | the in-place unstake computes the ledger's, without underflow |
| `Executors.ApplyStakeTo` | internal/state/executor.go:227-242 | the in-place stake computes the ledger's without wrap-around |
| `Executors.ApplyUnstakeTo` | internal/state/executor.go:244-261 | the in-place unstake queues the amount for release one period later |
| `Executors.ApplyRegisterNameTo` | internal/state/executor.go:299-309 | the in-place registration sets name and index |
| `BlockExecutors.ApplySlashEvidence` | internal/state/executor.go:263-297 | the in-place slash computes the ledger's without wrap-around, or does nothing when the evidence does not count |
| `BlockExecutors.ReleaseUnbonding` | internal/state/executor.go:316-325 | credits exactly the due entries |
| `BlockExecutors.ApplyTransactions` | internal/state/executor.go:332-340 | stops at the first refused transaction, otherwise computes the ledger's outcome |
| `BlockExecutors.ExecuteBlock` | internal/state/executor.go:313-362 | on a copy computes exactly the ledger's block, for every map order and without wrap-around; the input is untouched |
| `Genesis.InitializeState` | internal/genesis/genesis.go:130-186 | builds the genesis state or refuses the file, exactly as the definition says |
| `Genesis.GenesisSound` | internal/genesis/genesis.go:130-186 | the genesis state satisfies the invariant; it holds the configured supply if and only if no address is staked twice |
| `GenesisBooks.GenesisExactly` | internal/genesis/genesis.go:130-186 | a genesis file is accepted if and only if addresses are valid, the supply fits and every stake is covered, and then each account holds what the file says |
| `GenesisBooks.RunBooks` | internal/state/executor.go:313-362 | the books of every account in every run, from the genesis file on |
| `Runs.Conservation` | internal/state/executor.go:39-362 | in every run, balances, stakes, post stakes, unbonding, burned coins and dust add up to genesis supply plus issued |
| `Runs.ConservationExact` | internal/state/executor.go:39-362 | a run conserves every coin if and only if every boost in it splits evenly |
| `PostIdScope.ScopedRunIsRun` | internal/types/post.go:13-18 | a run whose created posts have distinct ids is, state for state, a run under ids that never collide |
| `PostIdScope.ScopedConservation` | internal/state/executor.go:39-362 | conservation when ids are distinct only where the run creates posts |
| `PostIdScope.ScopedIdsFromHash` | internal/types/post.go:13-18 | without hash collisions on the encodings of those pairs, their ids are distinct |
| `Replay.RunReplayed` | internal/state/executor.go:63-309 | after any run every post, position and name is what replaying the transactions alone gives, without accounts, caches or other state |
| `Replay.GenesisReplayed` | internal/state/executor.go:63-309 | from genesis on, starting with nothing |
| `Rules.PostsAreForever` | internal/state/executor.go:63-225 | from any point of a run on, what was written stays, burns grow, a withdrawn post is final, and replies go to existing posts that are no replies |
| `Rules.StakeFloor` | internal/validation/validate.go:183-214 | an account that no evidence names never has a stake below the minimum, unless genesis gave it one |
| `StakerCounts.RunStakerCounts` | internal/state/executor.go:63-225 | in every run a post's staker count is the exact number of its positions |
| `Runs.RunNeverWraps` | internal/state/executor.go:18-362 | in every run with room for the next reward, the next block meets the executor's no-wrap precondition |
| `Runs.RunNonces` | internal/validation/validate.go:58-61 | in every run an account's nonce is the number of its executed transactions |
| `Runs.NoReplay` | internal/validation/validate.go:58-61 | no (sender, nonce) pair executes twice in a run |
| `History.NamesAreForever` | internal/state/executor.go:299-309 | accounts stay and a name once set never changes, from any point of a run to any later one |
| `History.NameLookup` | internal/state/state.go:48-62 | the index finds a name exactly when a scan would, and no two accounts share a name |
| `History.EpochStep` | internal/state/executor.go:353-358 | off a boundary addresses and weights stay; at a boundary they become the accounts with enough stake, once each, in ascending order |
| `History.WeightsBetweenBoundaries` | internal/state/state.go:254-299 | over any blocks without a boundary the set and its weights never change |
| `Epochs.EpochClock` | internal/state/executor.go:353-358 | after n blocks the epoch is n divided by its length, and the validators are those of the last height it divides, then the accounts with enough stake |
| `ValidatorKeys.BlockKey` | internal/state/state.go:254-299 | over a block a validator that stays active has the key of its last stake transaction or the one it had; a newcomer has none |
| `ValidatorKeys.KeysAreOwn` | internal/state/executor.go:227-242 | in any run a validator's key is the one it started with, or hashes to its address, or is none |
| `History.SlashedOnce` | internal/state/state.go:237-243 | no (voter, height) pair is slashed twice in any run, and the record holds exactly the punished ones |
| `Authenticity.RunProven` | internal/types/staking.go:36-57 | whoever is on record after a run has signed two different blocks at that height, and a block of the run carries both votes |
| `UnbondingCuts.CutDueBy` | internal/state/state.go:211-235 | in a queue ordered by release, a slash takes from all that is due by any height exactly the smaller of the two amounts: what is due soonest goes first |
| `UnbondingCuts.EvidencesDue` | internal/state/executor.go:263-297 | a list of evidence takes from the coins due at one height exactly its cuts: for each accepted piece, what the slash leaves over after the stake and the entries due sooner |
| `UnbondingTiming.QueueHistory` | internal/state/executor.go:244-261 | after every run the queue, ordered by release, holds what the last period's blocks unstaked, each amount due one period later, less exactly the cuts that accepted evidence made to it |
| `UnbondingTiming.ReleaseTiming` | internal/state/state.go:186-197 | a block pays out exactly what was unstaked one period earlier less the cuts made to it since, never sooner |
| `UnbondingTiming.CutsInBetween` | internal/state/executor.go:263-297 | only evidence that names the owner, in a block after the unstaking and before the release, makes a cut |
| `UnbondingTiming.PaidIntoBalance` | internal/state/executor.go:316-325 | what is released is added to the balance once |
| `ValidatorRuns.RunFits` | internal/genesis/genesis.go:130-186 | in every run from distinct genesis validators, the active set and the genesis set have distinct addresses and totals below 2^64 |
| `ValidatorRuns.RunValidatorsFit` | internal/state/state.go:254-268 | in every such run no weight of the active set and no total wraps |
| `Speculation.SimStep` | internal/mempool/mempool.go:188-205 | one step of the simulation: what the speculative state accepts, the executing state accepts, and stays at least as rich |
| `Admission.FirstSeenExactly` | internal/mempool/mempool.go:156-186 | on the first transaction, of any kind, the speculative state accepts exactly what executes |
| `Admission.SpecBooks` | internal/mempool/mempool.go:188-205 | for any kinds the balance it believes in is the start less every amount named plus transfers received, modulo 2^64 |
| `Admission.TransfersExact` | internal/mempool/mempool.go:188-205 | for transfers it is exact: a list is accepted if and only if it executes, with the accounts as they will be |
| `Reaping.SpecNonces` | internal/mempool/mempool.go:240-261 | for any kinds of transactions, accepted nonces continue each sender's without a gap |
| `Reaping.SpecExecutes` | internal/mempool/mempool.go:209-262 | a speculatively accepted list of transfers, posts, boosts and stakes executes at any height and time |
| `Overbooking.SameNameOverbooks` | internal/mempool/mempool.go:178-186 | two registrations of one free name are both accepted speculatively, and a block of the two fails at any height and time |
| `Overbooking.UnstakeTwiceOverbooks` | internal/mempool/mempool.go:174-176 | two unstakes of one position are both accepted speculatively, and a block of the two fails |
| `Overbooking.StakeTwiceOverbooks` | internal/mempool/mempool.go:156-168 | two unstakes that the stake covers one at a time but not together are both accepted, and a block of the two fails |
| `Overbooking.UnstakeOverbooks` | internal/mempool/mempool.go:188-205 | an unstake above the balance wraps the speculative balance; the transfer accepted after it fails in the block if and only if it exceeds the balance plus what is released at that height |
| `AssemblyKinds.SafeKindsExactly` | internal/mempool/mempool.go:209-262 | every block built from a pool that Add would admit, of the given kinds, executes, in all sound states or in all states that runs reach, if and only if the kinds contain no name registration, unstake or post unstake |
| `Mempools.SpeculativeState.GetAccount` | internal/mempool/mempool.go:156-168 | copying lazily changes nothing that the state shows |
| `Mempools.SpeculativeState.ApplyTx` | internal/mempool/mempool.go:188-205 | books nonce, balance and transfer credit, in wrapping arithmetic |
| `Mempools.Mempool.Add` | internal/mempool/mempool.go:43-79 | admits exactly the signed, not hopeless transactions whose hash is new while there is room, and files them under their hash |
| `Admission.AdmittedExactly` | internal/mempool/mempool.go:43-65 | of the transactions that would execute now, the pool admits exactly those whose amount the free balance covers; it turns away only unstakes |
| `AdmissionDemo.UnstakeTurnedAway` | internal/mempool/mempool.go:59-61 | a reached state and an unstake that would execute and is turned away |
| `Mempools.Mempool.Remove` | internal/mempool/mempool.go:82-88 | drops exactly the given hashes |
| `Mempools.Mempool.EvictStale` | internal/mempool/mempool.go:92-107 | keeps exactly the transactions whose sender exists and whose nonce is still ahead |
| `Admission.EvictedIsDead` | internal/mempool/mempool.go:92-107 | what is evicted for its nonce executes neither now nor after any further blocks |
| `Mempools.GroupBySender` | internal/mempool/mempool.go:212-238 | one queue per sender, each sorted by nonce, and every pooled transaction in one of them |
| `Mempools.Mempool.ReapForBlock` | internal/mempool/mempool.go:209-262 | for every order: each sender's queue is taken from the front, nonces are gap-free, the reaping stops only at the limit or when every head is refused, and a pool of transfers, posts, boosts and stakes gives an executable list |
| `Consensus.ProposerForHeight` | internal/consensus/proposer.go:10-29 | the loop picks the owner of the height's slot |
| `Consensus.SlotOwner` | internal/consensus/proposer.go:18-29 | the slots of a validator are its share of the cumulative stake, and the walk stops at it before its fallback |
| `Consensus.ProposerFairness` | internal/consensus/proposer.go:10-29 | in any window of total-stake many heights each validator proposes exactly its stake many times |
| `Consensus.WithoutStakeTakingTurns` | internal/consensus/proposer.go:14-18 | without any stake the validators take turns by height |
| `Consensus.TotalStake` | internal/consensus/proposer.go:37-43 | the sum modulo 2^64 |
| `Quorum.QuorumThreshold` | internal/consensus/proposer.go:46-49 | two thirds of the total, rounded down, plus one |
| `Quorum.ValidateQuorumCertificate` | internal/consensus/validator.go:87-124 | accepts if and only if distinct validators with enough stake signed this block at the certificate's height |
| `Quorum.CertificateExact` | internal/consensus/proposer.go:46-49 | a certificate for the block is accepted if and only if its signers hold more than two thirds of the stake |
| `Quorum.SignerExact` | internal/consensus/validator.go:100-118 | a signer is a validator with its own signed vote for exactly the certified block and height |
| `Quorum.AccountableSafety` | internal/consensus/validator.go:87-124 | two accepted certificates of equal height for different blocks: more than a third of the stake signed both, and each double signer can be convicted |
| `Proposals.ValidateProposedBlock` | internal/consensus/validator.go:15-84 | accepts exactly the blocks that pass height, parent, proposer, time, transaction root, count, execution and state root |
| `Proposals.TallyVotes` | internal/consensus/engine.go:238-255 | the proposer's tally, repeats included, reaches the threshold |
| `Proposals.TallyExact` | internal/consensus/engine.go:245-255 | the tally decides as the certificate check does, for every validator set, if and only if nobody's vote is counted twice |
| `Proposals.RepeatedVotePasses` | internal/consensus/engine.go:245-250 | for any certificate with a vote counted twice there is a validator set whose tally passes and whose certificate check fails |
| `Chains.ParentHashes` | internal/consensus/validator.go:27-38 | along a node's chain each block names the SHA-256 hash of its parent's header, the first one zero |
| `Chains.SameHeadSameHistory` | internal/types/block.go:18-27 | linked chains whose heads hash equally have the same headers and transactions at every height |
| `Chains.ChainAgreement` | internal/consensus/engine.go:182-388 | and, without evidence, lead to the same state |
| `Chains.SameHeadSameState` | internal/consensus/validator.go:69-81 | evidence or not, equal headers mean equal states up to the slash record |
| `LawfulChains.TimeRunsForward` | internal/consensus/validator.go:44-55 | along every chain that nodes build lawfully, time strictly increases |
| `LawfulChains.CertifiedByTwoThirds` | internal/consensus/validator.go:15-124 | every certified block of such a chain had the scheduled proposer and the signatures of more than two thirds of the stake of its time |
| `Engines.FreshNode` | internal/consensus/engine.go:46-79 | a sound genesis state with an empty chain satisfies the node's invariant, so a node can start from it |
| `Engines.Engine.constructor` | internal/consensus/engine.go:46-106 | a node is built around any state and last block, and satisfies the node's invariant if and only if they are what its history leads to |
| `Engines.Engine.CommitBlock` | internal/consensus/engine.go:288-323 | saves the state, removes exactly the block's and the overtaken transactions, advances, and keeps the node's invariant |
| `Engines.Engine.AssembleProposal` | internal/consensus/engine.go:188-213 | the proposal carries a list reaped from the pool; for a pool of transfers, posts, boosts and stakes it executes, and on the right node and height it passes every check but the clock on any node in the same state |
| `Engines.Engine.ProposeBlock` | internal/consensus/engine.go:182-285 | the proposal carries a list reaped from the pool and is committed if and only if it executes and the tally reaches the threshold; its certificate holds exactly the collected votes and, if none repeats, is accepted; made on turn, a peer in the same state commits it if and only if it is in time |
| `Engines.ProposalCommits` | internal/consensus/engine.go:195-204 | a certified proposal made on turn is committed by a peer in the same state if and only if it is later than the last block and at most fifteen seconds ahead of the peer's clock |
| `Engines.Engine.OnFinalizedBlock` | internal/consensus/engine.go:352-388 | commits exactly when the certificate is accepted, the block is new and it passes validation; otherwise nothing changes, pool and store included; keeps the chain lawful |
| `Engines.Engine.SyncOne` | internal/consensus/engine.go:507-533 | adopts a synced block exactly when it passes, checking the certificate only if one was sent |
| `Engines.Engine.SyncBlocks` | internal/consensus/engine.go:505-535 | adopts the blocks of a response in order, cleaning the pool after each, and stops only at one that is refused in the state reached |
| `Engines.NodesAgree` | internal/consensus/engine.go:182-388 | two nodes from one genesis with equal last header hashes hold the same headers, transactions and world state |
| `Engines.NodesShareState` | internal/consensus/engine.go:182-388 | nodes with the same last header hold the same state up to the slash record, evidence or not |
| `Engines.ForksAreAccountable` | internal/consensus/engine.go:352-388 | two nodes in one state that commit different finalized blocks under certificates of equal height expose more than a third of the stake to conviction, for any set of distinct validators |
| `Engines.ForksFromGenesis` | internal/consensus/engine.go:352-388 | so on every chain from a genesis of distinct validators, whatever sets its epochs brought |
| `Engines.NodeChainOwned` | internal/validation/validate.go:40-61 | every transaction on a node's chain is signed by the key its sending address is derived from |
| `Nodes.OpenState` | internal/node/node.go:79-99 | a clean store with a chain is loaded as it is; a blank one is initialized from genesis and saved, or refused with the genesis file |
| `Nodes.OpenNode` | internal/node/node.go:79-136 | after any saved run a node opens; its state is the one it stopped in, all but the slash record, if and only if no saved position has been closed; and its invariant holds if and only if besides nobody had been slashed |
| `BigEndians.BigEndianRoundTrip` | internal/types/hash.go:27-31 | a fixed-width big-endian number reads back |
| `BigEndians.CompareBytes` | internal/state/stateroot.go:95-105 | the first difference decides, then the length; on equal lengths the sign of the first difference |
| `BigEndians.LexIsNumeric` | internal/state/stateroot.go:95-105 | comparing fixed-width encodings byte by byte is comparing the numbers |
| `Encoding.HashWriter.WriteBytes` | internal/types/hash.go:19-25 | appends the length-prefixed bytes |
| `Encoding.StreamPrefix` | internal/types/hash.go:19-45 | writes of a known shape can be read back from any stream they start |
| `Encoding.SectionPrefix` | internal/types/hash.go:19-45 | a counted list of records can be read back from any stream it starts |
| `Encoding.DerivePostId` | internal/types/post.go:13-18 | the id is the hash of the unambiguous encoding of author and nonce |
| `Hashes.SignableInjective` | internal/types/transaction.go:36-48 | the signed message determines every field but the signature |
| `Hashes.TxHashInjective` | internal/types/transaction.go:51-57 | the hashed message determines the transaction, signature included |
| `Hashes.HashTx` | internal/types/transaction.go:51-57 | computes the hash of that message |
| `Hashes.ComputeTxRoot` | internal/types/block.go:81-89 | hashes the count and the transaction hashes in order |
| `Hashes.TxRootInjective` | internal/types/block.go:81-89 | without collisions, equal roots mean equal transaction lists |
| `Hashes.HashHeader` | internal/types/block.go:18-27 | computes the hash of the header's encoding |
| `Hashes.HeaderInjective` | internal/types/block.go:18-27 | that encoding determines the header |
| `Hashes.VoteBytesExact` | internal/types/block.go:48-53 | two votes sign the same message if and only if they agree in height and block |
| `WireFormats.HeaderWire` | internal/types/block.go:18-27 | the 168 hashed bytes of a header, value by value |
| `WireFormats.VoteWire` | internal/types/block.go:48-53 | the 48 bytes a vote signs |
| `StateRoots.RootDetermines` | internal/state/stateroot.go:11-93 | two reachable states print to the same bytes if and only if they are equal in everything but the slash record, unprinted caches included |
| `StateRootWriter.SortedKeys` | internal/state/stateroot.go:14-18 | keys visited in any order and sorted by bytes come out in one order |
| `StateRootWriter.ComputeStateRoot` | internal/state/stateroot.go:11-93 | the root is a function of the state, not of map order |
| `StateRootWriter.SoundIsRepresentable` | internal/state/stateroot.go:11-93 | in a sound state no printed amount is truncated |
| `KVCodec.EncodeAccount` | internal/store/kvstore.go:252-272 | fills the buffer with the account layout |
| `KVCodec.AccountRoundTrip` | internal/store/kvstore.go:252-304 | account records read back, with or without a name, past the older-format branches |
| `KVCodec.EncodePost` | internal/store/kvstore.go:306-343 | fills the buffer with the post layout |
| `KVCodec.PostRoundTrip` | internal/store/kvstore.go:306-390 | post records read back, optional tail included |
| `KVCodec.EncodeValidatorSet` | internal/store/kvstore.go:395-408 | writes count and entries |
| `KVCodec.DecodeValidatorSet` | internal/store/kvstore.go:410-429 | reads at most count whole entries |
| `KVCodec.EncodeUnbondingQueue` | internal/store/kvstore.go:434-447 | writes count and entries |
| `KVCodec.DecodeUnbondingQueue` | internal/store/kvstore.go:449-468 | reads at most count whole entries |
| `KVCodec.ListRoundTrip` | internal/store/kvstore.go:395-468 | lists of fixed-size entries read back |
| `KVCodec.PositionRoundTrip` | internal/store/kvstore.go:473-501 | position records read back |
| `WireFormats.AccountLayout` | internal/store/kvstore.go:252-272 | each value of a stored account at its offset |
| `WireFormats.PositionLayout` | internal/store/kvstore.go:473-485 | each value of a stored position at its offset |
| `KVStores.PrefixExact` | internal/store/kvstore.go:14-24 | a prefix scan visits exactly the keys of its kind; scanning posts skips positions |
| `KVStores.KeysApart` | internal/store/kvstore.go:14-24 | different records never share a key |
| `KVStores.KVStore.SaveState` | internal/store/kvstore.go:48-106 | every record of the state is stored under its key, everything else stays, no other key appears, and records stay filed under their own keys |
| `KVLoad.LoadState` | internal/store/kvstore.go:109-236 | fails exactly when an account, post or counter does not decode, never on a clean store; from a clean store it yields what the store holds |
| `KVLoad.LoadedRecords` | internal/store/kvstore.go:48-236 | after a save, loading yields the saved records and besides them exactly the stale ones |
| `KVLoad.PersistenceRoundTrip` | internal/store/kvstore.go:48-236 | the state comes back, and its root is the same, if and only if the store held nothing stale |
| `KVLoad.EmptyStoreRoundTrip` | internal/store/kvstore.go:48-236 | from an empty store the state and its root always come back |
| `KVRuns.RunStoreClean` | internal/store/kvstore.go:48-236 | the store of a run of storable states holds only records filed under their own keys, so it can always be loaded |
| `KVRuns.StoreHolds` | internal/node/node.go:86-99 | before each save the store of a run, genesis save included, holds exactly the keys that some earlier saved state had |
| `KVRuns.RestartExact` | internal/store/kvstore.go:48-236 | after a run saved from genesis on block by block, a restart restores state and root if and only if no saved position has been closed |
| `KVRuns.ClosedComesBack` | internal/store/kvstore.go:48-106 | a position held after some block and gone later is back after a restart, with another state root |
| `KVRuns.BlockClosesInVain` | internal/consensus/engine.go:288-295 | one block that closes a position is enough, whatever the store held before |
| `Forgetting.ForgottenBlock` | internal/state/executor.go:263-330 | on a block of old evidence a node without the record burns more than one with it, by exactly the slash of what is at risk after the block's releases, and the same when nothing is |
| `Forgetting.ForgottenRoot` | internal/state/executor.go:263-330 | the two nodes accept the block with one state root if and only if none of the offenders has anything at risk then |
| `Forgetting.RestartForgetsSlashes` | internal/store/kvstore.go:48-106 | the same for a node restarted at the end of a saved run and evidence of offences that the run has punished |
| `SlashDemo.ForgetfulSplit` | internal/state/executor.go:263-297 | a state one block after genesis and a next block on which a restarted node burns one coin more and gets another root |

## Left out

- BlockExecutors.ExecuteBlock: does not model execution once all wealth plus one reward reaches 2^64, or an account's nonce the end of its range; the program's arithmetic wraps there, and no invariant survives. It also asks for distinct post ids on all pairs, which `PostIdScope` weakens for the results about runs only.
- Proposals.ValidateProposedBlock: requires the same room in the supply for one more reward, because it executes the block.
- Engines.Engine.AssembleProposal: requires that room too, and a node that satisfies its invariant; a node whose restart brought closed positions back or lost a slash record, or that resumes without its last block, can be built (`Nodes.OpenNode`) but its steps are not modelled.
- Engines.Engine.ProposeBlock: requires the same.
- Engines.Engine.OnFinalizedBlock: requires the same.
- Engines.Engine.SyncOne: requires the same.
- Engines.Engine.SyncBlocks: requires the same, with room for the rewards of the whole response.
- WorldStates.WorldState.Clone: records are values in the model, so that the copy shares no record with the original is true by construction and not shown for pointers.
- Aliasing elsewhere: account, post and position records are values in the model, so two pointers to one record are not modelled; the program reads, changes and stores them one at a time.
- Networking, gRPC, peers, timers, goroutines and locks: each handler is one atomic step, and what peers answer is a parameter.
- Signing of votes and transactions, and the handler that answers a proposal with a vote: it is the proposal check followed by a signature.
- Choice of the sync peer and the request loop around a sync response.
- Block store, whose answer for the last block is a parameter, and errors of the key-value database: saving and loading either happen or do not.
- Genesis file parsing and its field checks, apart from building the state.
- Unicode normalization and the post length rule: one predicate of the parameters.
- Old-format account and post records beyond the fact that the decoders' branches for them do not disturb current records.
- Read-only queries (positions by address, total active stake, pending transactions) that would only add easy members.
- HTTP RPC, command line, indexer, ranking and the web application.
