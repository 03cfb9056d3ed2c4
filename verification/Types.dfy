/** The records of the chain. */
module Types {
  import opened Words

  datatype Option<+T> = None | Some(value: T)

  type PostId = Word256
  type PublicKey = Word256
  type Digest = Word256

  const NO_POST: PostId := 0
  const NO_ADDRESS: Address := 0
  const NO_KEY: PublicKey := 0

  // Amounts, counters and heights in state records are plain integers: that they stay in the
  // uint64 range is something the ledger invariant proves, not something the types assume.

  datatype Account = Account(balance: int, nonce: int, name: Bytes, staked: int, postStake: int)

  datatype Post = Post(
    author: Address, text: Bytes, channel: Bytes, parent: PostId,
    createdAtHeight: Uint64, createdAtTime: Int64,
    totalStaked: int, totalBurned: int, stakerCount: Uint64, withdrawn: bool)

  datatype StakeKey = StakeKey(post: PostId, staker: Address)
  datatype Position = Position(amount: int, height: Uint64)
  datatype Validator = Validator(address: Address, pubKey: PublicKey, stake: int)
  datatype Unbonding = Unbonding(address: Address, amount: int, release: Uint64)

  const TX_TRANSFER: Byte := 1
  const TX_CREATE_POST: Byte := 2
  const TX_BOOST_POST: Byte := 3
  const TX_REGISTER_NAME: Byte := 4
  const TX_STAKE: Byte := 5
  const TX_UNSTAKE: Byte := 6
  const TX_UNSTAKE_POST: Byte := 7

  datatype Tx = Tx(
    kind: Byte, sender: Address, recipient: Address, postId: PostId, text: Bytes, channel: Bytes,
    amount: Uint64, nonce: Uint64, signature: Bytes, pubKey: PublicKey)

  datatype Vote = Vote(height: Uint64, blockHash: Digest, voter: Address, pubKey: PublicKey, signature: Bytes)
  datatype Evidence = Evidence(voteA: Vote, voteB: Vote)
  datatype QuorumCert = QuorumCert(height: Uint64, blockHash: Digest, votes: seq<Vote>)

  datatype Header = Header(
    height: Uint64, prevHash: Digest, proposer: Address, timestamp: Int64, stateRoot: Digest, txRoot: Digest)

  datatype Block = Block(header: Header, txs: seq<Tx>, evidence: seq<Evidence>, qc: Option<QuorumCert>)

  /** Genesis parameters, together with the library functions the node calls into: SHA-256, the post id
      derived from an address and a nonce, address derivation, Ed25519 verification over the signable bytes
      of a transaction or vote, and the Unicode rules for post text. Every result holds for all choices of
      these functions. */
  datatype Params = Params(
    minPostCommitment: Uint64, minBoostCommitment: Uint64, maxTxPerBlock: int,
    blockReward: Uint64, minStake: Uint64, epochLength: Uint64, unbondingPeriod: Uint64,
    slashPercent: Uint64, postFeePercent: Uint64,
    boostBurnPercent: Uint64, boostAuthorPercent: Uint64, boostStakerPercent: Uint64,
    sha256: Bytes -> Digest,
    postId: (Address, Uint64) -> PostId,
    addressOf: PublicKey -> Address,
    txSigned: Tx -> bool,
    voteSigned: Vote -> bool,
    validText: Bytes -> bool)

  predicate VerifyVote(p: Params, v: Vote) {
    |v.signature| > 0 && p.addressOf(v.pubKey) == v.voter && p.voteSigned(v)
  }

  predicate ValidEvidence(p: Params, ev: Evidence) {
    && ev.voteA.voter == ev.voteB.voter
    && ev.voteA.height == ev.voteB.height
    && ev.voteA.blockHash != ev.voteB.blockHash
    && VerifyVote(p, ev.voteA)
    && VerifyVote(p, ev.voteB)
  }
}
