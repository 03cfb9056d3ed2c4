/** The ledger as mathematics: what one block does to the world state, over unbounded integers and
    without any iteration order. The methods in WorldState.dfy, Executor.dfy and BlockExecutor.dfy are proved
    against these definitions. */
module Ledger {
  import opened Words
  import opened Types
  import opened SafeMath
  import opened Sums
  import opened Ordering

  datatype SlashKey = SlashKey(address: Address, height: Uint64)

  datatype State = State(
    accounts: map<Address, Account>,
    posts: map<PostId, Post>,
    names: map<Bytes, Address>,
    stakes: map<StakeKey, Position>,
    validators: seq<Validator>,
    queue: seq<Unbonding>,
    slashed: set<SlashKey>,
    burned: int, issued: int, height: Uint64, epoch: Uint64)

  const NEW_ACCOUNT := Account(0, 0, [], 0, 0)

  // ---------- Measures ----------

  function Holdings(a: Account): int { a.balance + a.staked + a.postStake }
  function AmountOf(x: Position): int { x.amount }
  function BurnedOn(x: Post): int { x.totalBurned }
  function Itself(x: int): int { x }

  /** The positions on one post, by staker. */
  ghost function Stakers(stakes: map<StakeKey, Position>, id: PostId): (r: map<Address, Position>)
    ensures forall a: Address :: a in r <==> StakeKey(id, a) in stakes
    ensures forall a: Address :: a in r ==> r[a] == stakes[StakeKey(id, a)]
  {
    map k | k in stakes && k.post == id :: k.staker := stakes[k]
  }

  /** The positions of one staker, by post. */
  ghost function Positions(stakes: map<StakeKey, Position>, a: Address): (r: map<PostId, Position>)
    ensures forall id: PostId :: id in r <==> StakeKey(id, a) in stakes
    ensures forall id: PostId :: id in r ==> r[id] == stakes[StakeKey(id, a)]
  {
    map k | k in stakes && k.staker == a :: k.post := stakes[k]
  }

  /** The part of m whose keys are in who. */
  function Part<V>(m: map<Address, V>, who: set<Address>): map<Address, V> {
    map a | a in m && a in who :: m[a]
  }

  // ---------- Validation ----------

  /** What validation may look at: the StateReader interface. names holds every name that resolves
      to an account. */
  datatype Reader = Reader(
    accounts: map<Address, Account>, posts: map<PostId, Post>, stakes: map<StakeKey, Position>, names: set<Bytes>)

  function ReaderOf(s: State): Reader {
    Reader(s.accounts, s.posts, s.stakes, set n | n in s.names && s.names[n] in s.accounts)
  }

  predicate NameChar(c: Byte) {
    'a' as int <= c <= 'z' as int || '0' as int <= c <= '9' as int || c == '_' as int
  }

  predicate ValidName(n: Bytes) {
    && 3 <= |n| <= 20
    && (forall i :: 0 <= i < |n| ==> NameChar(n[i]))
    && n[0] != '_' as int
    && n[|n| - 1] != '_' as int
    && forall i :: 0 <= i < |n| - 1 ==> !(n[i] == '_' as int && n[i + 1] == '_' as int)
  }

  /** Identity, signature and nonce. */
  predicate Authentic(p: Params, r: Reader, tx: Tx) {
    && p.addressOf(tx.pubKey) == tx.sender
    && p.txSigned(tx)
    && tx.sender in r.accounts
    && tx.nonce == Wrap(r.accounts[tx.sender].nonce + 1)
  }

  predicate Affordable(p: Params, r: Reader, tx: Tx) {
    Authentic(p, r, tx) && r.accounts[tx.sender].balance >= tx.amount
  }

  predicate ValidTx(p: Params, r: Reader, tx: Tx) {
    if tx.kind == TX_TRANSFER then
      tx.amount != 0 && tx.sender != tx.recipient && tx.recipient != NO_ADDRESS && Affordable(p, r, tx)
    else if tx.kind == TX_CREATE_POST then
      && tx.amount >= p.minPostCommitment
      && p.validText(tx.text)
      && (tx.channel != [] ==> ValidName(tx.channel))
      && (tx.postId != NO_POST ==> tx.postId in r.posts && r.posts[tx.postId].parent == NO_POST)
      && Affordable(p, r, tx)
    else if tx.kind == TX_BOOST_POST then
      && tx.amount >= p.minBoostCommitment
      && tx.postId in r.posts && !r.posts[tx.postId].withdrawn
      && Affordable(p, r, tx)
    else if tx.kind == TX_REGISTER_NAME then
      && tx.amount == 0 && ValidName(tx.text) && Affordable(p, r, tx)
      && r.accounts[tx.sender].name == [] && tx.text !in r.names
    else if tx.kind == TX_STAKE then
      && tx.amount != 0 && Affordable(p, r, tx)
      && !(r.accounts[tx.sender].staked == 0 && p.minStake > 0 && tx.amount < p.minStake)
    else if tx.kind == TX_UNSTAKE then
      && tx.amount != 0 && Authentic(p, r, tx)
      && r.accounts[tx.sender].staked >= tx.amount
      && var left := r.accounts[tx.sender].staked - tx.amount; !(left > 0 && p.minStake > 0 && left < p.minStake)
    else
      tx.kind == TX_UNSTAKE_POST && Authentic(p, r, tx)
      && StakeKey(tx.postId, tx.sender) in r.stakes && tx.postId in r.posts
  }

  // ---------- Account updates ----------

  /** Adds x to a balance, opening the account when it does not exist. */
  function Credit(accounts: map<Address, Account>, a: Address, x: int): map<Address, Account> {
    var prior := if a in accounts then accounts[a] else NEW_ACCOUNT;
    accounts[a := prior.(balance := prior.balance + x)]
  }

  /** Adds to the balance of each existing account its entry in credits, all at once. */
  function PayAll(accounts: map<Address, Account>, credits: map<Address, int>): map<Address, Account> {
    map a | a in accounts ::
      if a in credits then accounts[a].(balance := accounts[a].balance + credits[a]) else accounts[a]
  }

  /** Moves the positions of the given stakers back into their balances, all at once. */
  function Refund(accounts: map<Address, Account>, stakers: map<Address, Position>): map<Address, Account> {
    map a | a in accounts ::
      if a in stakers
      then accounts[a].(balance := accounts[a].balance + stakers[a].amount,
                        postStake := accounts[a].postStake - stakers[a].amount)
      else accounts[a]
  }

  function Bumped(a: Account): Account {
    a.(nonce := Wrap(a.nonce + 1))
  }

  // ---------- Fee splits ----------

  function PostFee(p: Params, amount: Uint64): Uint64 {
    MulDiv(amount, if p.postFeePercent == 0 then 6 else p.postFeePercent, 100)
  }

  datatype Split = Split(burn: Uint64, author: Uint64, stakers: Uint64)

  function BoostSplit(p: Params, amount: Uint64): Split {
    if p.boostBurnPercent == 0 && p.boostAuthorPercent == 0 && p.boostStakerPercent == 0
    then Split(MulDiv(amount, 3, 100), MulDiv(amount, 2, 100), MulDiv(amount, 1, 100))
    else Split(MulDiv(amount, p.boostBurnPercent, 100), MulDiv(amount, p.boostAuthorPercent, 100),
               MulDiv(amount, p.boostStakerPercent, 100))
  }

  /** The pro-rata share of each staker: the exact floor of reward * amount / total. */
  function Shares(stakers: map<Address, Position>, reward: int, total: int): map<Address, int>
    requires total > 0
  {
    map a | a in stakers :: reward * stakers[a].amount / total
  }

  // ---------- Transactions ----------

  function ApplyTransfer(s: State, tx: Tx): Option<State> {
    if tx.sender !in s.accounts || s.accounts[tx.sender].balance < tx.amount then None else
      var sender := s.accounts[tx.sender];
      var debited := s.accounts[tx.sender := Bumped(sender).(balance := sender.balance - tx.amount)];
      Some(s.(accounts := Credit(debited, tx.recipient, tx.amount)))
  }

  /** A new post with one position of its author; the fee is burned. */
  function Created(p: Params, s: State, tx: Tx, fee: Uint64, h: Uint64, t: Int64): State
    requires tx.sender in s.accounts
  {
    var author := s.accounts[tx.sender];
    var staked := tx.amount - fee;
    var id := p.postId(tx.sender, Wrap(author.nonce + 1));
    s.(
      accounts := s.accounts[tx.sender := Bumped(author).(
        balance := author.balance - tx.amount, postStake := author.postStake + staked)],
      posts := s.posts[id := Post(tx.sender, tx.text, tx.channel, tx.postId, h, t, staked, fee, 1, false)],
      stakes := s.stakes[StakeKey(id, tx.sender) := Position(staked, h)],
      burned := s.burned + fee)
  }

  function ApplyCreatePost(p: Params, s: State, tx: Tx, h: Uint64, t: Int64): Option<State> {
    if tx.sender !in s.accounts || s.accounts[tx.sender].balance < tx.amount then None
    else Some(Created(p, s, tx, PostFee(p, tx.amount), h, t))
  }

  /** What is left of a boost after the three fees: the booster's new stake. */
  function BoostStake(amount: Uint64, split: Split): int {
    amount - split.burn - split.author - split.stakers
  }

  function BoosterDebited(s: State, tx: Tx, split: Split): map<Address, Account>
    requires tx.sender in s.accounts
  {
    var booster := s.accounts[tx.sender];
    s.accounts[tx.sender := Bumped(booster).(
      balance := booster.balance - tx.amount, postStake := booster.postStake + BoostStake(tx.amount, split))]
  }

  /** Pays the author reward and then the pro-rata shares of the staker reward. */
  function Rewarded(accounts: map<Address, Account>, author: Address, authorReward: int,
                    stakers: map<Address, Position>, reward: int, total: int): map<Address, Account>
  {
    var credited := if authorReward > 0 && author in accounts
                    then Credit(accounts, author, authorReward) else accounts;
    if reward > 0 && total > 0 then PayAll(credited, Shares(stakers, reward, total)) else credited
  }

  ghost function BoostedAccounts(s: State, tx: Tx, split: Split): map<Address, Account>
    requires tx.sender in s.accounts && tx.postId in s.posts
  {
    var post := s.posts[tx.postId];
    Rewarded(BoosterDebited(s, tx, split), post.author, split.author,
             Stakers(s.stakes, tx.postId), split.stakers, post.totalStaked)
  }

  function BoostedPosts(s: State, tx: Tx, split: Split): map<PostId, Post>
    requires tx.postId in s.posts
  {
    var post := s.posts[tx.postId];
    var known := StakeKey(tx.postId, tx.sender) in s.stakes;
    s.posts[tx.postId := post.(
      totalStaked := post.totalStaked + BoostStake(tx.amount, split), totalBurned := post.totalBurned + split.burn,
      stakerCount := if known then post.stakerCount else Wrap(post.stakerCount + 1))]
  }

  function BoostedStakes(s: State, tx: Tx, split: Split, h: Uint64): map<StakeKey, Position> {
    var staked := BoostStake(tx.amount, split);
    var key := StakeKey(tx.postId, tx.sender);
    s.stakes[key := if key in s.stakes then s.stakes[key].(amount := s.stakes[key].amount + staked)
                    else Position(staked, h)]
  }

  ghost function Boosted(s: State, tx: Tx, split: Split, h: Uint64): State
    requires tx.sender in s.accounts && tx.postId in s.posts
  {
    s.(accounts := BoostedAccounts(s, tx, split), posts := BoostedPosts(s, tx, split),
       stakes := BoostedStakes(s, tx, split, h), burned := s.burned + split.burn)
  }

  ghost function ApplyBoost(p: Params, s: State, tx: Tx, h: Uint64): Option<State> {
    if tx.sender !in s.accounts || s.accounts[tx.sender].balance < tx.amount || tx.postId !in s.posts then None
    else Some(Boosted(s, tx, BoostSplit(p, tx.amount), h))
  }

  /** The positions that an unstake closes besides the sender's own: all others when the sender is the author. */
  ghost function ForcedOut(s: State, tx: Tx): map<Address, Position>
    requires tx.postId in s.posts
  {
    if tx.sender == s.posts[tx.postId].author then Stakers(s.stakes, tx.postId) - {tx.sender} else map[]
  }

  function Without(stakes: map<StakeKey, Position>, id: PostId, gone: set<Address>): map<StakeKey, Position> {
    map k | k in stakes && !(k.post == id && k.staker in gone) :: stakes[k]
  }

  /** The sender's account after taking back its position. */
  function Left(s: State, tx: Tx): map<Address, Account>
    requires tx.sender in s.accounts && StakeKey(tx.postId, tx.sender) in s.stakes
  {
    var sender := s.accounts[tx.sender];
    var amount := s.stakes[StakeKey(tx.postId, tx.sender)].amount;
    s.accounts[tx.sender := Bumped(sender).(balance := sender.balance + amount, postStake := sender.postStake - amount)]
  }

  ghost function UnstakedPost(s: State, tx: Tx): Post
    requires StakeKey(tx.postId, tx.sender) in s.stakes && tx.postId in s.posts
  {
    var post := s.posts[tx.postId];
    var others := ForcedOut(s, tx);
    post.(totalStaked := post.totalStaked - s.stakes[StakeKey(tx.postId, tx.sender)].amount - SumBy(others, AmountOf),
          stakerCount := Wrap(post.stakerCount - 1 - |others|),
          withdrawn := post.withdrawn || tx.sender == post.author)
  }

  ghost function Unstaked(s: State, tx: Tx): State
    requires tx.sender in s.accounts && StakeKey(tx.postId, tx.sender) in s.stakes && tx.postId in s.posts
  {
    s.(accounts := Refund(Left(s, tx), ForcedOut(s, tx)),
       posts := s.posts[tx.postId := UnstakedPost(s, tx)],
       stakes := Without(s.stakes, tx.postId, {tx.sender} + ForcedOut(s, tx).Keys))
  }

  ghost function ApplyUnstakePost(s: State, tx: Tx): Option<State> {
    if tx.sender !in s.accounts || StakeKey(tx.postId, tx.sender) !in s.stakes || tx.postId !in s.posts then None
    else Some(Unstaked(s, tx))
  }

  /** SetValidatorPubKey: the first matching entry takes the key; nothing happens when there is none. */
  function WithKey(vs: seq<Validator>, a: Address, key: PublicKey): (r: seq<Validator>)
    ensures |r| == |vs|
    ensures forall i :: 0 <= i < |vs| ==> r[i].address == vs[i].address && r[i].stake == vs[i].stake
  {
    if vs == [] then []
    else if vs[0].address == a then [vs[0].(pubKey := key)] + vs[1..]
    else [vs[0]] + WithKey(vs[1..], a, key)
  }

  function ApplyStake(s: State, tx: Tx): Option<State> {
    if tx.sender !in s.accounts || s.accounts[tx.sender].balance < tx.amount then None else
      var sender := s.accounts[tx.sender];
      Some(s.(
        accounts := s.accounts[tx.sender := Bumped(sender).(
          balance := sender.balance - tx.amount, staked := sender.staked + tx.amount)],
        validators := WithKey(s.validators, tx.sender, tx.pubKey)))
  }

  function ApplyUnstake(p: Params, s: State, tx: Tx, h: Uint64): Option<State> {
    if tx.sender !in s.accounts || s.accounts[tx.sender].staked < tx.amount then None else
      var sender := s.accounts[tx.sender];
      Some(s.(
        accounts := s.accounts[tx.sender := Bumped(sender).(staked := sender.staked - tx.amount)],
        queue := s.queue + [Unbonding(tx.sender, tx.amount, Wrap(h + p.unbondingPeriod))]))
  }

  function ApplyRegisterName(s: State, tx: Tx): Option<State> {
    if tx.sender !in s.accounts then None else
      Some(s.(accounts := s.accounts[tx.sender := Bumped(s.accounts[tx.sender]).(name := tx.text)],
              names := s.names[tx.text := tx.sender]))
  }

  ghost function ApplyTx(p: Params, s: State, tx: Tx, h: Uint64, t: Int64): Option<State> {
    if tx.kind == TX_TRANSFER then ApplyTransfer(s, tx)
    else if tx.kind == TX_CREATE_POST then ApplyCreatePost(p, s, tx, h, t)
    else if tx.kind == TX_BOOST_POST then ApplyBoost(p, s, tx, h)
    else if tx.kind == TX_UNSTAKE_POST then ApplyUnstakePost(s, tx)
    else if tx.kind == TX_REGISTER_NAME then ApplyRegisterName(s, tx)
    else if tx.kind == TX_STAKE then ApplyStake(s, tx)
    else if tx.kind == TX_UNSTAKE then ApplyUnstake(p, s, tx, h)
    else None
  }

  /** Validates and applies the transactions in order; None as soon as one is refused. Proofs use it only through
      TxsUnfold: the two intermediate functions keep the verifier from unfolding it elsewhere. */
  ghost function ApplyTxs(p: Params, s: State, txs: seq<Tx>, h: Uint64, t: Int64): Option<State>
    decreases |txs|, 2
  {
    ApplyTxsFolded(p, s, txs, h, t)
  }

  ghost function ApplyTxsFolded(p: Params, s: State, txs: seq<Tx>, h: Uint64, t: Int64): Option<State>
    decreases |txs|, 1
  {
    ApplyTxsFrom(p, s, txs, h, t)
  }

  ghost function ApplyTxsFrom(p: Params, s: State, txs: seq<Tx>, h: Uint64, t: Int64): Option<State>
    decreases |txs|, 0
  {
    if txs == [] then Some(s) else ApplyOne(p, ApplyTxs(p, s, txs[..|txs| - 1], h, t), txs[|txs| - 1], h, t)
  }

  /** One more transaction, validated first, unless an earlier one was refused. */
  ghost function ApplyOne(p: Params, r: Option<State>, tx: Tx, h: Uint64, t: Int64): Option<State> {
    if r.Some? && ValidTx(p, ReaderOf(r.value), tx) then ApplyTx(p, r.value, tx, h, t) else None
  }

  lemma TxsUnfold(p: Params, s: State, txs: seq<Tx>, h: Uint64, t: Int64)
    ensures ApplyTxs(p, s, txs, h, t) == ApplyTxsFrom(p, s, txs, h, t)
  {
    assert ApplyTxs(p, s, txs, h, t) == ApplyTxsFolded(p, s, txs, h, t);
    assert ApplyTxsFolded(p, s, txs, h, t) == ApplyTxsFrom(p, s, txs, h, t);
  }

  lemma TxsNext(p: Params, s: State, txs: seq<Tx>, tx: Tx, h: Uint64, t: Int64)
    ensures ApplyTxs(p, s, txs + [tx], h, t) == ApplyOne(p, ApplyTxs(p, s, txs, h, t), tx, h, t)
  {
    TxsUnfold(p, s, txs + [tx], h, t);
    assert (txs + [tx])[..|txs|] == txs;
  }

  // ---------- Unbonding ----------

  function Matured(q: seq<Unbonding>, h: int): seq<Unbonding> {
    if q == [] then [] else
      var last := q[|q| - 1];
      Matured(q[..|q| - 1], h) + if last.release <= h then [last] else []
  }

  function Pending(q: seq<Unbonding>, h: int): seq<Unbonding> {
    if q == [] then [] else
      var last := q[|q| - 1];
      Pending(q[..|q| - 1], h) + if last.release <= h then [] else [last]
  }

  function CreditEntries(accounts: map<Address, Account>, q: seq<Unbonding>): map<Address, Account> {
    if q == [] then accounts else
      var last := q[|q| - 1];
      Credit(CreditEntries(accounts, q[..|q| - 1]), last.address, last.amount)
  }

  function Release(s: State, h: Uint64): State {
    s.(accounts := CreditEntries(s.accounts, Matured(s.queue, h)), queue := Pending(s.queue, h))
  }

  function QueueTotal(q: seq<Unbonding>): int {
    if q == [] then 0 else QueueTotal(q[..|q| - 1]) + q[|q| - 1].amount
  }

  function QueueFor(q: seq<Unbonding>, a: Address): int {
    if q == [] then 0 else
      QueueFor(q[..|q| - 1], a) + if q[|q| - 1].address == a then q[|q| - 1].amount else 0
  }

  // ---------- Slashing ----------

  /** What slashing takes from entry i when x is to be taken from the entries of a in queue order. */
  function Cut(q: seq<Unbonding>, a: Address, x: int, i: nat): int
    requires i < |q|
  {
    if q[i].address != a then 0
    else
      var left := x - QueueFor(q[..i], a);
      if left <= 0 then 0 else Min(left, q[i].amount)
  }

  function CutQueue(q: seq<Unbonding>, a: Address, x: int): seq<Unbonding> {
    seq(|q|, i requires 0 <= i < |q| => q[i].(amount := q[i].amount - Cut(q, a, x, i)))
  }

  function DropEmpty(q: seq<Unbonding>): seq<Unbonding> {
    if q == [] then [] else
      var last := q[|q| - 1];
      DropEmpty(q[..|q| - 1]) + if last.amount > 0 then [last] else []
  }

  function AtRisk(s: State, a: Address): int
    requires a in s.accounts
  {
    s.accounts[a].staked + QueueFor(s.queue, a)
  }

  /** The slash: a percentage of what is at risk, at least one unit. Amounts are below 2^64 in every
      state the executor reaches, so the clamp in MulDiv never shows here. */
  function SlashAmount(p: Params, atRisk: int): int {
    var x := atRisk * p.slashPercent / 100;
    if x == 0 then 1 else x
  }

  predicate Slashable(p: Params, s: State, ev: Evidence) {
    && ValidEvidence(p, ev)
    && SlashKey(ev.voteA.voter, ev.voteA.height) !in s.slashed
    && ev.voteA.voter in s.accounts
    && AtRisk(s, ev.voteA.voter) != 0
  }

  /** Takes x from the stake of a and the rest from its unbonding entries; records and burns it. */
  function Penalized(s: State, a: Address, h: Uint64, x: int): State
    requires a in s.accounts
  {
    var fromStake := Min(x, s.accounts[a].staked);
    s.(accounts := s.accounts[a := s.accounts[a].(staked := s.accounts[a].staked - fromStake)],
       queue := if x > fromStake then DropEmpty(CutQueue(s.queue, a, x - fromStake)) else s.queue,
       slashed := s.slashed + {SlashKey(a, h)},
       burned := s.burned + x)
  }

  function ApplyEvidence(p: Params, s: State, ev: Evidence): State {
    if !Slashable(p, s, ev) then s else
      var a := ev.voteA.voter;
      Penalized(s, a, ev.voteA.height, SlashAmount(p, AtRisk(s, a)))
  }

  function ApplyEvidences(p: Params, s: State, evs: seq<Evidence>): State {
    if evs == [] then s else ApplyEvidence(p, ApplyEvidences(p, s, evs[..|evs| - 1]), evs[|evs| - 1])
  }

  // ---------- Rewards and epochs ----------

  function KeyFor(vs: seq<Validator>, a: Address): PublicKey {
    if vs == [] then NO_KEY else if vs[0].address == a then vs[0].pubKey else KeyFor(vs[1..], a)
  }

  function Eligible(s: State, minStake: int): set<Address> {
    set a | a in s.accounts && s.accounts[a].staked >= minStake
  }

  function AddressRank(a: Address): int { a }

  /** The active set: every account with enough stake, once, in ascending address order. */
  ghost function ActiveSet(s: State, minStake: int): seq<Validator> {
    var order := Sorted(Eligible(s, minStake), AddressRank);
    seq(|order|, i requires 0 <= i < |order| =>
      SortedMember(Eligible(s, minStake), AddressRank, i);
      Validator(order[i], KeyFor(s.validators, order[i]), s.accounts[order[i]].staked))
  }

  function Reward(p: Params, s: State, proposer: Address): State {
    if p.blockReward > 0
    then s.(accounts := Credit(s.accounts, proposer, p.blockReward), issued := s.issued + p.blockReward)
    else s
  }

  predicate EpochBoundary(p: Params, h: Uint64) {
    p.epochLength > 0 && h > 0 && h % p.epochLength == 0
  }

  ghost function EndBlock(p: Params, s: State, h: Header): State {
    var paid := Reward(p, s, h.proposer);
    var rotated := if EpochBoundary(p, h.height)
                   then paid.(validators := ActiveSet(paid, p.minStake), epoch := h.height / p.epochLength)
                   else paid;
    rotated.(height := h.height)
  }

  /** The state in which the transactions of a block start. */
  function BeginBlock(p: Params, s: State, b: Block): State {
    ApplyEvidences(p, Release(s, b.header.height), b.evidence)
  }

  ghost function ApplyBlock(p: Params, s: State, b: Block): Option<State> {
    match ApplyTxs(p, BeginBlock(p, s, b), b.txs, b.header.height, b.header.timestamp)
    case None => None
    case Some(m) => Some(EndBlock(p, m, b.header))
  }
}
