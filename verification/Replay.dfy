/** Posts, positions and names of a run, replayed from its transactions alone: no accounts, no caches, no other
    state. */
module Replay {
  import opened Words
  import opened Types
  import opened Ledger
  import opened Invariant
  import opened Steps
  import opened Blocks
  import opened Genesis
  import opened Runs
  import opened Effects

  // ---------- Positions ----------

  /** a is the author of the post: one of its transactions has that id. */
  ghost predicate Wrote(p: Params, a: Address, id: PostId) {
    exists n: Uint64 :: p.postId(a, n) == id
  }

  /** What a boost leaves to its sender as a position. */
  function Invested(p: Params, tx: Tx): int {
    tx.amount - Percent(tx.amount, BurnRate(p)) - Percent(tx.amount, AuthorRate(p)) - Percent(tx.amount, StakerRate(p))
  }

  /** The position of a on a post after one more transaction: opened by writing the post or by a first boost, raised by
      further boosts, closed by a's own unstake or the author's. */
  ghost function NextPosition(p: Params, before: Option<Position>, tx: Tx, h: Uint64, id: PostId, a: Address)
    : Option<Position>
  {
    if tx.kind == TX_CREATE_POST && tx.sender == a && p.postId(a, tx.nonce) == id then
      Some(Position(tx.amount - Percent(tx.amount, FeeRate(p)), h))
    else if tx.kind == TX_BOOST_POST && tx.sender == a && tx.postId == id then
      Some(if before.Some? then before.value.(amount := before.value.amount + Invested(p, tx))
           else Position(Invested(p, tx), h))
    else if tx.kind == TX_UNSTAKE_POST && tx.postId == id && (tx.sender == a || Wrote(p, tx.sender, id)) then None
    else before
  }

  // ---------- Posts ----------

  /** A post without its caches. */
  datatype Content = Content(author: Address, text: Bytes, channel: Bytes, parent: PostId, height: Uint64, time: Int64,
                             burned: int, withdrawn: bool)

  function ContentOf(x: Post): Content {
    Content(x.author, x.text, x.channel, x.parent, x.createdAtHeight, x.createdAtTime, x.totalBurned, x.withdrawn)
  }

  /** A post after one more transaction: written once, then only its burn grows and its author may withdraw it. */
  function NextPost(p: Params, before: Option<Content>, tx: Tx, h: Uint64, t: Int64, id: PostId): Option<Content> {
    if tx.kind == TX_CREATE_POST && p.postId(tx.sender, tx.nonce) == id then
      Some(Content(tx.sender, tx.text, tx.channel, tx.postId, h, t, Percent(tx.amount, FeeRate(p)), false))
    else if before.None? || tx.postId != id then before
    else if tx.kind == TX_BOOST_POST then
      Some(before.value.(burned := before.value.burned + Percent(tx.amount, BurnRate(p))))
    else if tx.kind == TX_UNSTAKE_POST && tx.sender == before.value.author then Some(before.value.(withdrawn := true))
    else before
  }

  // ---------- Names ----------

  function NextName(before: Bytes, tx: Tx, a: Address): Bytes {
    if tx.kind == TX_REGISTER_NAME && tx.sender == a then tx.text else before
  }

  // ---------- One transaction ----------

  /** What a state says about a post, a position on it and a name. */
  datatype Facts = Facts(post: Option<Content>, position: Option<Position>, name: Bytes)

  function PostOf(s: State, id: PostId): Option<Content> {
    if id in s.posts then Some(ContentOf(s.posts[id])) else None
  }

  function FactsOf(s: State, id: PostId, a: Address): Facts {
    Facts(
      PostOf(s, id),
      if StakeKey(id, a) in s.stakes then Some(s.stakes[StakeKey(id, a)]) else None,
      if a in s.accounts then s.accounts[a].name else [])
  }

  ghost function NextFacts(p: Params, f: Facts, tx: Tx, h: Uint64, t: Int64, id: PostId, a: Address): Facts {
    Facts(NextPost(p, f.post, tx, h, t, id), NextPosition(p, f.position, tx, h, id, a), NextName(f.name, tx, a))
  }

  /** In a state of the invariant, the author of a post is whoever wrote it. */
  lemma WroteIsAuthor(p: Params, s: State, id: PostId, a: Address)
    requires Authored(p, s) && PostIdsDistinct(p) && id in s.posts
    ensures Wrote(p, a, id) <==> a == s.posts[id].author
  {
    assert AuthoredPost(p, s, id);
  }

  lemma TxFacts(p: Params, s: State, tx: Tx, h: Uint64, t: Int64, id: PostId, a: Address)
    requires Inv(p, s) && NonceRoom(s, 1) && GoodParams(p) && PostIdsDistinct(p)
    requires ValidTx(p, ReaderOf(s), tx) && ApplyTx(p, s, tx, h, t).Some?
    ensures FactsOf(ApplyTx(p, s, tx, h, t).value, id, a) == NextFacts(p, FactsOf(s, id, a), tx, h, t, id, a)
  {
    ValidSpender(p, s, tx);
    if tx.kind == TX_CREATE_POST {
      FeeAtRate(p, tx.amount);
      FreshPostId(p, s, tx.sender);
      CreateFacts(p, s, tx, PostFee(p, tx.amount), h, t, id, a);
    } else if tx.kind == TX_BOOST_POST {
      SplitAtRates(p, tx.amount);
      BoostFacts(p, s, tx, BoostSplit(p, tx.amount), h, t, id, a);
    } else if tx.kind == TX_UNSTAKE_POST {
      UnstakeFacts(p, s, tx, h, t, id, a);
    } else {
      PlainFacts(p, s, tx, h, t, id, a);
    }
  }

  lemma CreateFacts(p: Params, s: State, tx: Tx, fee: Uint64, h: Uint64, t: Int64, id: PostId, a: Address)
    requires tx.sender in s.accounts && tx.kind == TX_CREATE_POST && tx.nonce == Wrap(s.accounts[tx.sender].nonce + 1)
    requires fee == Percent(tx.amount, FeeRate(p))
    requires PostIdsDistinct(p)
    ensures FactsOf(Created(p, s, tx, fee, h, t), id, a) == NextFacts(p, FactsOf(s, id, a), tx, h, t, id, a)
  {}

  lemma BoostFacts(p: Params, s: State, tx: Tx, split: Split, h: Uint64, t: Int64, id: PostId, a: Address)
    requires tx.sender in s.accounts && tx.kind == TX_BOOST_POST && tx.postId in s.posts
    requires split.burn == Percent(tx.amount, BurnRate(p)) && split.author == Percent(tx.amount, AuthorRate(p))
    requires split.stakers == Percent(tx.amount, StakerRate(p))
    ensures FactsOf(Boosted(s, tx, split, h), id, a) == NextFacts(p, FactsOf(s, id, a), tx, h, t, id, a)
  {
    RewardedNames(BoosterDebited(s, tx, split), s.posts[tx.postId].author, split.author,
                  Stakers(s.stakes, tx.postId), split.stakers, s.posts[tx.postId].totalStaked);
  }

  lemma RewardedNames(accounts: map<Address, Account>, author: Address, authorReward: int,
                      stakers: map<Address, Position>, reward: int, total: int)
    ensures var after := Rewarded(accounts, author, authorReward, stakers, reward, total);
            after.Keys == accounts.Keys && forall a :: a in accounts ==> after[a].name == accounts[a].name
  {}

  lemma UnstakeFacts(p: Params, s: State, tx: Tx, h: Uint64, t: Int64, id: PostId, a: Address)
    requires Inv(p, s) && PostIdsDistinct(p) && tx.kind == TX_UNSTAKE_POST && ApplyUnstakePost(s, tx).Some?
    ensures FactsOf(ApplyUnstakePost(s, tx).value, id, a) == NextFacts(p, FactsOf(s, id, a), tx, h, t, id, a)
  {
    WroteIsAuthor(p, s, tx.postId, tx.sender);
    OthersForcedOut(s, tx, a);
    RefundedName(Left(s, tx), ForcedOut(s, tx), a);
  }

  lemma RefundedName(accounts: map<Address, Account>, stakers: map<Address, Position>, a: Address)
    ensures var after := Refund(accounts, stakers);
            after.Keys == accounts.Keys && (a in accounts ==> after[a].name == accounts[a].name)
  {}

  lemma PlainFacts(p: Params, s: State, tx: Tx, h: Uint64, t: Int64, id: PostId, a: Address)
    requires ApplyTx(p, s, tx, h, t).Some?
    requires tx.kind != TX_CREATE_POST && tx.kind != TX_BOOST_POST && tx.kind != TX_UNSTAKE_POST
    ensures FactsOf(ApplyTx(p, s, tx, h, t).value, id, a) == NextFacts(p, FactsOf(s, id, a), tx, h, t, id, a)
  {}

  // ---------- Runs ----------

  ghost function TxsFacts(p: Params, f: Facts, txs: seq<Tx>, h: Uint64, t: Int64, id: PostId, a: Address): Facts {
    if txs == [] then f else
      NextFacts(p, TxsFacts(p, f, txs[..|txs| - 1], h, t, id, a), txs[|txs| - 1], h, t, id, a)
  }

  ghost function RunFacts(p: Params, f: Facts, blocks: seq<Block>, id: PostId, a: Address): Facts {
    if blocks == [] then f else
      var b := blocks[|blocks| - 1];
      TxsFacts(p, RunFacts(p, f, blocks[..|blocks| - 1], id, a), b.txs, b.header.height, b.header.timestamp, id, a)
  }

  lemma {:induction false} TxsReplayed(p: Params, s: State, txs: seq<Tx>, h: Uint64, t: Int64, id: PostId, a: Address)
    requires Inv(p, s) && NonceRoom(s, |txs|) && |txs| < TWO64 && GoodParams(p) && PostIdsDistinct(p)
    requires ApplyTxs(p, s, txs, h, t).Some?
    ensures FactsOf(ApplyTxs(p, s, txs, h, t).value, id, a) == TxsFacts(p, FactsOf(s, id, a), txs, h, t, id, a)
  {
    if txs == [] {
      TxsUnfold(p, s, txs, h, t);
    } else {
      var init, last := txs[..|txs| - 1], txs[|txs| - 1];
      LastTx(p, s, txs, h, t);
      TxsReplayed(p, s, init, h, t, id, a);
      TxsStep(p, s, init, h, t, 1);
      TxFacts(p, ApplyTxs(p, s, init, h, t).value, last, h, t, id, a);
    }
  }

  lemma {:induction false} CreditsKeepName(accounts: map<Address, Account>, q: seq<Unbonding>, a: Address)
    ensures var after := CreditEntries(accounts, q);
            (if a in after then after[a].name else []) == (if a in accounts then accounts[a].name else [])
  {
    if q != [] {
      CreditsKeepName(accounts, q[..|q| - 1], a);
    }
  }

  lemma {:induction false} EvidencesKeepFacts(p: Params, s: State, evs: seq<Evidence>, id: PostId, a: Address)
    ensures FactsOf(ApplyEvidences(p, s, evs), id, a) == FactsOf(s, id, a)
  {
    if evs != [] {
      EvidencesKeepFacts(p, s, evs[..|evs| - 1], id, a);
    }
  }

  lemma EndKeepsFacts(p: Params, s: State, h: Header, id: PostId, a: Address)
    ensures FactsOf(EndBlock(p, s, h), id, a) == FactsOf(s, id, a)
  {}

  lemma BlockReplayed(p: Params, s: State, b: Block, id: PostId, a: Address)
    requires Inv(p, s) && GoodParams(p) && PostIdsDistinct(p) && NonceRoom(s, |b.txs|) && |b.txs| < TWO64
    requires ApplyBlock(p, s, b).Some?
    ensures FactsOf(ApplyBlock(p, s, b).value, id, a)
            == TxsFacts(p, FactsOf(s, id, a), b.txs, b.header.height, b.header.timestamp, id, a)
  {
    var m := BeginBlock(p, s, b);
    CreditsKeepName(s.accounts, Matured(s.queue, b.header.height), a);
    EvidencesKeepFacts(p, Release(s, b.header.height), b.evidence, id, a);
    BeginBlockStep(p, s, b);
    TxsReplayed(p, m, b.txs, b.header.height, b.header.timestamp, id, a);
    EndKeepsFacts(p, ApplyTxs(p, m, b.txs, b.header.height, b.header.timestamp).value, b.header, id, a);
  }

  /** After any run, every post, every position on it and every name is what the transactions of the run say. */
  lemma {:induction false} RunReplayed(p: Params, s: State, blocks: seq<Block>, id: PostId, a: Address)
    requires Inv(p, s) && GoodParams(p) && PostIdsDistinct(p)
    requires TxCount(blocks) < TWO64 && NonceRoom(s, TxCount(blocks)) && Execute(p, s, blocks).Some?
    ensures FactsOf(Execute(p, s, blocks).value, id, a) == RunFacts(p, FactsOf(s, id, a), blocks, id, a)
  {
    ExecuteUnfold(p, s, blocks);
    if blocks != [] {
      var n := |blocks| - 1;
      LastBlock(p, s, blocks);
      RunReplayed(p, s, blocks[..n], id, a);
      ExecuteStep(p, s, blocks[..n], |blocks[n].txs|);
      BlockReplayed(p, Execute(p, s, blocks[..n]).value, blocks[n], id, a);
    }
  }

  /** From genesis on there is nothing but what the transactions brought. */
  lemma GenesisReplayed(p: Params, accts: seq<GenesisAccount>, vals: seq<GenesisValidator>,
                        validAddress: Address -> bool, blocks: seq<Block>, id: PostId, a: Address)
    requires Run(p, accts, vals, validAddress, blocks)
    ensures FactsOf(Execute(p, GenesisState(accts, vals, validAddress).value, blocks).value, id, a)
            == RunFacts(p, Facts(None, None, []), blocks, id, a)
  {
    var g := GenesisState(accts, vals, validAddress).value;
    RunStart(p, accts, vals, validAddress, blocks);
    FundedNameless(accts);
    BondedTotal(Funded(accts), vals);
    assert FactsOf(g, id, a) == Facts(None, None, []);
    RunReplayed(p, g, blocks, id, a);
  }
}
