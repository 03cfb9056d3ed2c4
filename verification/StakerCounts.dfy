/** Staker counts are exact over every run: no run has as many positions as a uint64 has values. */
module StakerCounts {
  import opened Words
  import opened Types
  import opened Ordering
  import opened Ledger
  import opened Invariant
  import opened Genesis
  import opened Runs

  lemma OneKeyMore(before: map<StakeKey, Position>, after: map<StakeKey, Position>, key: StakeKey)
    requires after.Keys <= before.Keys + {key}
    ensures |after| <= |before| + 1
  {
    SubsetSize(after.Keys, before.Keys + {key});
  }

  lemma CreatePositions(p: Params, s: State, tx: Tx, fee: Uint64, h: Uint64, t: Int64)
    requires tx.sender in s.accounts
    ensures |Created(p, s, tx, fee, h, t).stakes| <= |s.stakes| + 1
  {
    var id := p.postId(tx.sender, Wrap(s.accounts[tx.sender].nonce + 1));
    OneKeyMore(s.stakes, Created(p, s, tx, fee, h, t).stakes, StakeKey(id, tx.sender));
  }

  lemma BoostPositions(s: State, tx: Tx, split: Split, h: Uint64)
    ensures |BoostedStakes(s, tx, split, h)| <= |s.stakes| + 1
  {
    OneKeyMore(s.stakes, BoostedStakes(s, tx, split, h), StakeKey(tx.postId, tx.sender));
  }

  lemma UnstakePositions(s: State, tx: Tx)
    requires ApplyUnstakePost(s, tx).Some?
    ensures |ApplyUnstakePost(s, tx).value.stakes| <= |s.stakes|
  {
    SubsetSize(ApplyUnstakePost(s, tx).value.stakes.Keys, s.stakes.Keys);
  }

  /** A transaction opens at most one position. */
  lemma TxPositions(p: Params, s: State, tx: Tx, h: Uint64, t: Int64)
    requires ApplyTx(p, s, tx, h, t).Some?
    ensures |ApplyTx(p, s, tx, h, t).value.stakes| <= |s.stakes| + 1
  {
    if tx.kind == TX_CREATE_POST {
      CreatePositions(p, s, tx, PostFee(p, tx.amount), h, t);
    } else if tx.kind == TX_BOOST_POST {
      BoostPositions(s, tx, BoostSplit(p, tx.amount), h);
    } else if tx.kind == TX_UNSTAKE_POST {
      UnstakePositions(s, tx);
    }
  }

  lemma {:induction false} TxsPositions(p: Params, s: State, txs: seq<Tx>, h: Uint64, t: Int64)
    requires ApplyTxs(p, s, txs, h, t).Some?
    ensures |ApplyTxs(p, s, txs, h, t).value.stakes| <= |s.stakes| + |txs|
  {
    TxsUnfold(p, s, txs, h, t);
    if txs != [] {
      var n := |txs| - 1;
      LastTx(p, s, txs, h, t);
      TxsPositions(p, s, txs[..n], h, t);
      TxPositions(p, ApplyTxs(p, s, txs[..n], h, t).value, txs[n], h, t);
    }
  }

  lemma {:induction false} EvidencePositions(p: Params, s: State, evs: seq<Evidence>)
    ensures ApplyEvidences(p, s, evs).stakes == s.stakes
  {
    if evs != [] {
      EvidencePositions(p, s, evs[..|evs| - 1]);
    }
  }

  lemma BlockPositions(p: Params, s: State, b: Block)
    requires ApplyBlock(p, s, b).Some?
    ensures |ApplyBlock(p, s, b).value.stakes| <= |s.stakes| + |b.txs|
  {
    EvidencePositions(p, Release(s, b.header.height), b.evidence);
    TxsPositions(p, BeginBlock(p, s, b), b.txs, b.header.height, b.header.timestamp);
  }

  lemma {:induction false} RunPositions(p: Params, s: State, blocks: seq<Block>)
    requires Execute(p, s, blocks).Some?
    ensures |Execute(p, s, blocks).value.stakes| <= |s.stakes| + TxCount(blocks)
  {
    ExecuteUnfold(p, s, blocks);
    if blocks != [] {
      var n := |blocks| - 1;
      RunPositions(p, s, blocks[..n]);
      BlockPositions(p, Execute(p, s, blocks[..n]).value, blocks[n]);
    }
  }

  /** A post has no more stakers than there are positions. */
  lemma {:induction false} StakersWithinPositions(stakes: map<StakeKey, Position>, id: PostId)
    ensures |Stakers(stakes, id)| <= |stakes|
    decreases |stakes|
  {
    if stakes == map[] {
      assert Stakers(stakes, id) == map[];
    } else {
      var k :| k in stakes;
      var rest := stakes - {k};
      StakersWithinPositions(rest, id);
      assert stakes == rest[k := stakes[k]] && stakes.Keys == rest.Keys + {k};
      StakersAfterSet(rest, k, stakes[k], id);
      var on: map<Address, Position> := Stakers(rest, id);
      assert on[k.staker := stakes[k]].Keys == on.Keys + {k.staker};
    }
  }

  /** In every run each post's staker count is the number of its positions, not only modulo 2^64. */
  lemma RunStakerCounts(p: Params, accts: seq<GenesisAccount>, vals: seq<GenesisValidator>,
                        validAddress: Address -> bool, blocks: seq<Block>, id: PostId)
    requires Run(p, accts, vals, validAddress, blocks)
    requires id in Execute(p, GenesisState(accts, vals, validAddress).value, blocks).value.posts
    ensures var r := Execute(p, GenesisState(accts, vals, validAddress).value, blocks).value;
            r.posts[id].stakerCount == |Stakers(r.stakes, id)|
  {
    var g := GenesisState(accts, vals, validAddress).value;
    var r := Execute(p, g, blocks).value;
    Conservation(p, accts, vals, validAddress, blocks);
    RunPositions(p, g, blocks);
    StakersWithinPositions(r.stakes, id);
    assert PostAgrees(r.stakes, id, r.posts[id]);
  }
}
