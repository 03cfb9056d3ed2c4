/** Names, epochs and slashes over whole runs. */
module History {
  import opened Words
  import opened Types
  import opened Ordering
  import opened Ledger
  import opened Invariant
  import opened Blocks
  import opened ValidatorSort
  import opened Runs

  // ---------- Names ----------

  /** Accounts stay, and a name once set stays. */
  ghost predicate KeepsNames(before: map<Address, Account>, after: map<Address, Account>) {
    forall a :: a in before ==> a in after && (before[a].name != [] ==> after[a].name == before[a].name)
  }

  lemma TxKeepsNames(p: Params, s: State, tx: Tx, h: Uint64, t: Int64)
    requires ValidTx(p, ReaderOf(s), tx) && ApplyTx(p, s, tx, h, t).Some?
    ensures KeepsNames(s.accounts, ApplyTx(p, s, tx, h, t).value.accounts)
  {
    ValidSpender(p, s, tx);
    if tx.kind == TX_BOOST_POST {
      BoostKeepsNames(s, tx, BoostSplit(p, tx.amount));
    } else if tx.kind == TX_UNSTAKE_POST {
      UnstakeKeepsNames(s, tx);
    }
  }

  lemma BoostKeepsNames(s: State, tx: Tx, split: Split)
    requires tx.sender in s.accounts && tx.postId in s.posts
    ensures KeepsNames(s.accounts, BoostedAccounts(s, tx, split))
  {
    RewardedKeepsNames(BoosterDebited(s, tx, split), s.posts[tx.postId].author, split.author,
                       Stakers(s.stakes, tx.postId), split.stakers, s.posts[tx.postId].totalStaked);
  }

  lemma RewardedKeepsNames(accounts: map<Address, Account>, author: Address, x: int,
                           stakers: map<Address, Position>, reward: int, total: int)
    ensures var after := Rewarded(accounts, author, x, stakers, reward, total);
            after.Keys == accounts.Keys && forall a :: a in accounts ==> after[a].name == accounts[a].name
  {}

  lemma UnstakeKeepsNames(s: State, tx: Tx)
    requires ApplyUnstakePost(s, tx).Some?
    ensures KeepsNames(s.accounts, ApplyUnstakePost(s, tx).value.accounts)
  {}

  lemma {:induction false} TxsKeepNames(p: Params, s: State, txs: seq<Tx>, h: Uint64, t: Int64)
    requires ApplyTxs(p, s, txs, h, t).Some?
    ensures KeepsNames(s.accounts, ApplyTxs(p, s, txs, h, t).value.accounts)
  {
    TxsUnfold(p, s, txs, h, t);
    if txs != [] {
      var n := |txs| - 1;
      LastTx(p, s, txs, h, t);
      TxsKeepNames(p, s, txs[..n], h, t);
      TxKeepsNames(p, ApplyTxs(p, s, txs[..n], h, t).value, txs[n], h, t);
    }
  }

  lemma {:induction false} CreditsKeepNames(accounts: map<Address, Account>, q: seq<Unbonding>)
    ensures KeepsNames(accounts, CreditEntries(accounts, q))
  {
    if q != [] {
      CreditsKeepNames(accounts, q[..|q| - 1]);
    }
  }

  lemma {:induction false} EvidenceKeepsNames(p: Params, s: State, evs: seq<Evidence>)
    ensures KeepsNames(s.accounts, ApplyEvidences(p, s, evs).accounts)
  {
    if evs != [] {
      EvidenceKeepsNames(p, s, evs[..|evs| - 1]);
    }
  }

  lemma BlockKeepsNames(p: Params, s: State, b: Block)
    requires ApplyBlock(p, s, b).Some?
    ensures KeepsNames(s.accounts, ApplyBlock(p, s, b).value.accounts)
  {
    CreditsKeepNames(s.accounts, Matured(s.queue, b.header.height));
    var released := Release(s, b.header.height);
    EvidenceKeepsNames(p, released, b.evidence);
    var m := BeginBlock(p, s, b);
    KeepsNamesThen(s.accounts, released.accounts, m.accounts);
    TxsKeepNames(p, m, b.txs, b.header.height, b.header.timestamp);
    var after := ApplyTxs(p, m, b.txs, b.header.height, b.header.timestamp).value;
    KeepsNamesThen(s.accounts, m.accounts, after.accounts);
    EndBlockKeepsNames(p, after, b.header);
    KeepsNamesThen(s.accounts, after.accounts, EndBlock(p, after, b.header).accounts);
  }

  lemma KeepsNamesThen(a: map<Address, Account>, b: map<Address, Account>, c: map<Address, Account>)
    requires KeepsNames(a, b) && KeepsNames(b, c)
    ensures KeepsNames(a, c)
  {}

  lemma EndBlockKeepsNames(p: Params, s: State, h: Header)
    ensures KeepsNames(s.accounts, EndBlock(p, s, h).accounts)
  {}

  /** A name once set never changes, from any point of a run to any later one. */
  lemma {:induction false} NamesAreForever(p: Params, s: State, blocks: seq<Block>, i: nat)
    requires i <= |blocks| && Execute(p, s, blocks).Some?
    ensures Execute(p, s, blocks[..i]).Some?
    ensures KeepsNames(Execute(p, s, blocks[..i]).value.accounts, Execute(p, s, blocks).value.accounts)
    decreases |blocks|
  {
    if i == |blocks| {
      assert blocks[..i] == blocks;
    } else {
      var n := |blocks| - 1;
      LastBlock(p, s, blocks);
      assert blocks[..n][..i] == blocks[..i];
      NamesAreForever(p, s, blocks[..n], i);
      BlockKeepsNames(p, Execute(p, s, blocks[..n]).value, blocks[n]);
    }
  }

  /** Looking a name up in the index agrees with scanning all accounts, and no two accounts share a name. */
  lemma NameLookup(p: Params, s: State, n: Bytes)
    requires Inv(p, s)
    ensures n in ReaderOf(s).names <==> n != [] && exists a :: a in s.accounts && s.accounts[a].name == n
    ensures n in ReaderOf(s).names ==> s.accounts[s.names[n]].name == n
    ensures forall a, b ::
      a in s.accounts && b in s.accounts && s.accounts[a].name == s.accounts[b].name == n && n != [] ==> a == b
  {
    if n in s.names {
      assert NameResolves(s.accounts, s.names, n);
    }
    forall a | a in s.accounts && s.accounts[a].name == n && n != []
      ensures n in s.names && s.names[n] == a
    {
      assert NameIndexed(s.accounts, s.names, a);
    }
  }

  // ---------- Epochs ----------

  /** Same addresses with the same weights in the same places. */
  ghost predicate SameWeights(before: seq<Validator>, after: seq<Validator>) {
    && |after| == |before|
    && forall i :: 0 <= i < |before| ==> after[i].address == before[i].address && after[i].stake == before[i].stake
  }

  lemma {:induction false} TxsKeepWeights(p: Params, s: State, txs: seq<Tx>, h: Uint64, t: Int64)
    requires ApplyTxs(p, s, txs, h, t).Some?
    ensures SameWeights(s.validators, ApplyTxs(p, s, txs, h, t).value.validators)
  {
    TxsUnfold(p, s, txs, h, t);
    if txs != [] {
      LastTx(p, s, txs, h, t);
      TxsKeepWeights(p, s, txs[..|txs| - 1], h, t);
      TxKeepsWeights(p, ApplyTxs(p, s, txs[..|txs| - 1], h, t).value, txs[|txs| - 1], h, t);
    }
  }

  lemma TxKeepsWeights(p: Params, s: State, tx: Tx, h: Uint64, t: Int64)
    requires ApplyTx(p, s, tx, h, t).Some?
    ensures SameWeights(s.validators, ApplyTx(p, s, tx, h, t).value.validators)
  {}

  lemma {:induction false} EvidenceKeepsValidators(p: Params, s: State, evs: seq<Evidence>)
    ensures ApplyEvidences(p, s, evs).validators == s.validators
  {
    if evs != [] {
      EvidenceKeepsValidators(p, s, evs[..|evs| - 1]);
    }
  }

  /** What an epoch change installs: every account with enough stake, once, in strictly ascending order. */
  ghost predicate ActiveFor(r: State, minStake: int) {
    && (forall i, j :: 0 <= i < j < |r.validators| ==> r.validators[i].address < r.validators[j].address)
    && (forall i :: 0 <= i < |r.validators| ==>
          var v := r.validators[i]; v.address in r.accounts && v.stake == r.accounts[v.address].staked >= minStake)
    && (forall a :: a in r.accounts && r.accounts[a].staked >= minStake ==>
          exists i :: 0 <= i < |r.validators| && r.validators[i].address == a)
  }

  lemma ActiveMember(s: State, minStake: int, i: nat)
    requires i < |ActiveSet(s, minStake)|
    ensures var order: seq<Address> := Sorted<Address>(Eligible(s, minStake), AddressRank);
            |ActiveSet(s, minStake)| == |order| && ActiveSet(s, minStake)[i].address == order[i]
    ensures var v := ActiveSet(s, minStake)[i];
            v.address in s.accounts && v.stake == s.accounts[v.address].staked >= minStake
  {
    SortedMember<Address>(Eligible(s, minStake), AddressRank, i);
  }

  lemma ActiveOrdered(s: State, minStake: int, i: nat, j: nat)
    requires i < j < |ActiveSet(s, minStake)|
    ensures ActiveSet(s, minStake)[i].address < ActiveSet(s, minStake)[j].address
  {
    AddressRankInjective();
    SortedProperties<Address>(Eligible(s, minStake), AddressRank);
    ActiveMember(s, minStake, i);
    ActiveMember(s, minStake, j);
    var order: seq<Address> := Sorted<Address>(Eligible(s, minStake), AddressRank);
    assert AddressRank(order[i]) < AddressRank(order[j]);
  }

  lemma ActiveCovers(s: State, minStake: int, a: Address) returns (i: nat)
    requires a in s.accounts && s.accounts[a].staked >= minStake
    ensures i < |ActiveSet(s, minStake)| && ActiveSet(s, minStake)[i].address == a
  {
    AddressRankInjective();
    SortedProperties<Address>(Eligible(s, minStake), AddressRank);
    var order: seq<Address> := Sorted<Address>(Eligible(s, minStake), AddressRank);
    assert a in Elements(order);
    i :| 0 <= i < |order| && order[i] == a;
    ActiveMember(s, minStake, i);
  }

  lemma ActiveSetFacts(s: State, r: State, minStake: int)
    requires r.accounts == s.accounts && r.validators == ActiveSet(s, minStake)
    ensures ActiveFor(r, minStake)
  {
    var vs := r.validators;
    forall i, j | 0 <= i < j < |vs|
      ensures vs[i].address < vs[j].address
    {
      ActiveOrdered(s, minStake, i, j);
    }
    forall i | 0 <= i < |vs|
      ensures vs[i].address in r.accounts && vs[i].stake == r.accounts[vs[i].address].staked >= minStake
    {
      ActiveMember(s, minStake, i);
    }
    forall a | a in r.accounts && r.accounts[a].staked >= minStake
      ensures exists i :: 0 <= i < |vs| && vs[i].address == a
    {
      var i := ActiveCovers(s, minStake, a);
    }
  }

  /** Off a boundary the active addresses and weights stay; at a boundary they become the stake-holders. */
  lemma EpochStep(p: Params, s: State, b: Block)
    requires ApplyBlock(p, s, b).Some?
    ensures var r := ApplyBlock(p, s, b).value;
            && (!EpochBoundary(p, b.header.height) ==> SameWeights(s.validators, r.validators) && r.epoch == s.epoch)
            && (EpochBoundary(p, b.header.height) ==>
                  ActiveFor(r, p.minStake) && r.epoch == b.header.height / p.epochLength)
  {
    EvidenceKeepsValidators(p, Release(s, b.header.height), b.evidence);
    var m := BeginBlock(p, s, b);
    TxsKeepWeights(p, m, b.txs, b.header.height, b.header.timestamp);
    EpochsUntouched(p, s, b);
    var after := ApplyTxs(p, m, b.txs, b.header.height, b.header.timestamp).value;
    if EpochBoundary(p, b.header.height) {
      ActiveSetFacts(Reward(p, after, b.header.proposer), EndBlock(p, after, b.header), p.minStake);
    }
  }

  lemma EpochsUntouched(p: Params, s: State, b: Block)
    requires ApplyBlock(p, s, b).Some?
    ensures var m := BeginBlock(p, s, b);
            ApplyTxs(p, m, b.txs, b.header.height, b.header.timestamp).value.epoch == s.epoch
  {
    EvidenceKeepsEpoch(p, Release(s, b.header.height), b.evidence);
    TxsKeepEpoch(p, BeginBlock(p, s, b), b.txs, b.header.height, b.header.timestamp);
  }

  lemma {:induction false} EvidenceKeepsEpoch(p: Params, s: State, evs: seq<Evidence>)
    ensures ApplyEvidences(p, s, evs).epoch == s.epoch
  {
    if evs != [] {
      EvidenceKeepsEpoch(p, s, evs[..|evs| - 1]);
    }
  }

  lemma {:induction false} TxsKeepEpoch(p: Params, s: State, txs: seq<Tx>, h: Uint64, t: Int64)
    requires ApplyTxs(p, s, txs, h, t).Some?
    ensures ApplyTxs(p, s, txs, h, t).value.epoch == s.epoch
  {
    TxsUnfold(p, s, txs, h, t);
    if txs != [] {
      LastTx(p, s, txs, h, t);
      TxsKeepEpoch(p, s, txs[..|txs| - 1], h, t);
    }
  }

  /** Between boundaries the active addresses and weights never change, whatever is staked, unstaked or slashed. */
  lemma {:induction false} WeightsBetweenBoundaries(p: Params, s: State, blocks: seq<Block>)
    requires Execute(p, s, blocks).Some?
    requires forall i :: 0 <= i < |blocks| ==> !EpochBoundary(p, blocks[i].header.height)
    ensures SameWeights(s.validators, Execute(p, s, blocks).value.validators)
  {
    ExecuteUnfold(p, s, blocks);
    if blocks != [] {
      var n := |blocks| - 1;
      WeightsBetweenBoundaries(p, s, blocks[..n]);
      EpochStep(p, Execute(p, s, blocks[..n]).value, blocks[n]);
    }
  }

  // ---------- Slashes ----------

  /** The offences punished by a list of evidence, in order. */
  ghost function Punished(p: Params, s: State, evs: seq<Evidence>): seq<SlashKey> {
    if evs == [] then [] else
      var n := |evs| - 1;
      Punished(p, s, evs[..n])
      + if Slashable(p, ApplyEvidences(p, s, evs[..n]), evs[n])
        then [SlashKey(evs[n].voteA.voter, evs[n].voteA.height)] else []
  }

  /** The offences punished in a run, in order. */
  ghost function RunPunished(p: Params, s: State, blocks: seq<Block>): seq<SlashKey> {
    if blocks == [] then [] else
      var n := |blocks| - 1;
      match Execute(p, s, blocks[..n])
      case None => []
      case Some(m) =>
        RunPunished(p, s, blocks[..n]) + Punished(p, Release(m, blocks[n].header.height), blocks[n].evidence)
  }

  ghost predicate NoRepeats(keys: seq<SlashKey>) {
    forall i, j :: 0 <= i < j < |keys| ==> keys[i] != keys[j]
  }

  /** The record holds what was there before and exactly the punished offences, each of which is new. */
  ghost predicate Recorded(before: set<SlashKey>, keys: seq<SlashKey>, after: set<SlashKey>) {
    && NoRepeats(keys)
    && (forall i :: 0 <= i < |keys| ==> keys[i] !in before && keys[i] in after)
    && (forall k :: k in after <==> k in before || k in keys)
  }

  lemma RecordedThen(a: set<SlashKey>, k1: seq<SlashKey>, b: set<SlashKey>, k2: seq<SlashKey>, c: set<SlashKey>)
    requires Recorded(a, k1, b) && Recorded(b, k2, c)
    ensures Recorded(a, k1 + k2, c)
  {
    var keys := k1 + k2;
    forall i, j | 0 <= i < j < |keys|
      ensures keys[i] != keys[j]
    {
      if i < |k1| <= j {
        assert keys[i] in b && keys[j] == k2[j - |k1|];
      }
    }
    forall i | 0 <= i < |keys|
      ensures keys[i] !in a && keys[i] in c
    {
      assert i >= |k1| ==> keys[i] == k2[i - |k1|];
    }
    forall k
      ensures k in c <==> k in a || k in keys
    {
      assert k in keys <==> k in k1 || k in k2;
    }
  }

  lemma {:induction false} EvidenceRecorded(p: Params, s: State, evs: seq<Evidence>)
    ensures Recorded(s.slashed, Punished(p, s, evs), ApplyEvidences(p, s, evs).slashed)
  {
    if evs != [] {
      var n := |evs| - 1;
      EvidenceRecorded(p, s, evs[..n]);
      var m := ApplyEvidences(p, s, evs[..n]);
      var key := SlashKey(evs[n].voteA.voter, evs[n].voteA.height);
      if Slashable(p, m, evs[n]) {
        assert Recorded(m.slashed, [key], m.slashed + {key});
        RecordedThen(s.slashed, Punished(p, s, evs[..n]), m.slashed, [key], m.slashed + {key});
      } else {
        assert Punished(p, s, evs) == Punished(p, s, evs[..n]);
      }
    }
  }

  lemma {:induction false} TxsKeepRecord(p: Params, s: State, txs: seq<Tx>, h: Uint64, t: Int64)
    requires ApplyTxs(p, s, txs, h, t).Some?
    ensures ApplyTxs(p, s, txs, h, t).value.slashed == s.slashed
  {
    TxsUnfold(p, s, txs, h, t);
    if txs != [] {
      LastTx(p, s, txs, h, t);
      TxsKeepRecord(p, s, txs[..|txs| - 1], h, t);
    }
  }

  lemma BlockRecorded(p: Params, s: State, b: Block)
    requires ApplyBlock(p, s, b).Some?
    ensures Recorded(s.slashed, Punished(p, Release(s, b.header.height), b.evidence), ApplyBlock(p, s, b).value.slashed)
  {
    EvidenceRecorded(p, Release(s, b.header.height), b.evidence);
    TxsKeepRecord(p, BeginBlock(p, s, b), b.txs, b.header.height, b.header.timestamp);
  }

  /** No (voter, height) pair is slashed twice in any run. */
  lemma {:induction false} SlashedOnce(p: Params, s: State, blocks: seq<Block>)
    requires Execute(p, s, blocks).Some?
    ensures Recorded(s.slashed, RunPunished(p, s, blocks), Execute(p, s, blocks).value.slashed)
  {
    ExecuteUnfold(p, s, blocks);
    if blocks != [] {
      var n := |blocks| - 1;
      SlashedOnce(p, s, blocks[..n]);
      var m := Execute(p, s, blocks[..n]).value;
      BlockRecorded(p, m, blocks[n]);
      RecordedThen(s.slashed, RunPunished(p, s, blocks[..n]), m.slashed,
                   Punished(p, Release(m, blocks[n].header.height), blocks[n].evidence),
                   Execute(p, s, blocks).value.slashed);
    }
  }
}
