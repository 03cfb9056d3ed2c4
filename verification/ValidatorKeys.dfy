/** The public keys of the active validators: who sets them, and what an epoch change does to them. */
module ValidatorKeys {
  import opened Words
  import opened Types
  import opened Ledger
  import opened ValidatorSort
  import opened Runs
  import opened History
  import opened Authenticity

  predicate Active(vs: seq<Validator>, a: Address) {
    exists i :: 0 <= i < |vs| && vs[i].address == a
  }

  predicate HasKey(vs: seq<Validator>, a: Address, k: PublicKey) {
    exists i :: 0 <= i < |vs| && vs[i].address == a && vs[i].pubKey == k
  }

  /** The key of a validator after some transactions: that of its last stake transaction, if it sent one. */
  function NextKey(k: PublicKey, txs: seq<Tx>, a: Address): PublicKey {
    if txs == [] then k else
      var last := txs[|txs| - 1];
      if last.kind == TX_STAKE && last.sender == a then last.pubKey else NextKey(k, txs[..|txs| - 1], a)
  }

  lemma {:induction false} WithKeySets(vs: seq<Validator>, a: Address, key: PublicKey, i: nat)
    requires i < |vs| && DistinctAddresses(vs)
    ensures WithKey(vs, a, key)[i] == if vs[i].address == a then vs[i].(pubKey := key) else vs[i]
  {
    if i > 0 {
      if vs[0].address == a {
        assert WithKey(vs, a, key)[i] == vs[i] && vs[i].address != vs[0].address;
      } else {
        DistinctTail(vs);
        WithKeySets(vs[1..], a, key, i - 1);
        assert vs[i] == vs[1..][i - 1] && WithKey(vs, a, key)[i] == WithKey(vs[1..], a, key)[i - 1];
      }
    }
  }

  lemma DistinctTail(vs: seq<Validator>)
    requires vs != [] && DistinctAddresses(vs)
    ensures DistinctAddresses(vs[1..])
  {}

  lemma TxKey(p: Params, s: State, tx: Tx, h: Uint64, t: Int64, a: Address, k: PublicKey)
    requires ApplyTx(p, s, tx, h, t).Some? && DistinctAddresses(s.validators) && HasKey(s.validators, a, k)
    ensures DistinctAddresses(ApplyTx(p, s, tx, h, t).value.validators)
    ensures HasKey(ApplyTx(p, s, tx, h, t).value.validators, a,
                   if tx.kind == TX_STAKE && tx.sender == a then tx.pubKey else k)
  {
    TxKeepsWeights(p, s, tx, h, t);
    if tx.kind == TX_STAKE {
      var i :| 0 <= i < |s.validators| && s.validators[i].address == a && s.validators[i].pubKey == k;
      WithKeySets(s.validators, tx.sender, tx.pubKey, i);
      assert WithKey(s.validators, tx.sender, tx.pubKey)[i].address == a;
    }
  }

  lemma {:induction false} TxsKey(p: Params, s: State, txs: seq<Tx>, h: Uint64, t: Int64, a: Address, k: PublicKey)
    requires ApplyTxs(p, s, txs, h, t).Some? && DistinctAddresses(s.validators) && HasKey(s.validators, a, k)
    ensures DistinctAddresses(ApplyTxs(p, s, txs, h, t).value.validators)
    ensures HasKey(ApplyTxs(p, s, txs, h, t).value.validators, a, NextKey(k, txs, a))
  {
    if txs == [] {
      TxsUnfold(p, s, txs, h, t);
    } else {
      var init, last := txs[..|txs| - 1], txs[|txs| - 1];
      LastTx(p, s, txs, h, t);
      TxsKey(p, s, init, h, t, a, k);
      TxKey(p, ApplyTxs(p, s, init, h, t).value, last, h, t, a, NextKey(k, init, a));
    }
  }

  lemma {:induction false} KeyForFinds(vs: seq<Validator>, a: Address)
    ensures Active(vs, a) ==> HasKey(vs, a, KeyFor(vs, a))
    ensures !Active(vs, a) ==> KeyFor(vs, a) == NO_KEY
  {
    if vs != [] && vs[0].address != a {
      KeyForFinds(vs[1..], a);
      forall i | 0 <= i < |vs| && vs[i].address == a
        ensures vs[1..][i - 1] == vs[i] && Active(vs[1..], a)
      {}
      if Active(vs[1..], a) {
        var i :| 0 <= i < |vs[1..]| && vs[1..][i].address == a && vs[1..][i].pubKey == KeyFor(vs[1..], a);
        assert vs[i + 1] == vs[1..][i];
      }
    } else if vs != [] {
      assert vs[0].address == a;
    }
  }

  lemma OneKey(vs: seq<Validator>, a: Address, k: PublicKey, l: PublicKey)
    requires DistinctAddresses(vs) && HasKey(vs, a, k) && HasKey(vs, a, l)
    ensures k == l
  {
    var i :| 0 <= i < |vs| && vs[i].address == a && vs[i].pubKey == k;
    var j :| 0 <= j < |vs| && vs[j].address == a && vs[j].pubKey == l;
    assert i == j;
  }

  /** An epoch change gives a validator that was active its key, and a newcomer none. */
  lemma RotatedKey(s: State, minStake: int, a: Address)
    requires DistinctAddresses(s.validators) && Active(ActiveSet(s, minStake), a)
    ensures forall k :: HasKey(s.validators, a, k) ==> HasKey(ActiveSet(s, minStake), a, k)
    ensures !Active(s.validators, a) ==> HasKey(ActiveSet(s, minStake), a, NO_KEY)
  {
    var vs := ActiveSet(s, minStake);
    var i :| 0 <= i < |vs| && vs[i].address == a;
    ActiveMember(s, minStake, i);
    assert vs[i].pubKey == KeyFor(s.validators, a);
    KeyForFinds(s.validators, a);
    forall k | HasKey(s.validators, a, k)
      ensures HasKey(vs, a, k)
    {
      var j :| 0 <= j < |s.validators| && s.validators[j].address == a && s.validators[j].pubKey == k;
      assert Active(s.validators, a);
      OneKey(s.validators, a, k, KeyFor(s.validators, a));
    }
  }

  /** Over one block a validator that stays active has the key of its last stake transaction in the block or else the
      one it had; one that becomes active has none. */
  lemma BlockKey(p: Params, s: State, b: Block, a: Address)
    requires ApplyBlock(p, s, b).Some? && DistinctAddresses(s.validators)
    requires Active(ApplyBlock(p, s, b).value.validators, a)
    ensures var after := ApplyBlock(p, s, b).value.validators;
            && DistinctAddresses(after)
            && (forall k :: HasKey(s.validators, a, k) ==> HasKey(after, a, NextKey(k, b.txs, a)))
            && (!Active(s.validators, a) ==> HasKey(after, a, NO_KEY))
  {
    var h, t := b.header.height, b.header.timestamp;
    EpochStep(p, s, b);
    EvidenceKeepsValidators(p, Release(s, h), b.evidence);
    var m := BeginBlock(p, s, b);
    var n := ApplyTxs(p, m, b.txs, h, t).value;
    TxsKeepWeights(p, m, b.txs, h, t);
    BlockKeyRotated(p, s, b, n, a);
    forall k | HasKey(s.validators, a, k)
      ensures HasKey(ApplyBlock(p, s, b).value.validators, a, NextKey(k, b.txs, a))
    {
      TxsKey(p, m, b.txs, h, t, a, k);
    }
  }

  lemma SameActive(before: seq<Validator>, after: seq<Validator>, a: Address)
    requires SameWeights(before, after)
    ensures Active(before, a) <==> Active(after, a)
    ensures DistinctAddresses(before) ==> DistinctAddresses(after)
  {
    forall i | 0 <= i < |before|
      ensures before[i].address == after[i].address
    {}
  }

  lemma BlockKeyRotated(p: Params, s: State, b: Block, n: State, a: Address)
    requires ApplyTxs(p, BeginBlock(p, s, b), b.txs, b.header.height, b.header.timestamp) == Some(n)
    requires DistinctAddresses(s.validators) && SameWeights(s.validators, n.validators)
    requires Active(EndBlock(p, n, b.header).validators, a)
    ensures var after := EndBlock(p, n, b.header).validators;
            && DistinctAddresses(after)
            && (forall k :: HasKey(n.validators, a, k) ==> HasKey(after, a, k))
            && (!Active(s.validators, a) ==> HasKey(after, a, NO_KEY))
  {
    SameActive(s.validators, n.validators, a);
    if EpochBoundary(p, b.header.height) {
      var paid := Reward(p, n, b.header.proposer);
      RotatedKey(paid, p.minStake, a);
      ActiveSetFacts(paid, EndBlock(p, n, b.header), p.minStake);
    }
  }

  lemma {:induction false} NextKeyOwn(p: Params, k: PublicKey, txs: seq<Tx>, a: Address)
    requires forall i :: 0 <= i < |txs| ==> Owned(p, txs[i])
    ensures NextKey(k, txs, a) == k || p.addressOf(NextKey(k, txs, a)) == a
  {
    if txs != [] {
      assert forall i :: 0 <= i < |txs| - 1 ==> txs[..|txs| - 1][i] == txs[i];
      NextKeyOwn(p, k, txs[..|txs| - 1], a);
    }
  }

  lemma {:induction false} RunDistinct(p: Params, s: State, blocks: seq<Block>)
    requires Execute(p, s, blocks).Some? && DistinctAddresses(s.validators)
    ensures DistinctAddresses(Execute(p, s, blocks).value.validators)
  {
    ExecuteUnfold(p, s, blocks);
    if blocks != [] {
      var n := |blocks| - 1;
      RunDistinct(p, s, blocks[..n]);
      var m := Execute(p, s, blocks[..n]).value;
      EpochStep(p, m, blocks[n]);
      if !EpochBoundary(p, blocks[n].header.height) {
        SameActive(m.validators, Execute(p, s, blocks).value.validators, NO_ADDRESS);
      }
    }
  }

  /** The keys of active validators are their own: in any run each is the one the set started with, or hashes to the
      validator's address, or is none. */
  lemma {:induction false} KeysAreOwn(p: Params, s: State, blocks: seq<Block>, a: Address, k: PublicKey)
    requires Execute(p, s, blocks).Some? && DistinctAddresses(s.validators)
    requires HasKey(Execute(p, s, blocks).value.validators, a, k)
    ensures HasKey(s.validators, a, k) || p.addressOf(k) == a || k == NO_KEY
  {
    ExecuteUnfold(p, s, blocks);
    if blocks != [] {
      var n := |blocks| - 1;
      LastBlock(p, s, blocks);
      RunDistinct(p, s, blocks[..n]);
      var m := Execute(p, s, blocks[..n]).value;
      var before := BlockKeyOrigin(p, m, blocks[n], a, k);
      if HasKey(m.validators, a, before) {
        KeysAreOwn(p, s, blocks[..n], a, before);
      }
    }
  }

  lemma BlockKeyOrigin(p: Params, s: State, b: Block, a: Address, k: PublicKey) returns (before: PublicKey)
    requires ApplyBlock(p, s, b).Some? && DistinctAddresses(s.validators)
    requires HasKey(ApplyBlock(p, s, b).value.validators, a, k)
    ensures (k == before && HasKey(s.validators, a, before)) || p.addressOf(k) == a || k == NO_KEY
  {
    var after := ApplyBlock(p, s, b).value.validators;
    assert Active(after, a);
    BlockKey(p, s, b, a);
    before := NO_KEY;
    if Active(s.validators, a) {
      var i :| 0 <= i < |s.validators| && s.validators[i].address == a;
      before := s.validators[i].pubKey;
      assert HasKey(s.validators, a, before);
      OneKey(after, a, k, NextKey(before, b.txs, a));
      TxsOwned(p, BeginBlock(p, s, b), b.txs, b.header.height, b.header.timestamp);
      NextKeyOwn(p, before, b.txs, a);
    } else {
      OneKey(after, a, k, NO_KEY);
    }
  }
}
