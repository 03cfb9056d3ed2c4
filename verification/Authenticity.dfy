/** Nothing happens to an account without a signature: every executed transaction is its sender's own, and every
    punished offence is proved by two votes that the offender signed. */
module Authenticity {
  import opened Words
  import opened Types
  import opened Ledger
  import opened Runs
  import opened History
  import opened AccountHistory

  // ---------- Transactions ----------

  /** The owner of the sending account has signed. */
  predicate Owned(p: Params, tx: Tx) { p.txSigned(tx) && p.addressOf(tx.pubKey) == tx.sender }

  /** What a transaction of each kind must look like, whatever the state. */
  predicate WellFormed(p: Params, tx: Tx) {
    && TX_TRANSFER <= tx.kind <= TX_UNSTAKE_POST
    && (tx.kind == TX_TRANSFER ==> tx.amount >= 1 && tx.recipient != tx.sender && tx.recipient != NO_ADDRESS)
    && (tx.kind == TX_CREATE_POST ==>
          tx.amount >= p.minPostCommitment && p.validText(tx.text) && (tx.channel == [] || ValidName(tx.channel)))
    && (tx.kind == TX_BOOST_POST ==> tx.amount >= p.minBoostCommitment)
    && (tx.kind == TX_REGISTER_NAME ==> tx.amount == 0 && ValidName(tx.text))
    && (tx.kind == TX_STAKE || tx.kind == TX_UNSTAKE ==> tx.amount >= 1)
  }

  lemma {:induction false} TxsOwned(p: Params, s: State, txs: seq<Tx>, h: Uint64, t: Int64)
    requires ApplyTxs(p, s, txs, h, t).Some?
    ensures forall i :: 0 <= i < |txs| ==> Owned(p, txs[i]) && WellFormed(p, txs[i])
  {
    if txs != [] {
      var n := |txs| - 1;
      LastTx(p, s, txs, h, t);
      TxsOwned(p, s, txs[..n], h, t);
      assert forall i :: 0 <= i < n ==> txs[i] == txs[..n][i];
    }
  }

  /** Every transaction that any run executes is signed by the owner of the sending account, and well formed. */
  lemma {:induction false} RunOwned(p: Params, s: State, blocks: seq<Block>, i: nat, j: nat)
    requires Execute(p, s, blocks).Some? && i < |blocks| && j < |blocks[i].txs|
    ensures p.txSigned(blocks[i].txs[j]) && p.addressOf(blocks[i].txs[j].pubKey) == blocks[i].txs[j].sender
    ensures WellFormed(p, blocks[i].txs[j])
    decreases |blocks|
  {
    var n := |blocks| - 1;
    LastBlock(p, s, blocks);
    if i < n {
      RunOwned(p, s, blocks[..n], i, j);
    } else {
      var b := blocks[n];
      TxsOwned(p, BeginBlock(p, Execute(p, s, blocks[..n]).value, b), b.txs, b.header.height, b.header.timestamp);
    }
  }

  // ---------- Convictions ----------

  /** Some evidence in the block proves the offence. */
  ghost predicate Proves(p: Params, b: Block, k: SlashKey) {
    exists j :: 0 <= j < |b.evidence| && DoubleSigned(p, b.evidence[j], k.address, k.height)
  }

  lemma {:induction false} EvidencesProve(p: Params, s: State, evs: seq<Evidence>, k: SlashKey) returns (j: nat)
    requires k in ApplyEvidences(p, s, evs).slashed && k !in s.slashed
    ensures j < |evs| && DoubleSigned(p, evs[j], k.address, k.height)
  {
    var n := |evs| - 1;
    var m := ApplyEvidences(p, s, evs[..n]);
    if k in m.slashed {
      j := EvidencesProve(p, s, evs[..n], k);
    } else {
      j := n;
      ConvictsExactly(p, m, evs[n], evs[n].voteA.voter);
    }
  }

  lemma RecordKept(p: Params, s: State, b: Block)
    requires ApplyBlock(p, s, b).Some?
    ensures ApplyBlock(p, s, b).value.slashed == ApplyEvidences(p, Release(s, b.header.height), b.evidence).slashed
  {
    TxsKeepRecord(p, BeginBlock(p, s, b), b.txs, b.header.height, b.header.timestamp);
  }

  /** Nobody is punished without proof: whoever is on record after a run was so before, or has signed two different
      blocks at one height and a block of the run carries both votes. */
  lemma {:induction false} RunProven(p: Params, s: State, blocks: seq<Block>, k: SlashKey) returns (i: nat)
    requires Execute(p, s, blocks).Some? && k in Execute(p, s, blocks).value.slashed && k !in s.slashed
    ensures i < |blocks| && Proves(p, blocks[i], k)
  {
    ExecuteUnfold(p, s, blocks);
    var n := |blocks| - 1;
    LastBlock(p, s, blocks);
    var m := Execute(p, s, blocks[..n]).value;
    if k in m.slashed {
      i := RunProven(p, s, blocks[..n], k);
    } else {
      i := n;
      RecordKept(p, m, blocks[n]);
      var j := EvidencesProve(p, Release(m, blocks[n].header.height), blocks[n].evidence, k);
      assert DoubleSigned(p, blocks[n].evidence[j], k.address, k.height);
    }
  }
}
