/** The hashes of transactions and headers, and what equal hashes say. */
module Hashes {
  import opened Words
  import opened Types
  import opened Encoding

  // ---------- Transactions ----------

  /** Everything a transaction's signature covers. */
  function TxFields(tx: Tx): seq<Field> {
    [U32(tx.kind), AddressField(tx.sender), AddressField(tx.recipient), WordField(tx.postId), Blob(tx.text),
     Blob(tx.channel), U64(tx.amount), U64(tx.nonce), WordField(tx.pubKey)]
  }

  function SignableBytes(tx: Tx): Bytes {
    Stream(TxFields(tx))
  }

  /** A transaction whose byte strings have lengths that fit a word, as every slice of the program does. */
  predicate TxFits(tx: Tx) {
    AllFit(TxFields(tx)) && AllFit(TxHashFields(tx))
  }

  function TxHashFields(tx: Tx): seq<Field> {
    [Blob(SignableBytes(tx)), Blob(tx.signature)]
  }

  function TxHash(p: Params, tx: Tx): Digest {
    p.sha256(Stream(TxHashFields(tx)))
  }

  method Signable(tx: Tx) returns (b: Bytes)
    ensures b == SignableBytes(tx)
  {
    var hw := new HashWriter();
    hw.WriteUint32(tx.kind);
    hw.WriteAddress(tx.sender);
    hw.WriteAddress(tx.recipient);
    hw.WriteWord(tx.postId);
    WriteBody(hw, tx);
    assert hw.log == TxFields(tx);
    return hw.buf;
  }

  /** The part of a transaction after its parties and target. */
  method WriteBody(hw: HashWriter, tx: Tx)
    requires hw.Valid()
    modifies hw
    ensures hw.Valid()
    ensures hw.log == old(hw.log)
                      + [Blob(tx.text), Blob(tx.channel), U64(tx.amount), U64(tx.nonce), WordField(tx.pubKey)]
  {
    hw.WriteBytes(tx.text);
    hw.WriteBytes(tx.channel);
    hw.WriteUint64(tx.amount);
    hw.WriteUint64(tx.nonce);
    hw.WriteWord(tx.pubKey);
  }

  method HashTx(p: Params, tx: Tx) returns (hash: Digest)
    ensures hash == TxHash(p, tx)
  {
    var signable := Signable(tx);
    var hw := new HashWriter();
    hw.WriteBytes(signable);
    hw.WriteBytes(tx.signature);
    assert hw.log == TxHashFields(tx);
    return p.sha256(hw.buf);
  }

  /** The signed message determines every field except the signature. */
  lemma SignableInjective(t: Tx, u: Tx)
    requires AllFit(TxFields(t)) && AllFit(TxFields(u)) && SignableBytes(t) == SignableBytes(u)
    ensures t == u.(signature := t.signature)
  {
    var f, g := TxFields(t), TxFields(u);
    StreamInjective(f, g);
    assert f[0] == g[0] && f[1] == g[1] && f[2] == g[2] && f[3] == g[3] && f[4] == g[4];
    assert f[5] == g[5] && f[6] == g[6] && f[7] == g[7] && f[8] == g[8];
    AddressFieldInjective(t.sender, u.sender);
    AddressFieldInjective(t.recipient, u.recipient);
    WordFieldInjective(t.postId, u.postId);
    WordFieldInjective(t.pubKey, u.pubKey);
  }

  /** The hashed message determines the transaction, signature included. */
  lemma TxHashInjective(t: Tx, u: Tx)
    requires TxFits(t) && TxFits(u) && Stream(TxHashFields(t)) == Stream(TxHashFields(u))
    ensures t == u
  {
    var f, g := TxHashFields(t), TxHashFields(u);
    StreamInjective(f, g);
    assert f[0] == g[0] && f[1] == g[1];
    SignableInjective(t, u);
  }

  // ---------- The transaction root ----------

  function Digests(p: Params, txs: seq<Tx>): seq<Digest> {
    seq(|txs|, i requires 0 <= i < |txs| => TxHash(p, txs[i]))
  }

  function DigestRecord(d: Digest): seq<Field> {
    [WordField(d)]
  }

  function TxRootFields(p: Params, txs: seq<Tx>): seq<Field> {
    Section(Digests(p, txs), DigestRecord)
  }

  function TxRoot(p: Params, txs: seq<Tx>): Digest {
    p.sha256(Stream(TxRootFields(p, txs)))
  }

  method ComputeTxRoot(p: Params, txs: seq<Tx>) returns (root: Digest)
    ensures root == TxRoot(p, txs)
  {
    var hw := new HashWriter();
    hw.WriteUint64(Wrap(|txs|));
    ghost var all := Digests(p, txs);
    for i := 0 to |txs|
      invariant hw.Valid() && hw.log == [U64(Wrap(|txs|))] + Flat(all[..i], DigestRecord)
    {
      var hash := HashTx(p, txs[i]);
      hw.WriteWord(hash);
      FlatStep(all, DigestRecord, i);
    }
    assert all[..|txs|] == all;
    return p.sha256(hw.buf);
  }

  predicate AnyDigest(d: Digest) { true }

  lemma DigestsLegible()
    ensures Legible(DigestRecord, AnyDigest)
  {
    forall x: Digest, y: Digest
      ensures AllFit(DigestRecord(x)) && SameShape(DigestRecord(x), DigestRecord(y))
      ensures DigestRecord(x) == DigestRecord(y) ==> x == y
    {
      if DigestRecord(x) == DigestRecord(y) {
        assert DigestRecord(x)[0] == DigestRecord(y)[0];
        WordFieldInjective(x, y);
      }
    }
  }

  /** The byte strings that computing a transaction root hashes. */
  ghost function TxInputs(p: Params, txs: seq<Tx>): set<Bytes> {
    {Stream(TxRootFields(p, txs))} + set i | 0 <= i < |txs| :: Stream(TxHashFields(txs[i]))
  }

  ghost predicate NoCollision(p: Params, inputs: set<Bytes>) {
    forall x, y :: x in inputs && y in inputs && p.sha256(x) == p.sha256(y) ==> x == y
  }

  ghost predicate TxsFit(txs: seq<Tx>) {
    |txs| < TWO64 && forall i :: 0 <= i < |txs| ==> TxFits(txs[i])
  }

  /** Equal transaction roots mean equal transaction lists, in order. */
  lemma TxRootInjective(p: Params, txs: seq<Tx>, other: seq<Tx>)
    requires NoCollision(p, TxInputs(p, txs) + TxInputs(p, other)) && TxsFit(txs) && TxsFit(other)
    requires TxRoot(p, txs) == TxRoot(p, other)
    ensures txs == other
  {
    DigestsLegible();
    var ds, es := Digests(p, txs), Digests(p, other);
    assert Stream(TxRootFields(p, txs)) in TxInputs(p, txs) && Stream(TxRootFields(p, other)) in TxInputs(p, other);
    SectionPrefix(ds, es, DigestRecord, AnyDigest, [], []);
    forall i | 0 <= i < |txs|
      ensures txs[i] == other[i]
    {
      assert ds[i] == es[i];
      assert Stream(TxHashFields(txs[i])) in TxInputs(p, txs) && Stream(TxHashFields(other[i])) in TxInputs(p, other);
      TxHashInjective(txs[i], other[i]);
    }
  }

  // ---------- Headers and votes ----------

  function HeaderFields(h: Header): seq<Field> {
    [U64(h.height), WordField(h.prevHash), AddressField(h.proposer), SignedField(h.timestamp),
     WordField(h.stateRoot), WordField(h.txRoot)]
  }

  function HeaderHash(p: Params, h: Header): Digest {
    p.sha256(Stream(HeaderFields(h)))
  }

  method HashHeader(p: Params, h: Header) returns (hash: Digest)
    ensures hash == HeaderHash(p, h)
  {
    var hw := new HashWriter();
    hw.WriteUint64(h.height);
    hw.WriteWord(h.prevHash);
    hw.WriteAddress(h.proposer);
    hw.WriteInt64(h.timestamp);
    hw.WriteWord(h.stateRoot);
    hw.WriteWord(h.txRoot);
    assert hw.log == HeaderFields(h);
    return p.sha256(hw.buf);
  }

  /** The hashed message determines the header. */
  lemma HeaderInjective(h: Header, k: Header)
    requires Stream(HeaderFields(h)) == Stream(HeaderFields(k))
    ensures h == k
  {
    var f, g := HeaderFields(h), HeaderFields(k);
    StreamInjective(f, g);
    assert f[0] == g[0] && f[1] == g[1] && f[2] == g[2] && f[3] == g[3] && f[4] == g[4] && f[5] == g[5];
    WordFieldInjective(h.prevHash, k.prevHash);
    AddressFieldInjective(h.proposer, k.proposer);
    WordFieldInjective(h.stateRoot, k.stateRoot);
    WordFieldInjective(h.txRoot, k.txRoot);
  }

  /** What a vote's signature covers: height and block hash, nothing about the voter. */
  function VoteFields(v: Vote): seq<Field> {
    [U64(v.height), WordField(v.blockHash)]
  }

  method VoteBytes(v: Vote) returns (b: Bytes)
    ensures b == Stream(VoteFields(v))
  {
    var hw := new HashWriter();
    hw.WriteUint64(v.height);
    hw.WriteWord(v.blockHash);
    assert hw.log == VoteFields(v);
    return hw.buf;
  }

  /** Two votes sign the same message exactly when they are for the same height and block. */
  lemma VoteBytesExact(v: Vote, w: Vote)
    ensures Stream(VoteFields(v)) == Stream(VoteFields(w)) <==> v.height == w.height && v.blockHash == w.blockHash
  {
    var f, g := VoteFields(v), VoteFields(w);
    if Stream(f) == Stream(g) {
      StreamInjective(f, g);
      assert f[0] == g[0] && f[1] == g[1];
      WordFieldInjective(v.blockHash, w.blockHash);
    }
  }
}
