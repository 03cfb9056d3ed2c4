/** Where each value stands in the bytes that are hashed, signed and stored. */
module WireFormats {
  import opened Words
  import opened Types
  import opened Ledger
  import opened BigEndians
  import opened Encoding
  import opened Hashes
  import opened KVCodec

  lemma OneMoreField(fs: seq<Field>, n: nat)
    requires n < |fs|
    ensures Stream(fs[..n + 1]) == Stream(fs[..n]) + Render(fs[n])
  {
    StreamLast(fs[..n], fs[n]);
    assert fs[..n + 1] == fs[..n] + [fs[n]];
  }

  /** A 32-byte value behind its length. */
  function Sized32(w: Word256): Bytes { BigEndian(8, 32) + BigEndian(32, w) }

  /** A hashed header is 168 bytes: height, parent, proposer, time, state root and transaction root, in this order,
      every hash and the proposer behind their eight-byte lengths. */
  lemma HeaderWire(h: Header)
    ensures Stream(HeaderFields(h))
            == BigEndian(8, h.height) + Sized32(h.prevHash) + (BigEndian(8, 24) + BigEndian(24, h.proposer))
               + BigEndian(8, Wrap(h.timestamp)) + Sized32(h.stateRoot) + Sized32(h.txRoot)
    ensures |Stream(HeaderFields(h))| == 168
  {
    var fs := HeaderFields(h);
    StreamNone();
    OneMoreField(fs, 0);
    OneMoreField(fs, 1);
    OneMoreField(fs, 2);
    OneMoreField(fs, 3);
    OneMoreField(fs, 4);
    OneMoreField(fs, 5);
    assert fs[..0] == [] && fs[..6] == fs;
    assert [] + Render(fs[0]) == Render(fs[0]);
  }

  /** What a vote signs is 48 bytes: the height, and the block hash behind its length. */
  lemma VoteWire(v: Vote)
    ensures Stream(VoteFields(v)) == BigEndian(8, v.height) + Sized32(v.blockHash)
    ensures |Stream(VoteFields(v))| == 48
  {
    var fs := VoteFields(v);
    StreamNone();
    OneMoreField(fs, 0);
    OneMoreField(fs, 1);
    assert fs[..0] == [] && fs[..2] == fs;
    assert [] + Render(fs[0]) == Render(fs[0]);
  }

  /** A stored account: address, balance, nonce, stake, post stake, and the name behind its four-byte length. */
  lemma AccountLayout(a: Address, x: Account)
    ensures var b := AccountBytes(a, x);
            && |b| == 60 + |x.name|
            && b[..24] == BigEndian(24, a) && b[24..32] == BigEndian(8, Wrap(x.balance))
            && b[32..40] == BigEndian(8, Wrap(x.nonce)) && b[40..48] == BigEndian(8, Wrap(x.staked))
            && b[48..56] == BigEndian(8, Wrap(x.postStake))
            && b[56..60] == BigEndian(4, |x.name| % TWO32) && b[60..] == x.name
  {
    var b := AccountBytes(a, x);
    assert b[24..] == BalanceOnwards(x);
    assert b[32..] == NonceOnwards(x);
    assert b[40..] == StakedOnwards(x);
    assert b[48..] == PostStakeOnwards(x);
    assert b[56..] == NameBytes(x.name);
  }

  /** A stored position: post, staker, amount and the height it was opened at. */
  lemma PositionLayout(k: StakeKey, x: Position)
    ensures var b := PositionBytes(k, x);
            && |b| == 72 && b[..32] == BigEndian(32, k.post) && b[32..56] == BigEndian(24, k.staker)
            && b[56..64] == BigEndian(8, Wrap(x.amount)) && b[64..] == BigEndian(8, x.height)
  {
    assert PositionBytes(k, x)[56..] == PositionTail(x);
  }
}
