/** The binary layouts of stored records: fixed offsets, length-prefixed strings, optional tails. */
module KVCodec {
  import opened Words
  import opened Types
  import opened BigEndians
  import opened Encoding

  // ---------- Writing at a moving offset ----------

  /** Copies a field into the buffer. With rest still to come, what is written and what is planned stay the same
      byte string. */
  method Put(buf: array<Byte>, off: nat, field: Bytes, ghost rest: Bytes) returns (next: nat)
    requires off + |field| <= buf.Length
    modifies buf
    ensures next == off + |field|
    ensures buf[..next] + rest == old(buf[..off]) + (field + rest)
  {
    for i := 0 to |field|
      invariant buf[..off] == old(buf[..off])
      invariant buf[off..off + i] == field[..i]
    {
      buf[off + i] := field[i];
    }
    next := off + |field|;
    assert buf[..next] == buf[..off] + buf[off..next];
    assert field[..|field|] == field;
    Assoc(buf[..off], field, rest);
  }

  // ---------- Reading at a moving offset ----------

  /** Stepping over a field: it is there, and what follows it is the rest. */
  lemma Advance(b: Bytes, off: nat, field: Bytes, rest: Bytes)
    requires off <= |b| && b[off..] == field + rest
    ensures off + |field| <= |b| && b[off..off + |field|] == field && b[off + |field|..] == rest
  {
    assert |b[off..]| == |field| + |rest|;
    assert b[off..off + |field|] == b[off..][..|field|];
    assert b[off + |field|..] == b[off..][|field|..];
  }

  function WordAt(b: Bytes, off: nat): Uint64
    requires off + 8 <= |b|
  {
    Pow256Literals();
    FromBigEndian(b[off..off + 8])
  }

  function HalfAt(b: Bytes, off: nat): (v: nat)
    requires off + 4 <= |b|
    ensures v < TWO32
  {
    Pow256Literals();
    FromBigEndian(b[off..off + 4])
  }

  function AddressAt(b: Bytes, off: nat): Address
    requires off + 24 <= |b|
  {
    Pow256Literals();
    FromBigEndian(b[off..off + 24])
  }

  function Word256At(b: Bytes, off: nat): Word256
    requires off + 32 <= |b|
  {
    Pow256Literals();
    FromBigEndian(b[off..off + 32])
  }

  lemma ReadWord(b: Bytes, off: nat, v: Uint64, rest: Bytes)
    requires off <= |b| && b[off..] == BigEndian(8, v) + rest
    ensures off + 8 <= |b| && WordAt(b, off) == v && b[off + 8..] == rest
  {
    Advance(b, off, BigEndian(8, v), rest);
    Pow256Literals();
    BigEndianRoundTrip(8, v);
  }

  lemma ReadHalf(b: Bytes, off: nat, v: nat, rest: Bytes)
    requires v < TWO32 && off <= |b| && b[off..] == BigEndian(4, v) + rest
    ensures off + 4 <= |b| && HalfAt(b, off) == v && b[off + 4..] == rest
  {
    Advance(b, off, BigEndian(4, v), rest);
    Pow256Literals();
    BigEndianRoundTrip(4, v);
  }

  lemma ReadAddress(b: Bytes, off: nat, a: Address, rest: Bytes)
    requires off <= |b| && b[off..] == BigEndian(24, a) + rest
    ensures off + 24 <= |b| && AddressAt(b, off) == a && b[off + 24..] == rest
  {
    Advance(b, off, BigEndian(24, a), rest);
    Pow256Literals();
    BigEndianRoundTrip(24, a);
  }

  lemma ReadWord256(b: Bytes, off: nat, w: Word256, rest: Bytes)
    requires off <= |b| && b[off..] == BigEndian(32, w) + rest
    ensures off + 32 <= |b| && Word256At(b, off) == w && b[off + 32..] == rest
  {
    Advance(b, off, BigEndian(32, w), rest);
    Pow256Literals();
    BigEndianRoundTrip(32, w);
  }

  // ---------- Accounts ----------

  /** Go's conversion of a length to uint32. */
  function Half(n: nat): (h: nat)
    ensures h < TWO32 && (n < TWO32 ==> h == n)
  {
    n % TWO32
  }

  function NameBytes(name: Bytes): Bytes { BigEndian(4, Half(|name|)) + name }
  function PostStakeOnwards(acct: Account): Bytes { BigEndian(8, Wrap(acct.postStake)) + NameBytes(acct.name) }
  function StakedOnwards(acct: Account): Bytes { BigEndian(8, Wrap(acct.staked)) + PostStakeOnwards(acct) }
  function NonceOnwards(acct: Account): Bytes { BigEndian(8, Wrap(acct.nonce)) + StakedOnwards(acct) }
  function BalanceOnwards(acct: Account): Bytes { BigEndian(8, Wrap(acct.balance)) + NonceOnwards(acct) }

  /** The stored form of an account. */
  function AccountBytes(a: Address, acct: Account): Bytes {
    BigEndian(24, a) + BalanceOnwards(acct)
  }

  method EncodeAccount(a: Address, acct: Account) returns (out: Bytes)
    ensures out == AccountBytes(a, acct)
  {
    var buf := new Byte[24 + 8 + 8 + 8 + 8 + 4 + |acct.name|];
    var off := Put(buf, 0, BigEndian(24, a), BalanceOnwards(acct));
    off := Put(buf, off, BigEndian(8, Wrap(acct.balance)), NonceOnwards(acct));
    off := Put(buf, off, BigEndian(8, Wrap(acct.nonce)), StakedOnwards(acct));
    off := Put(buf, off, BigEndian(8, Wrap(acct.staked)), PostStakeOnwards(acct));
    off := Put(buf, off, BigEndian(8, Wrap(acct.postStake)), NameBytes(acct.name));
    off := Put(buf, off, BigEndian(4, Half(|acct.name|)), acct.name);
    assert acct.name + [] == acct.name;
    off := Put(buf, off, acct.name, []);
    out := buf[..off];
    assert out + [] == out;
  }

  datatype StoredAccount = StoredAccount(address: Address, account: Account)

  /** The name at the end of a record, when there is one: a name length alone does not count as one. */
  function NameAt(b: Bytes, off: nat): Bytes {
    if |b| > off + 4 then
      var n := HalfAt(b, off);
      if |b| >= off + 4 + n then b[off + 4..off + 4 + n] else []
    else []
  }

  /** Reads an account; shorter records of older formats leave the missing fields empty. */
  function DecodeAccount(b: Bytes): Option<StoredAccount> {
    if |b| < 40 then None else
      var base := Account(WordAt(b, 24), WordAt(b, 32), [], 0, 0);
      Some(StoredAccount(AddressAt(b, 0),
        if |b| <= 48 then base
        else if |b| <= 56 then base.(staked := WordAt(b, 40))
        else base.(staked := WordAt(b, 40), postStake := WordAt(b, 48), name := NameAt(b, 56))))
  }

  predicate AccountStorable(acct: Account) {
    && 0 <= acct.balance < TWO64 && 0 <= acct.nonce < TWO64 && 0 <= acct.staked < TWO64
    && 0 <= acct.postStake < TWO64 && |acct.name| < TWO32
  }

  lemma ReadName(b: Bytes, off: nat, name: Bytes)
    requires |name| < TWO32 && off <= |b| && b[off..] == NameBytes(name)
    ensures NameAt(b, off) == name && |b| == off + 4 + |name|
  {
    ReadHalf(b, off, |name|, name);
  }

  /** Account records round-trip, with or without a name. */
  lemma AccountRoundTrip(a: Address, acct: Account)
    requires AccountStorable(acct)
    ensures DecodeAccount(AccountBytes(a, acct)) == Some(StoredAccount(a, acct))
  {
    var b := AccountBytes(a, acct);
    assert b[0..] == b;
    ReadAddress(b, 0, a, BalanceOnwards(acct));
    ReadAmounts(b, acct);
    ReadName(b, 56, acct.name);
  }

  lemma ReadAmounts(b: Bytes, acct: Account)
    requires AccountStorable(acct) && |b| >= 24 && b[24..] == BalanceOnwards(acct)
    ensures |b| >= 56 && b[56..] == NameBytes(acct.name)
    ensures WordAt(b, 24) == acct.balance && WordAt(b, 32) == acct.nonce
    ensures WordAt(b, 40) == acct.staked && WordAt(b, 48) == acct.postStake
  {
    ReadWord(b, 24, acct.balance, NonceOnwards(acct));
    ReadWord(b, 32, acct.nonce, StakedOnwards(acct));
    ReadWord(b, 40, acct.staked, PostStakeOnwards(acct));
    ReadWord(b, 48, acct.postStake, NameBytes(acct.name));
  }

  // ---------- Posts ----------

  function ParentBytes(x: Post): Bytes { BigEndian(32, x.parent) + [] }
  function ChannelOnwards(x: Post): Bytes { x.channel + ParentBytes(x) }
  function ChannelLenOnwards(x: Post): Bytes { BigEndian(4, Half(|x.channel|)) + ChannelOnwards(x) }
  function TextOnwards(x: Post): Bytes { x.text + ChannelLenOnwards(x) }
  function TextLenOnwards(x: Post): Bytes { BigEndian(4, Half(|x.text|)) + TextOnwards(x) }
  function WithdrawnOnwards(x: Post): Bytes { [if x.withdrawn then 1 else 0] + TextLenOnwards(x) }
  function CountOnwards(x: Post): Bytes { BigEndian(8, x.stakerCount) + WithdrawnOnwards(x) }
  function BurnedOnwards(x: Post): Bytes { BigEndian(8, Wrap(x.totalBurned)) + CountOnwards(x) }
  function TotalOnwards(x: Post): Bytes { BigEndian(8, Wrap(x.totalStaked)) + BurnedOnwards(x) }
  function TimeOnwards(x: Post): Bytes { BigEndian(8, Wrap(x.createdAtTime)) + TotalOnwards(x) }
  function HeightOnwards(x: Post): Bytes { BigEndian(8, x.createdAtHeight) + TimeOnwards(x) }
  function AuthorOnwards(x: Post): Bytes { BigEndian(24, x.author) + HeightOnwards(x) }

  /** The stored form of a post. */
  function PostBytes(id: PostId, x: Post): Bytes {
    BigEndian(32, id) + AuthorOnwards(x)
  }

  method PutPostHead(buf: array<Byte>, id: PostId, x: Post) returns (off: nat)
    requires buf.Length >= 97
    modifies buf
    ensures off == 97 && buf[..off] + TextLenOnwards(x) == PostBytes(id, x)
  {
    off := Put(buf, 0, BigEndian(32, id), AuthorOnwards(x));
    off := Put(buf, off, BigEndian(24, x.author), HeightOnwards(x));
    off := Put(buf, off, BigEndian(8, x.createdAtHeight), TimeOnwards(x));
    off := Put(buf, off, BigEndian(8, Wrap(x.createdAtTime)), TotalOnwards(x));
    off := Put(buf, off, BigEndian(8, Wrap(x.totalStaked)), BurnedOnwards(x));
    off := Put(buf, off, BigEndian(8, Wrap(x.totalBurned)), CountOnwards(x));
    off := Put(buf, off, BigEndian(8, x.stakerCount), WithdrawnOnwards(x));
    off := Put(buf, off, [if x.withdrawn then 1 else 0], TextLenOnwards(x));
  }

  method EncodePost(id: PostId, x: Post) returns (out: Bytes)
    ensures out == PostBytes(id, x)
  {
    var buf := new Byte[32 + 24 + 8 + 8 + 8 + 8 + 8 + 1 + 4 + |x.text| + 4 + |x.channel| + 32];
    var off := PutPostHead(buf, id, x);
    off := Put(buf, off, BigEndian(4, Half(|x.text|)), TextOnwards(x));
    off := Put(buf, off, x.text, ChannelLenOnwards(x));
    off := Put(buf, off, BigEndian(4, Half(|x.channel|)), ChannelOnwards(x));
    off := Put(buf, off, x.channel, ParentBytes(x));
    off := Put(buf, off, BigEndian(32, x.parent), []);
    out := buf[..off];
    assert out + [] == out;
  }

  datatype StoredPost = StoredPost(id: PostId, post: Post)

  /** Go's conversion of a uint64 to int64. */
  function Signed(v: Uint64): Int64 {
    if v < TWO63 then v else v - TWO64
  }

  datatype Tail = Tail(channel: Bytes, parent: PostId)

  /** Channel and parent, which older records lack. A channel that is cut short is skipped, and the parent is then
      looked for in its place. */
  function TailAt(b: Bytes, off: nat): Tail {
    if |b| < off + 4 then Tail([], NO_POST) else
      var n := HalfAt(b, off);
      var whole := |b| >= off + 4 + n;
      var next := if whole then off + 4 + n else off + 4;
      Tail(if whole then b[off + 4..next] else [], if |b| >= next + 32 then Word256At(b, next) else NO_POST)
  }

  function DecodePost(b: Bytes): Option<StoredPost> {
    if |b| < 101 then None else
      var n := HalfAt(b, 97);
      if |b| < 101 + n then None else
        var tail := TailAt(b, 101 + n);
        Some(StoredPost(Word256At(b, 0),
          Post(AddressAt(b, 32), b[101..101 + n], tail.channel, tail.parent, WordAt(b, 56), Signed(WordAt(b, 64)),
               WordAt(b, 72), WordAt(b, 80), WordAt(b, 88), b[96] == 1)))
  }

  predicate PostStorable(x: Post) {
    0 <= x.totalStaked < TWO64 && 0 <= x.totalBurned < TWO64 && |x.text| < TWO32 && |x.channel| < TWO32
  }

  lemma ReadPostIds(id: PostId, x: Post)
    ensures var b := PostBytes(id, x);
            |b| >= 56 && b[56..] == HeightOnwards(x) && Word256At(b, 0) == id && AddressAt(b, 32) == x.author
  {
    var b := PostBytes(id, x);
    assert b[0..] == b;
    ReadWord256(b, 0, id, AuthorOnwards(x));
    ReadAddress(b, 32, x.author, HeightOnwards(x));
  }

  lemma ReadPostTimes(b: Bytes, x: Post)
    requires |b| >= 56 && b[56..] == HeightOnwards(x)
    ensures |b| >= 72 && b[72..] == TotalOnwards(x)
    ensures WordAt(b, 56) == x.createdAtHeight && Signed(WordAt(b, 64)) == x.createdAtTime
  {
    ReadWord(b, 56, x.createdAtHeight, TimeOnwards(x));
    ReadWord(b, 64, Wrap(x.createdAtTime), TotalOnwards(x));
  }

  lemma ReadPostAmounts(b: Bytes, x: Post)
    requires PostStorable(x) && |b| >= 72 && b[72..] == TotalOnwards(x)
    ensures |b| >= 97 && b[97..] == TextLenOnwards(x)
    ensures WordAt(b, 72) == x.totalStaked && WordAt(b, 80) == x.totalBurned && WordAt(b, 88) == x.stakerCount
    ensures b[96] == 1 <==> x.withdrawn
  {
    ReadWord(b, 72, x.totalStaked, BurnedOnwards(x));
    ReadWord(b, 80, x.totalBurned, CountOnwards(x));
    ReadWord(b, 88, x.stakerCount, WithdrawnOnwards(x));
    Advance(b, 96, [if x.withdrawn then 1 else 0], TextLenOnwards(x));
    assert b[96] == b[96..97][0];
  }

  lemma ReadTail(b: Bytes, off: nat, x: Post)
    requires PostStorable(x) && off <= |b| && b[off..] == ChannelLenOnwards(x)
    ensures TailAt(b, off) == Tail(x.channel, x.parent)
  {
    ReadHalf(b, off, |x.channel|, ChannelOnwards(x));
    Advance(b, off + 4, x.channel, ParentBytes(x));
    ReadWord256(b, off + 4 + |x.channel|, x.parent, []);
  }

  lemma ReadStrings(b: Bytes, x: Post)
    requires PostStorable(x) && |b| >= 97 && b[97..] == TextLenOnwards(x)
    ensures var n := |x.text|;
            && |b| >= 101 + n && HalfAt(b, 97) == n && b[101..101 + n] == x.text
            && TailAt(b, 101 + n) == Tail(x.channel, x.parent)
  {
    ReadHalf(b, 97, |x.text|, TextOnwards(x));
    Advance(b, 101, x.text, ChannelLenOnwards(x));
    ReadTail(b, 101 + |x.text|, x);
  }

  /** Post records round-trip. */
  lemma PostRoundTrip(id: PostId, x: Post)
    requires PostStorable(x)
    ensures DecodePost(PostBytes(id, x)) == Some(StoredPost(id, x))
  {
    ReadPostIds(id, x);
    ReadPostTimes(PostBytes(id, x), x);
    ReadPostAmounts(PostBytes(id, x), x);
    ReadStrings(PostBytes(id, x), x);
  }

  // ---------- Positions ----------

  function PositionTail(x: Position): Bytes { BigEndian(8, Wrap(x.amount)) + (BigEndian(8, x.height) + []) }

  /** The stored form of a position: 72 bytes. */
  function PositionBytes(k: StakeKey, x: Position): Bytes {
    BigEndian(32, k.post) + (BigEndian(24, k.staker) + PositionTail(x))
  }

  method EncodePostStake(k: StakeKey, x: Position) returns (out: Bytes)
    ensures out == PositionBytes(k, x)
  {
    var buf := new Byte[32 + 24 + 8 + 8];
    var off := Put(buf, 0, BigEndian(32, k.post), BigEndian(24, k.staker) + PositionTail(x));
    off := Put(buf, off, BigEndian(24, k.staker), PositionTail(x));
    off := Put(buf, off, BigEndian(8, Wrap(x.amount)), BigEndian(8, x.height) + []);
    off := Put(buf, off, BigEndian(8, x.height), []);
    out := buf[..off];
    assert out + [] == out;
  }

  datatype StoredPosition = StoredPosition(key: StakeKey, position: Position)

  function DecodePostStake(b: Bytes): Option<StoredPosition> {
    if |b| < 72 then None else
      Some(StoredPosition(StakeKey(Word256At(b, 0), AddressAt(b, 32)), Position(WordAt(b, 56), WordAt(b, 64))))
  }

  lemma PositionRoundTrip(k: StakeKey, x: Position)
    requires 0 <= x.amount < TWO64
    ensures DecodePostStake(PositionBytes(k, x)) == Some(StoredPosition(k, x))
  {
    var b := PositionBytes(k, x);
    assert b[0..] == b;
    ReadWord256(b, 0, k.post, BigEndian(24, k.staker) + PositionTail(x));
    ReadAddress(b, 32, k.staker, PositionTail(x));
    ReadWord(b, 56, x.amount, BigEndian(8, x.height) + []);
    ReadWord(b, 64, x.height, []);
  }

  // ---------- Lists of fixed-size entries ----------

  function Entries<T>(xs: seq<T>, enc: T -> Bytes): Bytes {
    if xs == [] then [] else enc(xs[0]) + Entries(xs[1..], enc)
  }

  /** A four-byte count, then the entries. */
  function ListBytes<T>(xs: seq<T>, enc: T -> Bytes): Bytes {
    BigEndian(4, Half(|xs|)) + Entries(xs, enc)
  }

  /** Reads at most count entries, and only while whole ones are left. */
  function ReadEntries<T>(b: Bytes, off: nat, count: nat, size: nat, dec: Bytes -> T): seq<T>
    decreases count
  {
    if count == 0 || off + size > |b| then [] else
      [dec(b[off..off + size])] + ReadEntries(b, off + size, count - 1, size, dec)
  }

  lemma ReadStep<T>(xs: seq<T>, b: Bytes, off: nat, count: nat, size: nat, dec: Bytes -> T)
    requires count > 0 && off + size <= |b|
    ensures xs + ReadEntries(b, off, count, size, dec)
            == xs + [dec(b[off..off + size])] + ReadEntries(b, off + size, count - 1, size, dec)
  {}

  function ReadList<T>(b: Bytes, size: nat, dec: Bytes -> T): seq<T> {
    if |b| < 4 then [] else ReadEntries(b, 4, HalfAt(b, 0), size, dec)
  }

  lemma {:induction false} EntriesRoundTrip<T>(b: Bytes, off: nat, xs: seq<T>, size: nat,
                                            enc: T -> Bytes, dec: Bytes -> T)
    requires off <= |b| && b[off..] == Entries(xs, enc)
    requires forall i :: 0 <= i < |xs| ==> |enc(xs[i])| == size && dec(enc(xs[i])) == xs[i]
    ensures ReadEntries(b, off, |xs|, size, dec) == xs
    decreases |xs|
  {
    if xs != [] {
      Advance(b, off, enc(xs[0]), Entries(xs[1..], enc));
      EntriesRoundTrip(b, off + size, xs[1..], size, enc, dec);
    }
  }

  /** Lists of fewer than 2^32 fixed-size entries round-trip. */
  lemma ListRoundTrip<T>(xs: seq<T>, size: nat, enc: T -> Bytes, dec: Bytes -> T)
    requires |xs| < TWO32
    requires forall i :: 0 <= i < |xs| ==> |enc(xs[i])| == size && dec(enc(xs[i])) == xs[i]
    ensures ReadList(ListBytes(xs, enc), size, dec) == xs
  {
    var b := ListBytes(xs, enc);
    assert b[0..] == b;
    ReadHalf(b, 0, |xs|, Entries(xs, enc));
    EntriesRoundTrip(b, 4, xs, size, enc, dec);
  }

  lemma EntriesStep<T>(xs: seq<T>, i: nat, enc: T -> Bytes)
    requires i < |xs|
    ensures Entries(xs[i..], enc) == enc(xs[i]) + Entries(xs[i + 1..], enc)
  {
    assert xs[i..][1..] == xs[i + 1..];
  }

  // ---------- Validator sets ----------

  function KeyAndStake(v: Validator): Bytes { BigEndian(32, v.pubKey) + StakeField(v) }
  function StakeField(v: Validator): Bytes { BigEndian(8, Wrap(v.stake)) + [] }

  function ValidatorBytes(v: Validator): (b: Bytes)
    ensures |b| == 64
  {
    BigEndian(24, v.address) + KeyAndStake(v)
  }

  function ValidatorFrom(b: Bytes): Validator {
    if |b| < 64 then Validator(NO_ADDRESS, NO_KEY, 0) else Validator(AddressAt(b, 0), Word256At(b, 24), WordAt(b, 56))
  }

  method PutValidator(buf: array<Byte>, off: nat, v: Validator, ghost rest: Bytes) returns (next: nat)
    requires off + 64 <= buf.Length
    modifies buf
    ensures next == off + 64 && buf[..next] + rest == old(buf[..off]) + (ValidatorBytes(v) + rest)
  {
    next := Put(buf, off, BigEndian(24, v.address), KeyAndStake(v) + rest);
    Assoc(BigEndian(24, v.address), KeyAndStake(v), rest);
    next := Put(buf, next, BigEndian(32, v.pubKey), StakeField(v) + rest);
    Assoc(BigEndian(32, v.pubKey), StakeField(v), rest);
    next := Put(buf, next, BigEndian(8, Wrap(v.stake)), rest);
    assert BigEndian(8, Wrap(v.stake)) + [] == BigEndian(8, Wrap(v.stake));
  }

  method EncodeValidatorSet(vs: seq<Validator>) returns (out: Bytes)
    ensures out == ListBytes(vs, ValidatorBytes)
  {
    var buf := new Byte[4 + |vs| * 64];
    assert vs[0..] == vs;
    var off := Put(buf, 0, BigEndian(4, Half(|vs|)), Entries(vs, ValidatorBytes));
    assert buf[..off] + Entries(vs, ValidatorBytes) == ListBytes(vs, ValidatorBytes);
    for i := 0 to |vs|
      invariant off == 4 + i * 64
      invariant buf[..off] + Entries(vs[i..], ValidatorBytes) == ListBytes(vs, ValidatorBytes)
    {
      EntriesStep(vs, i, ValidatorBytes);
      off := PutValidator(buf, off, vs[i], Entries(vs[i + 1..], ValidatorBytes));
    }
    out := buf[..off];
    assert out + [] == out;
  }

  method DecodeValidatorSet(b: Bytes) returns (vs: seq<Validator>)
    ensures vs == ReadList(b, 64, ValidatorFrom)
  {
    vs := [];
    if |b| < 4 {
      return;
    }
    var count := HalfAt(b, 0);
    var off, i := 4, 0;
    ghost var all := ReadEntries(b, 4, count, 64, ValidatorFrom);
    assert vs + all == all;
    while i < count && off + 64 <= |b|
      invariant i <= count && vs + ReadEntries(b, off, count - i, 64, ValidatorFrom) == all
    {
      ReadStep(vs, b, off, count - i, 64, ValidatorFrom);
      vs := vs + [ValidatorFrom(b[off..off + 64])];
      off, i := off + 64, i + 1;
    }
    assert vs + [] == vs;
  }

  lemma ValidatorRoundTrip(v: Validator)
    requires 0 <= v.stake < TWO64
    ensures ValidatorFrom(ValidatorBytes(v)) == v
  {
    var b := ValidatorBytes(v);
    assert b[0..] == b;
    ReadAddress(b, 0, v.address, KeyAndStake(v));
    ReadWord256(b, 24, v.pubKey, StakeField(v));
    ReadWord(b, 56, v.stake, []);
  }

  // ---------- Unbonding queues ----------

  function AmountAndRelease(u: Unbonding): Bytes { BigEndian(8, Wrap(u.amount)) + ReleaseField(u) }
  function ReleaseField(u: Unbonding): Bytes { BigEndian(8, u.release) + [] }

  function UnbondingBytes(u: Unbonding): (b: Bytes)
    ensures |b| == 40
  {
    BigEndian(24, u.address) + AmountAndRelease(u)
  }

  function UnbondingFrom(b: Bytes): Unbonding {
    if |b| < 40 then Unbonding(NO_ADDRESS, 0, 0) else Unbonding(AddressAt(b, 0), WordAt(b, 24), WordAt(b, 32))
  }

  method PutUnbonding(buf: array<Byte>, off: nat, u: Unbonding, ghost rest: Bytes) returns (next: nat)
    requires off + 40 <= buf.Length
    modifies buf
    ensures next == off + 40 && buf[..next] + rest == old(buf[..off]) + (UnbondingBytes(u) + rest)
  {
    next := Put(buf, off, BigEndian(24, u.address), AmountAndRelease(u) + rest);
    Assoc(BigEndian(24, u.address), AmountAndRelease(u), rest);
    next := Put(buf, next, BigEndian(8, Wrap(u.amount)), ReleaseField(u) + rest);
    Assoc(BigEndian(8, Wrap(u.amount)), ReleaseField(u), rest);
    next := Put(buf, next, BigEndian(8, u.release), rest);
    assert BigEndian(8, u.release) + [] == BigEndian(8, u.release);
  }

  method EncodeUnbondingQueue(q: seq<Unbonding>) returns (out: Bytes)
    ensures out == ListBytes(q, UnbondingBytes)
  {
    var buf := new Byte[4 + |q| * 40];
    assert q[0..] == q;
    var off := Put(buf, 0, BigEndian(4, Half(|q|)), Entries(q, UnbondingBytes));
    assert buf[..off] + Entries(q, UnbondingBytes) == ListBytes(q, UnbondingBytes);
    for i := 0 to |q|
      invariant off == 4 + i * 40
      invariant buf[..off] + Entries(q[i..], UnbondingBytes) == ListBytes(q, UnbondingBytes)
    {
      EntriesStep(q, i, UnbondingBytes);
      off := PutUnbonding(buf, off, q[i], Entries(q[i + 1..], UnbondingBytes));
    }
    out := buf[..off];
    assert out + [] == out;
  }

  method DecodeUnbondingQueue(b: Bytes) returns (q: seq<Unbonding>)
    ensures q == ReadList(b, 40, UnbondingFrom)
  {
    q := [];
    if |b| < 4 {
      return;
    }
    var count := HalfAt(b, 0);
    var off, i := 4, 0;
    ghost var all := ReadEntries(b, 4, count, 40, UnbondingFrom);
    assert q + all == all;
    while i < count && off + 40 <= |b|
      invariant i <= count && q + ReadEntries(b, off, count - i, 40, UnbondingFrom) == all
    {
      ReadStep(q, b, off, count - i, 40, UnbondingFrom);
      q := q + [UnbondingFrom(b[off..off + 40])];
      off, i := off + 40, i + 1;
    }
    assert q + [] == q;
  }

  lemma UnbondingRoundTrip(u: Unbonding)
    requires 0 <= u.amount < TWO64
    ensures UnbondingFrom(UnbondingBytes(u)) == u
  {
    var b := UnbondingBytes(u);
    assert b[0..] == b;
    ReadAddress(b, 0, u.address, AmountAndRelease(u));
    ReadWord(b, 24, u.amount, ReleaseField(u));
    ReadWord(b, 32, u.release, []);
  }
}
