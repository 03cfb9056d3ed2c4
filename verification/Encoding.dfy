/** The deterministic encoding that hashes and signatures cover: it can be read back unambiguously. */
module Encoding {
  import opened Words
  import opened Types
  import opened BigEndians

  // ---------- Fields and streams ----------

  /** One write to a hash writer. */
  datatype Field = U64(word: Uint64) | U32(half: nat) | Blob(data: Bytes)

  function Render(f: Field): Bytes {
    match f
    case U64(v) => BigEndian(8, v)
    case U32(v) => BigEndian(4, v)
    case Blob(b) => BigEndian(8, Wrap(|b|)) + b
  }

  /** The bytes of a sequence of writes. Proofs use it only through StreamNone and StreamLast: the two
      intermediate functions keep the verifier from unfolding it elsewhere. */
  function Stream(fs: seq<Field>): Bytes
    decreases |fs|, 2
  {
    StreamFolded(fs)
  }

  function StreamFolded(fs: seq<Field>): Bytes
    decreases |fs|, 1
  {
    StreamFrom(fs)
  }

  function StreamFrom(fs: seq<Field>): Bytes
    decreases |fs|, 0
  {
    if fs == [] then [] else Stream(fs[..|fs| - 1]) + Render(fs[|fs| - 1])
  }

  lemma StreamUnfold(fs: seq<Field>)
    ensures Stream(fs) == StreamFrom(fs)
  {
    assert Stream(fs) == StreamFolded(fs);
    assert StreamFolded(fs) == StreamFrom(fs);
  }

  lemma StreamNone()
    ensures Stream([]) == []
  {
    StreamUnfold([]);
  }

  /** What Go's types guarantee: a uint32 is one, and the length of a slice fits a word. */
  predicate Fits(f: Field) {
    match f
    case U64(_) => true
    case U32(v) => v < TWO32
    case Blob(b) => |b| < TWO64
  }

  predicate AllFit(fs: seq<Field>) {
    forall i :: 0 <= i < |fs| ==> Fits(fs[i])
  }

  /** The same kinds of writes in the same order. */
  predicate SameShape(fs: seq<Field>, gs: seq<Field>) {
    && |fs| == |gs|
    && forall i :: 0 <= i < |fs| ==>
         (fs[i].U64? <==> gs[i].U64?) && (fs[i].U32? <==> gs[i].U32?) && (fs[i].Blob? <==> gs[i].Blob?)
  }

  lemma Assoc(a: Bytes, b: Bytes, c: Bytes)
    ensures a + b + c == a + (b + c)
  {}

  lemma StreamLast(fs: seq<Field>, f: Field)
    ensures Stream(fs + [f]) == Stream(fs) + Render(f)
  {
    StreamUnfold(fs + [f]);
    assert (fs + [f])[..|fs|] == fs;
  }

  lemma StreamConcatOne(fs: seq<Field>, gs: seq<Field>, g: Field)
    requires Stream(fs + gs) == Stream(fs) + Stream(gs)
    ensures Stream(fs + (gs + [g])) == Stream(fs) + Stream(gs + [g])
  {
    StreamLast(fs + gs, g);
    assert fs + (gs + [g]) == fs + gs + [g];
    StreamLast(gs, g);
    Assoc(Stream(fs), Stream(gs), Render(g));
  }

  lemma StreamConcatNone(fs: seq<Field>)
    ensures Stream(fs + []) == Stream(fs) + Stream([])
  {
    StreamNone();
    assert fs + [] == fs;
  }

  lemma {:induction false} StreamConcat(fs: seq<Field>, gs: seq<Field>)
    ensures Stream(fs + gs) == Stream(fs) + Stream(gs)
  {
    if gs == [] {
      StreamConcatNone(fs);
    } else {
      var init, last := gs[..|gs| - 1], gs[|gs| - 1];
      assert gs == init + [last];
      StreamConcat(fs, init);
      StreamConcatOne(fs, init, last);
    }
  }

  /** A field at the head of a stream determines itself and the rest. */
  lemma FieldPrefix(f: Field, g: Field, r: Bytes, s: Bytes)
    requires Fits(f) && Fits(g) && SameShape([f], [g]) && Render(f) + r == Render(g) + s
    ensures f == g && r == s
  {
    Pow256Literals();
    assert [f][0] == f && [g][0] == g;
    match f
    case U64(v) => FixedPrefix(8, v, g.word, r, s);
    case U32(v) => FixedPrefix(4, v, g.half, r, s);
    case Blob(b) => BlobPrefix(b, g.data, r, s);
  }

  lemma BlobPrefix(b: Bytes, c: Bytes, r: Bytes, s: Bytes)
    requires |b| < TWO64 && |c| < TWO64 && Render(Blob(b)) + r == Render(Blob(c)) + s
    ensures b == c && r == s
  {
    Pow256Literals();
    Assoc(BigEndian(8, |b|), b, r);
    Assoc(BigEndian(8, |c|), c, s);
    FixedPrefix(8, |b|, |c|, b + r, c + s);
    SplitEqual(b, c, r, s);
  }

  lemma StreamOne(f: Field)
    ensures Stream([f]) == Render(f)
  {
    StreamNone();
    StreamLast([], f);
    assert [] + [f] == [f];
  }

  lemma StreamHead(fs: seq<Field>, r: Bytes)
    requires fs != []
    ensures Stream(fs) + r == Render(fs[0]) + (Stream(fs[1..]) + r)
  {
    assert fs == [fs[0]] + fs[1..];
    StreamConcat([fs[0]], fs[1..]);
    StreamOne(fs[0]);
    Assoc(Render(fs[0]), Stream(fs[1..]), r);
  }

  /** Writes of a known shape at the head of a stream determine themselves and the rest. */
  lemma {:induction false} StreamPrefix(fs: seq<Field>, gs: seq<Field>, r: Bytes, s: Bytes)
    requires AllFit(fs) && AllFit(gs) && SameShape(fs, gs) && Stream(fs) + r == Stream(gs) + s
    ensures fs == gs && r == s
    decreases |fs|
  {
    if fs == [] {
      StreamNone();
      assert [] + r == r && [] + s == s;
    } else {
      StreamHead(fs, r);
      StreamHead(gs, s);
      FieldPrefix(fs[0], gs[0], Stream(fs[1..]) + r, Stream(gs[1..]) + s);
      StreamPrefix(fs[1..], gs[1..], r, s);
      assert fs == [fs[0]] + fs[1..] && gs == [gs[0]] + gs[1..];
    }
  }

  lemma StreamInjective(fs: seq<Field>, gs: seq<Field>)
    requires AllFit(fs) && AllFit(gs) && SameShape(fs, gs) && Stream(fs) == Stream(gs)
    ensures fs == gs
  {
    assert Stream(fs) + [] == Stream(fs) && Stream(gs) + [] == Stream(gs);
    StreamPrefix(fs, gs, [], []);
  }

  function AddressField(a: Address): (f: Field)
    ensures Fits(f) && f.Blob?
  {
    Blob(BigEndian(24, a))
  }

  function WordField(w: Word256): (f: Field)
    ensures Fits(f) && f.Blob?
  {
    Blob(BigEndian(32, w))
  }

  /** WriteInt64: two's complement. */
  function SignedField(t: Int64): Field {
    U64(Wrap(t))
  }

  lemma AddressFieldInjective(a: Address, b: Address)
    requires AddressField(a) == AddressField(b)
    ensures a == b
  {
    Pow256Literals();
    BigEndianRoundTrip(24, a);
    BigEndianRoundTrip(24, b);
  }

  lemma WordFieldInjective(a: Word256, b: Word256)
    requires WordField(a) == WordField(b)
    ensures a == b
  {
    Pow256Literals();
    BigEndianRoundTrip(32, a);
    BigEndianRoundTrip(32, b);
  }

  // ---------- The writer ----------

  class HashWriter {
    var buf: Bytes
    ghost var log: seq<Field>

    /** The buffer is exactly what the writes so far render to. */
    ghost predicate Valid()
      reads this
    {
      buf == Stream(log)
    }

    constructor ()
      ensures Valid() && log == []
    {
      StreamNone();
      buf, log := [], [];
    }

    ghost method Log(f: Field)
      modifies this`log
      ensures log == old(log) + [f]
      ensures Stream(log) == Stream(old(log)) + Render(f)
    {
      StreamLast(log, f);
      log := log + [f];
    }

    method WriteUint64(v: Uint64)
      requires Valid()
      modifies this
      ensures Valid() && log == old(log) + [U64(v)]
    {
      buf := buf + BigEndian(8, v);
      Log(U64(v));
    }

    method WriteUint32(v: nat)
      requires Valid() && v < TWO32
      modifies this
      ensures Valid() && log == old(log) + [U32(v)]
    {
      buf := buf + BigEndian(4, v);
      Log(U32(v));
    }

    method WriteInt64(v: Int64)
      requires Valid()
      modifies this
      ensures Valid() && log == old(log) + [SignedField(v)]
    {
      WriteUint64(Wrap(v));
    }

    method WriteBytes(b: Bytes)
      requires Valid()
      modifies this
      ensures Valid() && log == old(log) + [Blob(b)]
    {
      var start := buf;
      buf := buf + BigEndian(8, Wrap(|b|));
      buf := buf + b;
      assert buf == start + (BigEndian(8, Wrap(|b|)) + b);
      Log(Blob(b));
    }

    method WriteAddress(a: Address)
      requires Valid()
      modifies this
      ensures Valid() && log == old(log) + [AddressField(a)]
    {
      WriteBytes(BigEndian(24, a));
    }

    method WriteWord(w: Word256)
      requires Valid()
      modifies this
      ensures Valid() && log == old(log) + [WordField(w)]
    {
      WriteBytes(BigEndian(32, w));
    }
  }

  // ---------- Lists of records ----------

  function Flat<T>(xs: seq<T>, enc: T -> seq<Field>): seq<Field> {
    if xs == [] then [] else Flat(xs[..|xs| - 1], enc) + enc(xs[|xs| - 1])
  }

  lemma FlatStep<T>(xs: seq<T>, enc: T -> seq<Field>, i: nat)
    requires i < |xs|
    ensures Flat(xs[..i + 1], enc) == Flat(xs[..i], enc) + enc(xs[i])
  {
    assert xs[..i + 1][..i] == xs[..i];
  }

  /** What the first i records of a list add to what was written before. */
  lemma FlatGrows<T>(start: seq<Field>, xs: seq<T>, enc: T -> seq<Field>, i: nat)
    requires i < |xs|
    ensures start + Flat(xs[..i + 1], enc) == start + Flat(xs[..i], enc) + enc(xs[i])
  {
    FlatStep(xs, enc, i);
    var f := Flat(xs[..i], enc);
    assert start + (f + enc(xs[i])) == start + f + enc(xs[i]);
  }

  /** Records that ok admits have one shape, fit, and are determined by their fields. */
  ghost predicate Legible<T(!new)>(enc: T -> seq<Field>, ok: T -> bool) {
    forall x, y {:trigger enc(x), enc(y)} :: ok(x) && ok(y) ==>
      AllFit(enc(x)) && SameShape(enc(x), enc(y)) && (enc(x) == enc(y) ==> x == y)
  }

  /** A list as the writers write it: its length, then its records. */
  function Section<T>(xs: seq<T>, enc: T -> seq<Field>): seq<Field> {
    [U64(Wrap(|xs|))] + Flat(xs, enc)
  }

  lemma {:induction false} FlatFits<T(!new)>(xs: seq<T>, enc: T -> seq<Field>, ok: T -> bool)
    requires Legible(enc, ok) && forall i :: 0 <= i < |xs| ==> ok(xs[i])
    ensures AllFit(Flat(xs, enc))
  {
    if xs != [] {
      FlatFits(xs[..|xs| - 1], enc, ok);
      assert enc(xs[|xs| - 1]) == enc(xs[|xs| - 1]);
    }
  }

  lemma {:induction false} FlatShape<T(!new)>(xs: seq<T>, ys: seq<T>, enc: T -> seq<Field>, ok: T -> bool)
    requires Legible(enc, ok) && |xs| == |ys| && forall i :: 0 <= i < |xs| ==> ok(xs[i]) && ok(ys[i])
    ensures SameShape(Flat(xs, enc), Flat(ys, enc))
    ensures Flat(xs, enc) == Flat(ys, enc) ==> xs == ys
  {
    if xs != [] {
      var n := |xs| - 1;
      FlatShape(xs[..n], ys[..n], enc, ok);
      var f, g, u, v := Flat(xs[..n], enc), Flat(ys[..n], enc), enc(xs[n]), enc(ys[n]);
      assert SameShape(u, v);
      if f + u == g + v {
        assert f == (f + u)[..|f|] && g == (g + v)[..|g|];
        assert u == (f + u)[|f|..] && v == (g + v)[|g|..];
        assert xs == xs[..n] + [xs[n]] && ys == ys[..n] + [ys[n]];
      }
    }
  }

  /** A section at the head of a stream determines the list and the rest. */
  lemma SectionPrefix<T(!new)>(xs: seq<T>, ys: seq<T>, enc: T -> seq<Field>, ok: T -> bool, r: Bytes, s: Bytes)
    requires Legible(enc, ok) && |xs| < TWO64 && |ys| < TWO64
    requires (forall i :: 0 <= i < |xs| ==> ok(xs[i])) && (forall i :: 0 <= i < |ys| ==> ok(ys[i]))
    requires Stream(Section(xs, enc)) + r == Stream(Section(ys, enc)) + s
    ensures xs == ys && r == s
  {
    var fs, gs := Flat(xs, enc), Flat(ys, enc);
    assert Section(xs, enc)[1..] == fs && Section(ys, enc)[1..] == gs;
    StreamHead(Section(xs, enc), r);
    StreamHead(Section(ys, enc), s);
    FieldPrefix(U64(|xs|), U64(|ys|), Stream(fs) + r, Stream(gs) + s);
    FlatFits(xs, enc, ok);
    FlatFits(ys, enc, ok);
    FlatShape(xs, ys, enc, ok);
    StreamPrefix(fs, gs, r, s);
  }

  // ---------- Post ids ----------

  function PostIdFields(author: Address, nonce: Uint64): seq<Field> {
    [AddressField(author), U64(nonce)]
  }

  /** The id of the post that the author creates with this nonce. */
  method DerivePostId(p: Params, author: Address, nonce: Uint64) returns (id: PostId)
    ensures id == p.sha256(Stream(PostIdFields(author, nonce)))
  {
    var hw := new HashWriter();
    hw.WriteAddress(author);
    hw.WriteUint64(nonce);
    assert hw.log == PostIdFields(author, nonce);
    return p.sha256(hw.buf);
  }

  lemma PostIdFieldsInjective(a: Address, n: Uint64, b: Address, m: Uint64)
    requires Stream(PostIdFields(a, n)) == Stream(PostIdFields(b, m))
    ensures a == b && n == m
  {
    var f, g := PostIdFields(a, n), PostIdFields(b, m);
    StreamInjective(f, g);
    assert f[0] == g[0] && f[1] == g[1];
    AddressFieldInjective(a, b);
  }
}
