/** Fixed-width big-endian numbers: encoding, decoding, order. */
module BigEndians {
  import opened Words
  import opened SafeMath

  /** The k-th base-256 digit of v, counted from the least significant. */
  function Digit(v: nat, k: nat): Byte {
    (v / Pow256(k)) % 256
  }

  /** The low n bytes of v, most significant first. */
  function BigEndian(n: nat, v: nat): (b: Bytes)
    ensures |b| == n
  {
    seq(n, i requires 0 <= i < n => Digit(v, n - 1 - i))
  }

  /** The number that a byte string spells, most significant byte first. */
  function FromBigEndian(b: Bytes): (v: nat)
    ensures v < Pow256(|b|)
  {
    if b == [] then 0 else
      var hi := FromBigEndian(b[..|b| - 1]);
      assert hi + 1 <= Pow256(|b| - 1);
      256 * hi + b[|b| - 1]
  }

  lemma DivDiv(v: nat, b: nat)
    requires b > 0
    ensures (v / 256) / b == v / (256 * b)
  {
    var q, r := v / 256 / b, v / 256 % b;
    assert v == 256 * (v / 256) + v % 256;
    assert v / 256 == b * q + r;
    assert v == 256 * (b * q) + 256 * r + v % 256;
    assert 256 * (b * q) == (256 * b) * q;
    DivUnique(v, 256 * b, q, 256 * r + v % 256);
  }

  /** All but the last byte encode the number without its last digit. */
  lemma BigEndianStep(n: nat, v: nat)
    requires n > 0
    ensures BigEndian(n, v) == BigEndian(n - 1, v / 256) + [v % 256]
  {
    var l, r := BigEndian(n, v), BigEndian(n - 1, v / 256) + [v % 256];
    forall i | 0 <= i < n
      ensures l[i] == r[i]
    {
      if i == n - 1 {
        assert Pow256(0) == 1;
        assert l[i] == Digit(v, 0) == v % 256;
      } else {
        assert Pow256(n - 1 - i) == 256 * Pow256(n - 2 - i);
        DivDiv(v, Pow256(n - 2 - i));
        assert l[i] == Digit(v, n - 1 - i) && r[i] == Digit(v / 256, n - 2 - i);
      }
    }
  }

  /** Decoding an encoded number gives it back, if it fits. */
  lemma {:induction false} BigEndianRoundTrip(n: nat, v: nat)
    requires v < Pow256(n)
    ensures FromBigEndian(BigEndian(n, v)) == v
  {
    if n > 0 {
      BigEndianStep(n, v);
      BigEndianRoundTrip(n - 1, v / 256);
      var b := BigEndian(n, v);
      assert b[..|b| - 1] == BigEndian(n - 1, v / 256);
    }
  }

  // ---------- Byte order is numeric order ----------

  /** The sign of the first difference. */
  function Lex(a: Bytes, b: Bytes): int
    requires |a| == |b|
  {
    if a == [] then 0 else
      var front := Lex(a[..|a| - 1], b[..|b| - 1]);
      if front != 0 then front
      else if a[|a| - 1] < b[|b| - 1] then -1 else if a[|a| - 1] > b[|b| - 1] then 1 else 0
  }

  lemma {:induction false} LexPrefix(a: Bytes, b: Bytes, n: nat)
    requires |a| == |b| && n <= |a| && Lex(a[..n], b[..n]) != 0
    ensures Lex(a, b) == Lex(a[..n], b[..n])
    decreases |a|
  {
    if n == |a| {
      assert a[..n] == a && b[..n] == b;
    } else {
      var m := |a| - 1;
      assert a[..m][..n] == a[..n] && b[..m][..n] == b[..n];
      LexPrefix(a[..m], b[..m], n);
    }
  }

  /** Byte order in general: the first difference decides, then the length. */
  function ByteOrder(a: Bytes, b: Bytes): int {
    var n := Min(|a|, |b|);
    var c := Lex(a[..n], b[..n]);
    if c != 0 then c else |a| - |b|
  }

  /** compareBytes: scan to the first difference within the shorter slice; without one the lengths decide. */
  method CompareBytes(a: Bytes, b: Bytes) returns (c: int)
    ensures c == ByteOrder(a, b)
    ensures |a| == |b| ==> c == Lex(a, b)
  {
    var n := Min(|a|, |b|);
    assert |a| == |b| ==> a[..n] == a && b[..n] == b;
    for i := 0 to n
      invariant Lex(a[..i], b[..i]) == 0
    {
      assert a[..i + 1][..i] == a[..i] && b[..i + 1][..i] == b[..i];
      if a[i] != b[i] {
        assert a[..n][..i + 1] == a[..i + 1] && b[..n][..i + 1] == b[..i + 1];
        LexPrefix(a[..n], b[..n], i + 1);
        return if a[i] < b[i] then -1 else 1;
      }
    }
    return |a| - |b|;
  }

  /** Comparing fixed-width encodings byte by byte is comparing the numbers. */
  lemma {:induction false} LexIsNumeric(n: nat, x: nat, y: nat)
    requires x < Pow256(n) && y < Pow256(n)
    ensures Lex(BigEndian(n, x), BigEndian(n, y)) == if x < y then -1 else if x > y then 1 else 0
  {
    if n > 0 {
      BigEndianStep(n, x);
      BigEndianStep(n, y);
      LexIsNumeric(n - 1, x / 256, y / 256);
      var a, b := BigEndian(n, x), BigEndian(n, y);
      assert a[..n - 1] == BigEndian(n - 1, x / 256) && b[..n - 1] == BigEndian(n - 1, y / 256);
    }
  }

  // ---------- Fields can be read back from a stream ----------

  lemma SplitEqual(a: Bytes, b: Bytes, r: Bytes, s: Bytes)
    requires |a| == |b| && a + r == b + s
    ensures a == b && r == s
  {
    assert a == (a + r)[..|a|] && b == (b + s)[..|b|];
    assert r == (a + r)[|a|..] && s == (b + s)[|b|..];
  }

  /** A fixed-width number at the head of a stream determines itself and the rest. */
  lemma FixedPrefix(n: nat, x: nat, y: nat, r: Bytes, s: Bytes)
    requires x < Pow256(n) && y < Pow256(n)
    requires BigEndian(n, x) + r == BigEndian(n, y) + s
    ensures x == y && r == s
  {
    SplitEqual(BigEndian(n, x), BigEndian(n, y), r, s);
    BigEndianRoundTrip(n, x);
    BigEndianRoundTrip(n, y);
  }
}
