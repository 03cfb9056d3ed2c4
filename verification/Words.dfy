/** Machine words, byte strings and the big-endian encoding every component of the node shares. */
module Words {

  const TWO32: int := 0x1_0000_0000
  const TWO63: int := 0x8000_0000_0000_0000
  const TWO64: int := 0x1_0000_0000_0000_0000
  const MAX64: int := 0xFFFF_FFFF_FFFF_FFFF

  type Byte = x: int | 0 <= x < 256
  type Bytes = seq<Byte>
  type Uint64 = x: int | 0 <= x < 0x1_0000_0000_0000_0000
  type Int64 = x: int | -0x8000_0000_0000_0000 <= x < 0x8000_0000_0000_0000

  /** A 24-byte address, as the number its bytes spell in big-endian order. */
  type Address = x: int | 0 <= x < 0x1_0000_0000_0000_0000_0000_0000_0000_0000_0000_0000_0000_0000

  /** A 32-byte value (hash, post id, public key), as the number its bytes spell in big-endian order. */
  type Word256 = x: int | 0 <= x < 0x1_0000_0000_0000_0000_0000_0000_0000_0000_0000_0000_0000_0000_0000_0000_0000_0000

  /** Go's uint64 arithmetic where the program relies on, or cannot rule out, wrap-around. */
  function Wrap(x: int): (r: Uint64)
    ensures 0 <= x < TWO64 ==> r == x
  {
    x % TWO64
  }

  /** Wrapping early or late makes no difference. */
  lemma WrapShift(x: int, d: int)
    ensures Wrap(Wrap(x) + d) == Wrap(x + d)
  {}

  /** uint64 addition at a place where it must not wrap: callers prove that it does not. */
  function Plus(a: Uint64, b: Uint64): (r: Uint64)
    requires a + b < TWO64
  {
    a + b
  }

  /** uint64 subtraction at a place where it must not wrap: callers prove that it does not. */
  function Minus(a: Uint64, b: Uint64): (r: Uint64)
    requires b <= a
  {
    a - b
  }

  function Min(a: int, b: int): int {
    if a <= b then a else b
  }

  /** 256 to the power n: the number of n-byte strings. */
  function Pow256(n: nat): (r: nat)
    ensures r >= 1
  {
    if n == 0 then 1 else 256 * Pow256(n - 1)
  }

  lemma Pow256Literals()
    ensures Pow256(4) == TWO32 && Pow256(8) == TWO64
    ensures Pow256(24) == 0x1_0000_0000_0000_0000_0000_0000_0000_0000_0000_0000_0000_0000
    ensures Pow256(32) == 0x1_0000_0000_0000_0000_0000_0000_0000_0000_0000_0000_0000_0000_0000_0000_0000_0000
  {
    assert Pow256(4) == 0x1_0000_0000;
    assert Pow256(8) == 0x1_0000_0000_0000_0000;
    assert Pow256(12) == 0x1_0000_0000_0000_0000_0000_0000;
    assert Pow256(16) == 0x1_0000_0000_0000_0000_0000_0000_0000_0000;
    assert Pow256(20) == 0x1_0000_0000_0000_0000_0000_0000_0000_0000_0000_0000;
    assert Pow256(24) == 0x1_0000_0000_0000_0000_0000_0000_0000_0000_0000_0000_0000_0000;
    assert Pow256(28) == 0x1_0000_0000_0000_0000_0000_0000_0000_0000_0000_0000_0000_0000_0000_0000;
  }
}
