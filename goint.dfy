/** Go's fixed-width integers and its integer division, written out over
    Dafny's unbounded `int`. */
module GoInt {

  const TwoTo63: int := 0x8000_0000_0000_0000
  const TwoTo64: int := 0x1_0000_0000_0000_0000

  /** Go `uint64`. */
  type U64 = x: int | 0 <= x < TwoTo64

  /** Go `int64`. */
  type I64 = x: int | -TwoTo63 <= x < TwoTo63

  /** Go `byte`. */
  type Byte = x: int | 0 <= x < 256

  /** The value an unsigned 64-bit addition leaves behind: the sum modulo 2^64. */
  function WrapU64(x: int): (r: U64)
    ensures 0 <= x < TwoTo64 ==> r == x
    ensures (x - r) % TwoTo64 == 0
  {
    x % TwoTo64
  }

  /** The value a signed 64-bit operation leaves behind (two's complement). */
  function WrapI64(x: int): (r: I64)
    ensures -TwoTo63 <= x < TwoTo63 ==> r == x
    ensures (x - r) % TwoTo64 == 0
  {
    (x + TwoTo63) % TwoTo64 - TwoTo63
  }

  /** Go's conversion `int64(x)` of a `uint64`: the same 64 bits read as signed. */
  function I64OfU64(x: U64): (r: I64)
    ensures x < TwoTo63 ==> r == x
    ensures x >= TwoTo63 ==> r == x - TwoTo64
  {
    WrapI64(x)
  }

  /** Go's `a / b` on integers, which truncates toward zero. */
  function Quo(a: int, b: int): (q: int)
    requires b > 0
    ensures a >= 0 ==> 0 <= a - q * b < b
    ensures a < 0 ==> -b < a - q * b <= 0
  {
    if a >= 0 then a / b else -((-a) / b)
  }

  /** Go's `a % b` on integers: the remainder takes the sign of `a`. */
  function Rem(a: int, b: int): (r: int)
    requires b > 0
    ensures Quo(a, b) * b + r == a
    ensures a >= 0 ==> 0 <= r < b
    ensures a < 0 ==> -b < r <= 0
  {
    a - Quo(a, b) * b
  }
}
