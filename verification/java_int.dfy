/** Java's fixed-width integer arithmetic: `int` is 32-bit and `long` is 64-bit two's complement,
    and subtraction wraps around silently instead of failing. */
module JavaInt {

  const MIN_INT: int := -0x8000_0000
  const MAX_INT: int := 0x7fff_ffff
  const MIN_LONG: int := -0x8000_0000_0000_0000
  const MAX_LONG: int := 0x7fff_ffff_ffff_ffff

  const TWO_32: int := 0x1_0000_0000
  const TWO_64: int := 0x1_0000_0000_0000_0000

  /** Values of a Java `int`. */
  type Int32 = x: int | MIN_INT <= x <= MAX_INT

  /** Values of a Java `long`. */
  type Int64 = x: int | MIN_LONG <= x <= MAX_LONG

  /** The `int` that Java keeps of an exact result: the one congruent to it modulo 2^32. */
  function Wrap32(x: int): (r: Int32)
    ensures (x - r) % TWO_32 == 0
    ensures MIN_INT <= x <= MAX_INT ==> r == x
  {
    (x - MIN_INT) % TWO_32 + MIN_INT
  }

  /** The `long` that Java keeps of an exact result: the one congruent to it modulo 2^64. */
  function Wrap64(x: int): (r: Int64)
    ensures (x - r) % TWO_64 == 0
    ensures MIN_LONG <= x <= MAX_LONG ==> r == x
  {
    (x - MIN_LONG) % TWO_64 + MIN_LONG
  }

  /** Java `a - b` on two `int`s. */
  function Sub32(a: Int32, b: Int32): (r: Int32)
    ensures (a - b - r) % TWO_32 == 0
    ensures 0 <= a && 0 <= b ==> r == a - b
    ensures a == b ==> r == 0
  {
    Wrap32(a - b)
  }

  /** Java `a - b` on two `long`s. */
  function Sub64(a: Int64, b: Int64): (r: Int64)
    ensures (a - b - r) % TWO_64 == 0
    ensures 0 <= a && 0 <= b ==> r == a - b
  {
    Wrap64(a - b)
  }
}
