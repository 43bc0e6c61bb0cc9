/** Fixed-width machine integers of the target (a 32-bit ARM microcontroller).
    Dafny's integers are unbounded, so every wrap-around and every
    reinterpretation the C++ code relies on is written out here. */
module Words {

  const TWO8: int := 0x100
  const TWO24: int := 0x100_0000
  const TWO31: int := 0x8000_0000
  const TWO32: int := 0x1_0000_0000

  /** uint8_t */
  type U8 = x: int | 0 <= x < 0x100

  /** uint32_t */
  type U32 = x: int | 0 <= x < 0x1_0000_0000

  /** int32_t */
  type I32 = x: int | -0x8000_0000 <= x < 0x8000_0000

  /** `a + b` on two uint32_t operands: the sum wraps once past 2^32. */
  function AddU32(a: U32, b: U32): (r: U32)
    ensures a + b < TWO32 ==> r == a + b
    ensures a + b >= TWO32 ==> r == a + b - TWO32
  {
    (a + b) % TWO32
  }

  /** `a - b` on uint32_t operands: a negative difference wraps up by 2^32. */
  function SubU32(a: U32, b: U32): (r: U32)
    ensures a >= b ==> r == a - b
    ensures a < b ==> r == a - b + TWO32
  {
    (a - b) % TWO32
  }

  /** Conversion of a uint32_t value to int32_t: two's-complement
      reinterpretation, so the result agrees with the input modulo 2^32. */
  function ToI32(x: U32): (r: I32)
    ensures r == x || r == x - TWO32
    ensures r >= 0 <==> x < TWO31
  {
    if x < TWO31 then x else x - TWO32
  }

  /** `x >> 24` on a uint32_t: the most significant byte. */
  function Shr24(x: U32): (r: U8)
    ensures r * TWO24 <= x < (r + 1) * TWO24
  {
    x / TWO24
  }
}
