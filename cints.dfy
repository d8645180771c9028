/** Fixed-width C integer types used by the firmware, as subsets of `int`. */
module CInts {
  type U8 = x: int | 0 <= x < 0x100
  type U16 = x: int | 0 <= x < 0x1_0000
  type U32 = x: int | 0 <= x < 0x1_0000_0000

  const U32Modulus: int := 0x1_0000_0000

  /** Conversion of a value in -128..255 to `int8_t`, two's complement (what the
      ESP32 compiler does for this implementation-defined conversion). */
  function ToInt8(x: int): (r: int)
    requires -128 <= x < 0x100
    ensures -128 <= r < 128
    ensures (r - x) % 0x100 == 0
    ensures 0 <= x < 128 ==> r == x
    ensures x >= 128 ==> r < 0
  {
    if x >= 128 then x - 0x100 else x
  }

  /** `a - b` on `unsigned int` (32 bits): the difference taken modulo 2^32. */
  function SubU32(a: U32, b: U32): (r: U32)
    ensures (r - (a - b)) % U32Modulus == 0
    ensures a >= b ==> r == a - b
    ensures a < b ==> r == U32Modulus - (b - a)
  {
    if a >= b then a - b else U32Modulus + a - b
  }
}
