/** Fixed-width integer types of the Rust source, as subset-checked newtypes. */
module Ints {
  newtype u8 = x: int | 0 <= x < 0x100
  newtype i16 = x: int | -0x8000 <= x < 0x8000
  newtype i32 = x: int | -0x8000_0000 <= x < 0x8000_0000

  /** One more than the largest `u32`. */
  const U32_LIMIT: int := 0x1_0000_0000

  predicate IsU32(x: int) {
    0 <= x < U32_LIMIT
  }

  /** `a + b` on `i16` with two's-complement wrap-around (a release build's `+=`). */
  function WrapAddI16(a: i16, b: i16): (r: i16)
    ensures (r as int - (a as int + b as int)) % 0x1_0000 == 0
    ensures -0x8000 <= a as int + b as int < 0x8000 ==> r as int == a as int + b as int
  {
    ((a as int + b as int + 0x8000) % 0x1_0000 - 0x8000) as i16
  }

  /** `n as u8` for an `i16`: keeps the low eight bits. */
  function LowByte(n: i16): (r: u8)
    ensures (r as int - n as int) % 0x100 == 0
    ensures 0 <= n < 0x100 ==> r as int == n as int
  {
    (n as int % 0x100) as u8
  }
}
