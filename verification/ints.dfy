/** Fixed-width integer types of the original program, as ranges of `int`. */
module Ints {
  const U32Modulus: int := 0x1_0000_0000

  type u8 = x: int | 0 <= x < 0x100
  type u16 = x: int | 0 <= x < 0x1_0000
  type u32 = x: int | 0 <= x < U32Modulus
  type i32 = x: int | -0x8000_0000 <= x < 0x8000_0000
}
