/** The fixed-width integer helpers of `src/Isk/numerics.rs`: an absolute value
    that cannot overflow, and mixed-width minimum and maximum. */
module Numerics {

  type i32 = x: int | -0x8000_0000 <= x < 0x8000_0000
  type i64 = x: int | -0x8000_0000_0000_0000 <= x < 0x8000_0000_0000_0000
  type u8 = x: int | 0 <= x < 0x100
  type u32 = x: int | 0 <= x < 0x1_0000_0000
  type u64 = x: int | 0 <= x < 0x1_0000_0000_0000_0000

  const U8_MAX: u8 := 0xFF
  const U32_MAX: u32 := 0xFFFF_FFFF

  /** Mathematical absolute value, the reference the `norm` functions are held to. */
  function Abs(x: int): nat
  {
    if x < 0 then -x else x
  }

  /** `norm` for i32: negative values go through `-(x+1)` first, which stays in
      range even for the most negative i32, and then add one in u32. */
  function NormI32(x: i32): (r: u32)
    ensures r == Abs(x)
  {
    if 0 <= x then x as u32
    else
      var flipped: i32 := -(x + 1);
      flipped as u32 + 1
  }

  /** `norm` for i64, the same construction one width up. */
  function NormI64(x: i64): (r: u64)
    ensures r == Abs(x)
  {
    if 0 <= x then x as u64
    else
      var flipped: i64 := -(x + 1);
      flipped as u64 + 1
  }

  /** `u64::Min(u32)`: the smaller value, as a u32. A left operand too wide for
      u32 can never be the minimum, so the right operand is returned outright. */
  function MinU64U32(self: u64, r: u32): (m: u32)
    ensures m <= self && m <= r
    ensures m == self || m == r
  {
    if U32_MAX < self then r
    else
      var test := self as u32;
      if r < test then r else test
  }

  /** `u64::Max(u32)`: the larger value, as a u64. */
  function MaxU64U32(self: u64, r: u32): (m: u64)
    ensures m >= self && m >= r
    ensures m == self || m == r
  {
    var test := r as u64;
    if self < test then test else self
  }
}
