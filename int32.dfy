/**
 * Rust's `i32` as the noise core uses it: a signed 32-bit integer is an
 * `int` in range; its two's-complement bit pattern (what `x as u32`
 * reinterprets, and what the wrapping operators work on) is a `bv32`.
 */
module Int32 {

  const MIN: int := -0x8000_0000
  const MAX: int := 0x7fff_ffff

  /** Whether `x` is representable as an `i32` (what a checked cast demands). */
  predicate InRange(x: int) {
    MIN <= x <= MAX
  }

  type i32 = x: int | MIN <= x <= MAX

  type u32 = x: int | 0 <= x < 0x1_0000_0000

  /** The bit pattern of `x`, i.e. `x as u32`. */
  function ToBits(x: i32): bv32 {
    if x >= 0 then x as bv32 else (x + 0x1_0000_0000) as bv32
  }

  /** `a + 1` under two's-complement wrap-around: the `i32` congruent to `a + 1` modulo 2^32. */
  function WrappingIncrement(a: i32): (r: i32)
    ensures a < MAX ==> r == a + 1
    ensures a == MAX ==> r == MIN
    ensures (r - (a + 1)) % 0x1_0000_0000 == 0
  {
    if a == MAX then MIN else a + 1
  }
}
