/**
 * Rust's fixed-width integer types. Arithmetic on these newtypes is checked
 * by Dafny against the type's range, which is how the model captures the
 * overflow panic of a debug build: an operation that could overflow needs a
 * precondition that rules the overflow out.
 */
module Ints {

  const I32_MAX: int := 0x7fff_ffff
  const I32_MIN: int := -0x8000_0000
  const U32_MAX: int := 0xffff_ffff

  newtype i32 = x: int | -0x8000_0000 <= x <= 0x7fff_ffff

  newtype u32 = x: int | 0 <= x <= 0xffff_ffff

  newtype byte = x: int | 0 <= x < 0x100
}
