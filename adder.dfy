/** `add_two` of chapt11/adder. */
module Adder {
  import opened Ints

  /** `add_two`; the sum overflows (a panic in a debug build) above `i32::MAX - 2`. */
  function AddTwo(a: i32): (r: i32)
    requires a as int <= I32_MAX - 2
    ensures r as int == a as int + 2
  {
    a + 2
  }

  /** `add_two` is strictly increasing. */
  lemma AddTwoIncreasing(a: i32, b: i32)
    requires a < b && b as int <= I32_MAX - 2
    ensures AddTwo(a) < AddTwo(b)
  {
  }

  /** The test `it_works`: `add_two(2) == 4`. */
  lemma ItWorks()
    ensures AddTwo(2) == 4
  {
  }
}
