/** Single-precision numbers as bit patterns; their arithmetic is never looked into. */
module Floats {
  type F32 = x: nat | x < 0x1_0000_0000

  predicate IsFinite(x: F32) {
    x / 0x80_0000 % 0x100 != 0xff
  }

  predicate AllFinite(xs: seq<F32>) {
    forall i :: 0 <= i < |xs| ==> IsFinite(xs[i])
  }

  /** Finite numbers in the order of their values; the two zeros are equal. */
  function Key(x: F32): int {
    if x >= 0x8000_0000 then 0x8000_0000 - x else x
  }

  predicate IsZero(x: F32) {
    x % 0x8000_0000 == 0
  }

  predicate Greater(a: F32, b: F32) {
    Key(a) > Key(b)
  }
}
