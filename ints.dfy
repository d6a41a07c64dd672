/** The fixed-width integers of the program (a 64-bit Windows target). Dafny's
    integers are unbounded, so widths, wrap-around and truncating casts are
    written out here. */
module Ints {

  const I64_MODULUS: int := 0x1_0000_0000_0000_0000
  const I64_MIN: int := -0x8000_0000_0000_0000
  const I64_MAX: int := 0x7FFF_FFFF_FFFF_FFFF

  type u32 = x: int | 0 <= x < 0x1_0000_0000
  type u64 = x: int | 0 <= x < 0x1_0000_0000_0000_0000
  type i64 = x: int | -0x8000_0000_0000_0000 <= x <= 0x7FFF_FFFF_FFFF_FFFF

  /** `v += 1` on an `i64` as a release build executes it (two's-complement
      wrap-around): the result is the i64 congruent to v + 1 modulo 2^64. */
  function WrappingInc(v: i64): (r: i64)
    ensures (r - (v + 1)) % I64_MODULUS == 0
    ensures v < I64_MAX ==> r == v + 1
  {
    if v == I64_MAX then I64_MIN else v + 1
  }

  /** `v -= 1` on an `i64` as a release build executes it. */
  function WrappingDec(v: i64): (r: i64)
    ensures (r - (v - 1)) % I64_MODULUS == 0
    ensures I64_MIN < v ==> r == v - 1
  {
    if v == I64_MIN then I64_MAX else v - 1
  }

  /** `w as u32` for an `isize` w, given as its 64-bit two's-complement bit
      pattern: keeps the low 32 bits. */
  function Low32(w: bv64): (r: bv32)
    ensures r as bv64 == w & 0xFFFF_FFFF
  {
    (w & 0xFFFF_FFFF) as bv32
  }

  /** Incrementing then decrementing (and the reverse) restores the counter,
      also across the wrap-around boundary. */
  lemma IncDecInverse(v: i64)
    ensures WrappingDec(WrappingInc(v)) == v
    ensures WrappingInc(WrappingDec(v)) == v
  {
  }
}
