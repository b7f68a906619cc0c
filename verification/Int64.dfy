/** Signed 64-bit integers and the saturating operations the store uses on them. */
module Int64 {

  const I64_MIN: int := -0x8000_0000_0000_0000
  const I64_MAX: int := 0x7FFF_FFFF_FFFF_FFFF
  const I128_MAX: int := 0x7FFF_FFFF_FFFF_FFFF_FFFF_FFFF_FFFF_FFFF
  const U64_MAX: int := 0xFFFF_FFFF_FFFF_FFFF

  type i64 = x: int | I64_MIN <= x <= I64_MAX

  predicate FitsI64(x: int) {
    I64_MIN <= x <= I64_MAX
  }

  function Clamp(x: int): i64 {
    if x < I64_MIN then I64_MIN else if x > I64_MAX then I64_MAX else x
  }

  function SatAdd(a: i64, b: i64): i64 { Clamp(a + b) }

  function SatSub(a: i64, b: i64): i64 { Clamp(a - b) }

  function SatMul(a: i64, b: i64): i64 { Clamp(a * b) }

  function Min(a: int, b: int): int { if a <= b then a else b }

  function Max(a: int, b: int): int { if a <= b then b else a }
}
