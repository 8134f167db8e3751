/** Unsigned and signed integers of 8 to 64 bits, with saturating addition and subtraction.

    Values are mathematical integers confined by subset types, so every place where
    the program wraps, saturates or checks is written out by the model.
  */
module MachineInts {

  const U16_MAX := 0xFFFF
  const U32_MAX := 0xFFFF_FFFF
  const U64_MAX := 0xFFFF_FFFF_FFFF_FFFF
  const I32_MIN := -0x8000_0000
  const I32_MAX := 0x7FFF_FFFF
  const I64_MIN := -0x8000_0000_0000_0000
  const I64_MAX := 0x7FFF_FFFF_FFFF_FFFF

  type byte = x: int | 0 <= x < 256
  type u16 = x: int | 0 <= x <= U16_MAX
  type u32 = x: int | 0 <= x <= U32_MAX
  type u64 = x: int | 0 <= x <= U64_MAX
  type i32 = x: int | I32_MIN <= x <= I32_MAX
  type i64 = x: int | I64_MIN <= x <= I64_MAX

  /** `u64::saturating_add`. */
  function SatAddU64(a: u64, b: u64): u64 {
    if a + b > U64_MAX then U64_MAX else a + b
  }

  /** `u64::saturating_sub`. */
  function SatSubU64(a: u64, b: u64): u64 {
    if a < b then 0 else a - b
  }

  /** The `i64` nearest to a mathematical integer. */
  function ClampI64(x: int): i64 {
    if x < I64_MIN then I64_MIN else if x > I64_MAX then I64_MAX else x
  }

  /** `i64::saturating_add`. */
  function SatAddI64(a: i64, b: i64): i64 {
    ClampI64(a + b)
  }

  /** `i64::saturating_sub`. */
  function SatSubI64(a: i64, b: i64): i64 {
    ClampI64(a - b)
  }
}
