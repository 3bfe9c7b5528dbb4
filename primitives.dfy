/**
 * Fixed-width integers of the on-chain program and its checked arithmetic.
 *
 * Rust's `u64`/`i64` are bounded; every balance and timestamp update in the
 * locked voter goes through `checked_add`/`checked_sub`, which return `None`
 * instead of wrapping. The newtypes below make the bounds explicit, and the
 * checked operations return an `Option` exactly as Rust does.
 */
module Primitives {

  const U64_MAX: int := 0xFFFF_FFFF_FFFF_FFFF
  const I64_MIN: int := -0x8000_0000_0000_0000
  const I64_MAX: int := 0x7FFF_FFFF_FFFF_FFFF

  newtype u8 = x: int | 0 <= x < 0x100
  newtype u64 = x: int | 0 <= x <= U64_MAX
  newtype i64 = x: int | I64_MIN <= x <= I64_MAX

  /** An account address. Only ever compared for equality. */
  type Pubkey = nat

  datatype Option<+T> = None | Some(value: T)

  /** `u64::checked_add` */
  function CheckedAdd(a: u64, b: u64): (r: Option<u64>)
    ensures r.Some? <==> a as int + b as int <= U64_MAX
    ensures r.Some? ==> r.value as int - b as int == a as int
  {
    if a as int + b as int <= U64_MAX then Some((a as int + b as int) as u64) else None
  }

  /** `u64::checked_sub` */
  function CheckedSub(a: u64, b: u64): (r: Option<u64>)
    ensures r.Some? <==> b <= a
    ensures r.Some? ==> r.value as int + b as int == a as int
  {
    if b <= a then Some(a - b) else None
  }

  /** `i64::checked_sub` */
  function CheckedSubI64(a: i64, b: i64): (r: Option<i64>)
    ensures r.Some? <==> I64_MIN <= a as int - b as int <= I64_MAX
    ensures r.Some? ==> r.value as int + b as int == a as int
  {
    if I64_MIN <= a as int - b as int <= I64_MAX then Some((a as int - b as int) as i64) else None
  }
}
