/** Fixed-width integers, bytes and the two failure datatypes the other modules share. */
module Core {

  const MAX_U16: int := 0xFFFF
  const MAX_U32: int := 0xFFFF_FFFF
  const MAX_U64: int := 0xFFFF_FFFF_FFFF_FFFF

  type byte = x: int | 0 <= x < 256
  type u16 = x: int | 0 <= x <= 0xFFFF
  type u32 = x: int | 0 <= x <= 0xFFFF_FFFF
  type u64 = x: int | 0 <= x <= 0xFFFF_FFFF_FFFF_FFFF

  datatype Option<+T> = None | Some(value: T)

  datatype Result<+T, +E> = Ok(value: T) | Err(error: E)

  function Min(a: int, b: int): int {
    if a <= b then a else b
  }

  function Max(a: int, b: int): int {
    if a <= b then b else a
  }

  /** `a.saturating_sub(b)` on an unsigned type. */
  function SatSub(a: nat, b: nat): nat {
    if a <= b then 0 else a - b
  }

  /** `x.saturating_add(1)` on `u32`. */
  function SatSucc(x: u32): u32 {
    if x == MAX_U32 then x else x + 1
  }

  /** `x.wrapping_add(1)` on `u32`. */
  function WrapSucc(x: u32): u32 {
    if x == MAX_U32 then 0 else x + 1
  }

  lemma MulMonotone(a: int, b: int, s: nat)
    requires a <= b
    ensures a * s <= b * s
  {
  }
}
