/** The machine integers the fabric is written in, and the few arithmetic
    helpers every component shares.  Values are mathematical integers with an
    explicit range; saturation is written out where the code saturates. */
module Machine {
  const U32_MAX: int := 0xFFFF_FFFF
  const U64_MAX: int := 0xFFFF_FFFF_FFFF_FFFF
  const U128_MAX: int := 0xFFFF_FFFF_FFFF_FFFF_FFFF_FFFF_FFFF_FFFF

  type u32 = x: int | 0 <= x <= U32_MAX
  type u64 = x: int | 0 <= x <= U64_MAX
  type u128 = x: int | 0 <= x <= U128_MAX

  /** No slice is longer than this. */
  const MAX_LEN: int := 0x7FFF_FFFF_FFFF_FFFF

  datatype Option<+T> = None | Some(value: T)

  datatype Result<+T, +E> = Ok(value: T) | Err(error: E)

  function Min(a: int, b: int): (r: int) {
    if a <= b then a else b
  }

  function Max(a: int, b: int): (r: int) {
    if a >= b then a else b
  }

  /** `v.max(lo).min(hi)`. */
  function Clamp(v: int, lo: int, hi: int): (r: int) {
    Min(Max(v, lo), hi)
  }

  function Sat32(x: nat): (r: u32) {
    if x <= U32_MAX then x else U32_MAX
  }

  function Sat64(x: nat): (r: u64) {
    if x <= U64_MAX then x else U64_MAX
  }

  function Ceil(r: real): (res: int) {
    if r == r.Floor as real then r.Floor else r.Floor + 1
  }
}
