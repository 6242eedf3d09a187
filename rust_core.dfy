/** The Rust primitive types the crate is written over: fixed-width unsigned
    integers, `Option<T>`, and `std::cmp::min`. */
module RustCore {

  const U32_MAX: int := 0xFFFF_FFFF
  const U64_MAX: int := 0xFFFF_FFFF_FFFF_FFFF

  /** Rust's `u32`. Arithmetic on it is checked: an overflow is a proof failure. */
  newtype U32 = x: int | 0 <= x <= 0xFFFF_FFFF

  /** Rust's `u64`. */
  newtype U64 = x: int | 0 <= x <= 0xFFFF_FFFF_FFFF_FFFF

  /** Rust's `Option<T>`. */
  datatype Option<+T> = None | Some(value: T)

  /** `std::cmp::min` on `u32`: the smaller of the two, and one of them. */
  function Min(a: U32, b: U32): (r: U32)
    ensures r <= a && r <= b
    ensures r == a || r == b
  {
    if a <= b then a else b
  }
}
