/** Shared vocabulary: optional values, results, and the saturating 64-bit
    counters the terminal service numbers its epochs and revisions with. */
module Common {

  datatype Option<+T> = None | Some(value: T)

  datatype Result<+T, +E> = Ok(value: T) | Err(error: E)

  const U64_MAX: int := 0xFFFF_FFFF_FFFF_FFFF

  type u64 = n: int | 0 <= n <= U64_MAX

  const U16_MAX: int := 0xFFFF

  type u16 = n: int | 0 <= n <= U16_MAX

  /** `saturating_add(1)` on an unsigned 64-bit counter. */
  function Bump(n: u64): (r: u64) {
    if n < U64_MAX then n + 1 else n
  }
}
