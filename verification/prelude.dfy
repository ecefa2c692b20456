/** Rust's `Option` and `Result`, and the fixed-width integers the program uses. */
module Prelude {

  /** Rust's `Option<T>`. */
  datatype Option<+T> = None | Some(value: T)

  /** Rust's `Result<T, E>`. */
  datatype Result<+T, +E> = Ok(value: T) | Err(error: E)

  /** Rust's unit value `()`. */
  datatype Unit = Unit

  const U32_MODULUS: int := 0x1_0000_0000

  /** An unsigned 32-bit integer (`u32`). */
  type u32 = x: int | 0 <= x < U32_MODULUS

  /** An unsigned 64-bit integer (`u64`). */
  type u64 = x: int | 0 <= x < 0x1_0000_0000_0000_0000

  /** Rust's `n as u32` on an unsigned length: keeps the low 32 bits. */
  function AsU32(n: nat): (r: u32)
    ensures n < U32_MODULUS ==> r == n
    ensures r <= n
    ensures (n - r) % U32_MODULUS == 0
  {
    n % U32_MODULUS
  }

  /** The half-open range `start..end` of Rust. */
  datatype Range = Range(start: int, end: int)
}
