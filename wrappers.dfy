/** Failure-carrying results and the fixed-width integer types of the wire vocabulary. */
module Wrappers {

  datatype Option<+T> = None | Some(value: T)

  /** The outcome of a Rust function returning `Result<T, E>`. */
  datatype Result<+T, +E> = Ok(value: T) | Err(error: E)

  /** Rust's `u16` (ping nonces). */
  type u16 = x: int | 0 <= x < 0x1_0000

  /** Rust's `u64` (the nonce type of the older vocabulary). */
  type u64 = x: int | 0 <= x < 0x1_0000_0000_0000_0000

  /** One byte of a stream. */
  type byte = x: int | 0 <= x < 0x100

  /** A count that is at least one. */
  type pos = n: nat | n > 0 witness 1
}
