/** The value types every other module shares: Rust's `Option` and `Result`, and the 64-bit machine word. */
module Wrappers {

  datatype Option<+T> = None | Some(value: T)

  datatype Result<+T, +E> = Ok(value: T) | Err(error: E)

  const WORD_LIMIT: int := 0x1_0000_0000_0000_0000

  /** A `u64`, or a `usize` on this machine: an integer with its width stated. */
  type Word = w: int | 0 <= w < WORD_LIMIT
}
