/** Machine integer types and the failure-carrying wrappers used throughout the model. */
module Base {

  /** Rust's `u8`. */
  type byte = x: int | 0 <= x < 0x100

  /** Rust's `u16`. */
  type u16 = x: int | 0 <= x < 0x1_0000

  datatype Option<+T> = None | Some(value: T)

  datatype Result<+T, +E> = Ok(value: T) | Err(error: E)
}
