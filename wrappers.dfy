/** Option and Result values shared by the markdown helpers and the PTY registry. */
module Wrappers {

  /** Rust's Option<T>. */
  datatype Option<+T> = None | Some(value: T)

  /** Rust's Result<T, String>: every error in this code base is a plain string. */
  datatype Result<+T> = Ok(value: T) | Err(error: string)
}
