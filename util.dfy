/** Option and Result, the shapes of Rust's `Option<T>` and of the server's `E<T>` error type. */
module Util {
  datatype Option<T> = None | Some(value: T)

  datatype Result<T, E> = Ok(value: T) | Err(error: E)
}
