/** Rust's `Option<T>` and `Result<T, E>`, as used by the modelled exercises. */
module Wrappers {

  datatype Option<+T> = None | Some(value: T)

  datatype Result<+T, +E> = Ok(value: T) | Err(error: E)
}
