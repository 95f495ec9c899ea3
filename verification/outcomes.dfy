/** Optional values and fallible results, named after the Rust types the
    interpreter uses (`Option` and `Result`). */
module Outcomes {

  /** An absent or present value (Rust `Option<T>`). */
  datatype Option<+T> = None | Some(value: T)

  /** A success value or an error value (Rust `Result<T, E>`). */
  datatype Result<+T, +E> = Ok(value: T) | Err(error: E)
}
