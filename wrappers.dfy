/** Option and Result, the two wrapper types the Rust program relies on
    (`Option<T>` and `anyhow::Result<T>`). */
module Wrappers {

  datatype Option<+T> = None | Some(value: T)

  /** `Ok(value)` or `Err(error)`; for the parser the error is the
      user-facing message text. */
  datatype Result<+T, +E> = Ok(value: T) | Err(error: E)
}
