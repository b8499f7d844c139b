// Options and results: the source's `undefined` and its `Result<T, AuthError>`.
module Wrappers {
  datatype Option<+T> = None | Some(value: T)

  datatype Result<+T, +E> = Ok(value: T) | Err(error: E)
}
