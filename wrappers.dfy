/** Failure-carrying wrappers used across the model: `Option` for JavaScript's
    `null`/`undefined` results and `Result` for the paths that throw. */
module Wrappers {
  datatype Option<+T> = None | Some(value: T)

  datatype Result<+T, +E> = Ok(value: T) | Err(error: E)
}
