/** Failure-carrying results used across the model: `Option` for the source's
    `null`/`undefined`, `Result` for an operation that can throw. */
module Wrappers {

  datatype Option<+T> = None | Some(value: T)

  datatype Result<+R, +E> = Success(value: R) | Failure(error: E)
}
