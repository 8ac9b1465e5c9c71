/** Failure-compatible wrappers shared by every module of the model:
    `Option` stands for a TypeScript value that may be `undefined` or `null`,
    `Result` for a call that either returns a value or throws. */
module Wrappers {

  datatype Option<+T> = None | Some(value: T)

  datatype Result<+R, +E> = Success(value: R) | Failure(error: E)
}
