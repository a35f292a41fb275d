/** Failure-compatible wrappers used across the model: an optional value
    (TypeScript's `T | undefined` / `T | null`), the result of an operation
    that may throw, and the pass/fail outcome of a guard that only throws. */
module Wrappers {

  datatype Option<+T> = None | Some(value: T)

  datatype Result<+R, +E> = Success(value: R) | Failure(error: E)

  datatype Outcome<+E> = Pass | Fail(error: E)
}
