/** Absent-or-present values and success-or-exception outcomes. */
module Wrappers {

  /** `None` stands for JavaScript's `undefined`. */
  datatype Option<+T> = None | Some(value: T)

  /** `Failure` stands for an exception thrown out of a JavaScript call. */
  datatype Result<+R, +E> = Success(value: R) | Failure(error: E)
}
