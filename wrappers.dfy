/** Option and Result: absent values and thrown errors, as values. */
module Wrappers {

  datatype Option<+T> = None | Some(value: T)

  /** `Failure(error)` stands for a JavaScript exception carrying `error` as its message. */
  datatype Result<+R, +E> = Success(value: R) | Failure(error: E)
}
