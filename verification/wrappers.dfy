/** Failure-compatible wrappers used for the source's optional values and thrown errors. */
module Wrappers {

  /** An optional value: `undefined`/`null` in the source become `None`. */
  datatype Option<+T> = None | Some(value: T)

  /** The outcome of an operation that either returns a value or throws an error. */
  datatype Result<+R, +E> = Success(value: R) | Failure(error: E)
}
