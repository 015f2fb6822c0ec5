/** The optional-value and error-return types of the model. */
module Wrappers {

  /** An optional value: `None` stands for Go's "not present" / `ok == false`. */
  datatype Option<+T> = None | Some(value: T)

  /** A string-or-error return, the model of Go's `(string, error)` pair. */
  datatype Result<+R, +E> = Success(value: R) | Failure(error: E)

  /** An error-only return, the model of a Go function returning `error`. */
  datatype Outcome<+E> = Pass | Fail(error: E)
}
