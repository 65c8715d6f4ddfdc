/** Failure-carrying values used in place of the exceptions the program raises. */
module Wrappers {

  datatype Option<+T> = None | Some(value: T)

  /** A value, or the error the operation raised instead. */
  datatype Result<+R, +E> = Success(value: R) | Failure(error: E)

  /** Completion of an operation that returns nothing, or the error it raised. */
  datatype Outcome<+E> = Pass | Fail(error: E)
}
