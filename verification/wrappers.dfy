/** Failure-carrying datatypes used in place of Java's `null` results and
    thrown exceptions. */
module Wrappers {

  /** A value or nothing: `None` stands for a Java `null` result. */
  datatype Option<+T> = None | Some(value: T)

  /** A value, or the error that aborted the computation (a thrown exception). */
  datatype Result<+R, +E> = Success(value: R) | Failure(error: E)
}
