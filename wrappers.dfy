/** Failure-carrying result types shared by the whole model. */
module Wrappers {

  /** A value that may be absent: Java's `null` reference. */
  datatype Option<+T> = None | Some(value: T)

  /** A returned value or a thrown exception. */
  datatype Result<+R, +E> = Success(value: R) | Failure(error: E)

  /** A call that returns nothing or throws. */
  datatype Outcome<+E> = Pass | Fail(error: E)
}
