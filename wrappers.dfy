/** Option and Result, used for the recorder's nullable fields and for the
    exceptions its capture pipeline raises. */
module Wrappers {

  /** A value that may be absent: Python's `None` for the recorder's optional fields. */
  datatype Option<+T> = None | Some(value: T)

  /** The outcome of an operation that may raise instead of returning. */
  datatype Result<+R, +E> = Success(value: R) | Failure(error: E)
}
