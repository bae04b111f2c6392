/** Option and Result, used for values that may be missing and for calls that may raise. */
module Wrappers {

  datatype Option<+T> = None | Some(value: T)

  /** The outcome of a call that either returns a value or raises an exception
      (carried as its message). */
  datatype Result<+T> = Success(value: T) | Failure(error: string)
}
