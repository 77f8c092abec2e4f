/** Option and Result, for null values and for exceptions the modelled code can raise. */
module Wrappers {

  datatype Option<+T> = None | Some(value: T)

  /** The value a call produced, or the message of the exception it threw. */
  datatype Result<+T> = Success(value: T) | Failure(error: string)
}
