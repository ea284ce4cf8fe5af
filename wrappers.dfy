/** Option and Result: the model's stand-ins for Python's `None` and for
    exceptions that a caller catches. */
module Wrappers {

  datatype Option<+T> = None | Some(value: T)

  /** `Failure(e)` is the model of an exception whose `str(e)` is `e`. */
  datatype Result<+R, +E> = Success(value: R) | Failure(error: E)
}
