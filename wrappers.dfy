/** Small failure-carrying datatypes shared by the rest of the model. */
module Wrappers {

  datatype Option<+T> = None | Some(value: T)

  datatype Result<+T, +E> = Success(value: T) | Failure(error: E)

  /** Go's `(value, error)` return pair: `err` is the error's message, or None when the
      call succeeded. Unlike Result, the value is present on both paths, as in Go. */
  datatype Returned<+T> = Returned(value: T, err: Option<string>)
}
