/** The optional values and error-carrying results the plugin's Go code expresses
    with nil pointers and `(value, error)` pairs. */
module Wrappers {

  /** A value that may be absent: a Go pointer that may be nil. */
  datatype Option<+T> = None | Some(value: T)

  /** The outcome of a host call that returns either a value or an error. */
  datatype Result<+R, +E> = Success(value: R) | Failure(error: E)
}
