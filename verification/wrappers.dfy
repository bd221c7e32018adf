/** The optional values and request outcomes shared by the inventory model. */
module Wrappers {

  /** A value that may be absent: a nullable column, a failed lookup, a failed parse. */
  datatype Option<+T> = None | Some(value: T) {

    /** The wrapped value, or `default` when absent (Python's `x or default`). */
    function GetOr(default: T): T {
      match this
      case Some(v) => v
      case None => default
    }
  }

  /** The outcome of a request handler: a value on success, an error otherwise. */
  datatype Result<+R, +E> = Success(value: R) | Failure(error: E)
}
