/** Option and Result shared by the workflow model. */
module Wrappers {

  /** An optional value: a Python `None`, or a key that is absent from a sparse record. */
  datatype Option<+T> = None | Some(value: T) {

    /** Returns the wrapped value, or `default` when there is none. */
    function GetOr(default: T): T {
      match this
      case Some(v) => v
      case None => default
    }
  }

  /** The outcome of a node: the value it returned, or the exception it raised. */
  datatype Result<+R, +E> = Returned(value: R) | Raised(error: E)
}
