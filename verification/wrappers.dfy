/** Option and Result, the two shapes the system uses for "maybe absent"
    (a missing product, an omitted argument) and "refused with a message". */
module Wrappers {

  datatype Option<+T> = None | Some(value: T) {

    /** The value, or `default` when absent (a JavaScript default parameter). */
    function GetOr(default: T): T {
      match this
      case Some(v) => v
      case None => default
    }
  }

  datatype Result<+R, +E> = Success(value: R) | Failure(error: E)
}
