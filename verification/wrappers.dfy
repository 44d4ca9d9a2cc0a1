/** Option, the stand-in for JavaScript's null / undefined in every module. */
module Wrappers {

  datatype Option<+T> = None | Some(value: T) {

    /** The value, or a default when absent (JavaScript's `x ?? d`). */
    function GetOr(default: T): T {
      match this
      case Some(v) => v
      case None => default
    }
  }
}
