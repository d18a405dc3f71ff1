/** Small failure-compatible wrappers shared by every calculator module. */
module Wrappers {

  /** A value that may be absent: an empty form field, a failed lookup, JavaScript `null`. */
  datatype Option<+T> = None | Some(value: T) {
    function GetOr(default: T): T {
      match this
      case Some(v) => v
      case None => default
    }
  }
}
