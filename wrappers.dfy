/** Swift's optional values. */
module Wrappers {
  datatype Option<+T> = None | Some(value: T) {
    /** Swift's `x ?? fallback`. */
    function GetOr(fallback: T): T {
      match this
      case Some(v) => v
      case None => fallback
    }
  }
}
