/** Option: a Java `null`, and, where a function says so, a thrown exception. */
module Wrappers {

  /** A Java reference that may be `null`. */
  datatype Option<+T> = None | Some(value: T) {
    function GetOr(default: T): T {
      match this
      case Some(v) => v
      case None => default
    }
  }
}
