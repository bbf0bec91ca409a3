/** Failure-compatible wrappers shared by the whole model. */
module Wrappers {

  /** A value that may be absent: Ruby's `nil`, Go's missing map entry. */
  datatype Option<+T> = None | Some(value: T) {

    function GetOr(default: T): T {
      match this
      case Some(v) => v
      case None => default
    }
  }
}
