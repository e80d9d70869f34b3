/** A value that may be absent: the model's stand-in for JavaScript's
    `undefined` and for a handler that returns early without producing anything. */
module Wrappers {

  datatype Option<+T> = None | Some(value: T) {

    /** The wrapped value, or `default` when absent (JavaScript's `x || default`
        for a value that is either an object or `undefined`). */
    function GetOr(default: T): T {
      match this
      case Some(v) => v
      case None => default
    }
  }
}
