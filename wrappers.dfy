/** The optional value used wherever the source passes or stores a PHP null. */
module Wrappers {

  datatype Option<+T> = None | Some(value: T) {

    /** The PHP null-coalescing operator `??`: the value, or `default` for null. */
    function GetOr(default: T): T {
      match this
      case Some(v) => v
      case None => default
    }
  }
}
