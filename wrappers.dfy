/** Optional values: a PHP value that may be unset or null. */
module Wrappers {

  datatype Option<+T> = None | Some(value: T) {

    /** The value, or the given default when unset (PHP's `?? default`). */
    function GetOr(default: T): T {
      match this
      case Some(v) => v
      case None => default
    }
  }
}
