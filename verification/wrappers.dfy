/** Optional values, as the services use Python's None, and bytes. */
module Wrappers {

  /** One byte of a file or an HTTP body. */
  type byte = bv8

  datatype Option<+T> = None | Some(value: T) {

    /** Returns the wrapped value, or `default` for None (Python's `d.get(key, default)`). */
    function GetOr(default: T): T {
      match this
      case Some(v) => v
      case None => default
    }
  }
}
