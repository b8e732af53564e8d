/** Optional values, used for optional DTO fields, optional envelope keys and
    outcomes that may end in a thrown TypeError. */
module Wrappers {

  datatype Option<+T> = None | Some(value: T) {

    /** The wrapped value, or `default` when there is none. */
    function GetOr(default: T): T {
      match this
      case Some(v) => v
      case None => default
    }
  }
}
