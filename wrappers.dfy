/** Optional values, standing for JavaScript's `undefined`/`null` and Python's missing keys. */
module Wrappers {
  datatype Option<+T> = None | Some(value: T) {
    function GetOr(default: T): T {
      match this
      case Some(v) => v
      case None => default
    }
  }
}
