/** Optional values: stands for JavaScript's `undefined`/`null` where the source tests for them. */
module Wrappers {

  datatype Option<+T> = None | Some(value: T) {
    function GetOr(default: T): T {
      match this
      case Some(v) => v
      case None => default
    }
  }
}
