/** Optional values: `None` stands for JavaScript's null/undefined answer, for a
    rejected call or for an exception thrown on the way. */
module Wrappers {

  datatype Option<+T> = None | Some(value: T) {

    /** The wrapped value, or `default` when there is none (JavaScript's `x ?? default`
        once null and undefined have both been mapped to `None`). */
    function GetOr(default: T): T {
      match this
      case Some(v) => v
      case None => default
    }
  }
}
