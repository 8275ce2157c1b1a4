/** Optional values: a field that a document or a request body may leave out. */
module Wrappers {

  datatype Option<+T> = None | Some(value: T) {

    /** The carried value, or `fallback` when there is none. */
    function GetOr(fallback: T): T {
      match this
      case Some(v) => v
      case None => fallback
    }
  }
}
