/** Optional values: the model of a document field or request field that may be
    absent (`undefined` in the application's JSON). */
module Wrappers {

  datatype Option<+T> = None | Some(value: T) {

    /** The value, or `default` when absent (the application's `x || default`
        on a field whose present values are all truthy). */
    function GetOr(default: T): T {
      match this
      case Some(v) => v
      case None => default
    }
  }
}
