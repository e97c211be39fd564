/** Optional values: the model's stand-in for JavaScript's `null` / `undefined`. */
module Wrappers {

  datatype Option<+T> = None | Some(value: T) {

    /** The wrapped value, or the given default when there is none. */
    function GetOr(default: T): T {
      match this
      case Some(v) => v
      case None => default
    }
  }

  /** The outcome of one store query: an error, or the data it returned. */
  datatype Query<T> = QueryError | QueryOk(data: T)
}
