/** Optional values: a nullable column, a missing row, a result that may be absent. */
module Wrappers {

  datatype Option<+T> = None | Some(value: T)

  /** SQL's coalesce on two nullable columns. */
  function Coalesce<T>(first: Option<T>, second: Option<T>): Option<T> {
    if first.Some? then first else second
  }

  datatype Result<+T, +E> = Ok(value: T) | Err(error: E)
}
