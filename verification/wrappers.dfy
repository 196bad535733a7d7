/** Optional values and results with an error, shared by the other modules. */
module Wrappers {

  /** A value that may be absent: a missing JSON field, `undefined` in JavaScript, an absent file. */
  datatype Option<+T> = None | Some(value: T)

  /** The outcome of a check that either accepts with a value or rejects with a reason. */
  datatype Result<+T, +E> = Ok(value: T) | Err(error: E)

  function OrElse<T>(o: Option<T>, default: T): (r: T)
    ensures o.None? ==> r == default
    ensures o.Some? ==> r == o.value
  {
    match o
    case Some(v) => v
    case None => default
  }
}
