/** Option and Result, used for the source's nullable values and for its error paths. */
module Wrappers {

  /** A value that may be absent (a C# `null` or a `Nullable<T>` without a value). */
  datatype Option<+T> = None | Some(value: T) {

    /** The value, or `default` when absent: the C# `??` operator. */
    function GetOr(default: T): T {
      match this
      case Some(v) => v
      case None => default
    }
  }

  /** `a ?? b`: the first of the two that is present. */
  function Coalesce<T>(a: Option<T>, b: Option<T>): (r: Option<T>)
    ensures r.Some? <==> a.Some? || b.Some?
    ensures a.Some? ==> r == a
    ensures a.None? ==> r == b
  {
    if a.Some? then a else b
  }

  /** A computation that either produced a value or failed with an error. */
  datatype Result<+R, +E> = Success(value: R) | Failure(error: E)
}
