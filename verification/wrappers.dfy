/** Optional values, used wherever the client may or may not hold something:
    a parsed body, an error code, a registered callback, a chosen rule. */
module Wrappers {

  datatype Option<+T> = None | Some(value: T) {

    /** Returns the value held, or `default` when there is none. */
    function GetOr(default: T): T {
      match this
      case Some(v) => v
      case None => default
    }
  }

  /** The first of two options that holds a value: an earlier value wins. */
  function OrElse<T>(first: Option<T>, second: Option<T>): (r: Option<T>)
    ensures first.Some? ==> r == first
    ensures first.None? ==> r == second
  {
    if first.Some? then first else second
  }
}
