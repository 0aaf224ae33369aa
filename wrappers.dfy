/** Optional values, the model of Rust's `Option`. */
module Wrappers {

  datatype Option<+T> = None | Some(value: T) {

    /** `unwrap_or`: the value inside, or the given default. */
    function UnwrapOr(default: T): T {
      match this
      case Some(v) => v
      case None => default
    }

    /** `or_else`: this value if present, otherwise the alternative. */
    function OrElse(other: Option<T>): Option<T> {
      if Some? then this else other
    }
  }

  /** `slice.get(i)`: the element at `i`, or `None` when `i` is out of range. */
  function Get<T>(s: seq<T>, i: nat): (r: Option<T>)
    ensures r.Some? <==> i < |s|
    ensures r.Some? ==> r.value == s[i]
  {
    if i < |s| then Some(s[i]) else None
  }
}
