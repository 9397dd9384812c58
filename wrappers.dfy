/** Optional values: `None` stands for a JavaScript `null` or `undefined`. */
module Wrappers {

  datatype Option<+T> = None | Some(value: T) {

    /** The wrapped value, or `default` when absent (JavaScript's `x || default` on objects). */
    function GetOr(default: T): T {
      match this
      case Some(v) => v
      case None => default
    }
  }

  /** The list held in an optional slot, or the empty list (JavaScript's `xs || []`). */
  function ListOf<T>(xs: Option<seq<T>>): seq<T> {
    match xs
    case Some(s) => s
    case None => []
  }

  /** `after` is the list `before` (absent counting as empty) with exactly `x` appended at the end. */
  predicate Appended<T(==)>(before: Option<seq<T>>, after: Option<seq<T>>, x: T) {
    after == Some(ListOf(before) + [x])
  }
}
