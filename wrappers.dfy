/** The optional value that stands for JavaScript's `undefined` / `null` results
    (a missing record entry, an unparsable date, no selected slot). */
module Wrappers {

  datatype Option<T> = None | Some(value: T) {

    /** The wrapped value, or `default` when there is none (JavaScript's `x || default`
        where `x` can only be missing, not falsy). */
    function GetOr(default: T): T {
      match this
      case Some(v) => v
      case None => default
    }
  }
}
