/** The optional value used wherever the extension reads a possibly-missing
    field (`x ?? d`, `x || d`, a `find` that may come back empty). */
module Wrappers {

  datatype Option<+T> = None | Some(value: T) {

    /** The value, or `default` when there is none. */
    function GetOr(default: T): T {
      match this
      case Some(v) => v
      case None => default
    }
  }
}
