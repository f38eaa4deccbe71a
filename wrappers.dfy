/** The optional-value datatype used for `T | undefined` and `T | null`. */
module Wrappers {

  datatype Option<T> = None | Some(value: T) {

    function GetOr(default: T): T {
      match this
      case Some(v) => v
      case None => default
    }
  }
}
