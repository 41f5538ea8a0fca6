/** The values that may be absent: a JavaScript `null`, `undefined` or non-finite number. */
module Wrappers {

  datatype Option<+T> = None | Some(value: T) {

    /** The value, or the default when there is none. */
    function GetOr(default: T): T
    {
      match this
      case Some(v) => v
      case None => default
    }
  }
}
