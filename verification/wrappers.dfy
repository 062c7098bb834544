/** The optional value shared by the whole model. */
module Wrappers {

  /** A JavaScript value that may be `undefined`: `None` stands for a missing field. */
  datatype Option<+T> = None | Some(value: T) {

    /** The `x || default` idiom applied to a possibly missing value. */
    function GetOr(default: T): (r: T)
      ensures Some? ==> r == value
      ensures None? ==> r == default
    {
      match this
      case Some(v) => v
      case None => default
    }
  }
}
