/** Kotlin's nullable values (`T?`) with the elvis operator `?:` as GetOr. */
module Wrappers {

  datatype Option<+T> = None | Some(value: T) {

    /** `this ?: default` */
    function GetOr(default: T): (r: T)
      ensures Some? ==> r == value
      ensures None? ==> r == default
    {
      match this
      case Some(v) => v
      case None => default
    }
  }
}
