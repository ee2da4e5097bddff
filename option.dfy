/** `T | null` and optional (`?:`) values. */
module Maybe {

  datatype Option<+T> = None | Some(value: T) {

    /** `x ?? d`, and `x || d` for values that are never falsy. */
    function GetOr(default: T): T
    {
      match this
      case Some(v) => v
      case None => default
    }
  }
}
