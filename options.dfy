/** An optional value: a query-string or form field that may be missing. */
module Options {

  datatype Option<+T> = None | Some(value: T) {

    /** The value, or `default` when there is none. */
    function GetOr(default: T): (value: T) {
      match this
      case Some(v) => v
      case None => default
    }
  }
}
