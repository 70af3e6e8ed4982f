/** Absence as a value: the model's stand-in for JavaScript's `undefined`
    and `null` results. */
module Optional {

  datatype Option<+T> = None | Some(value: T) {

    /** The wrapped value, or `default` when absent (the `x || default` idiom
        for values whose only falsy form is absence). */
    function GetOr(default: T): T {
      match this
      case Some(v) => v
      case None => default
    }
  }
}
