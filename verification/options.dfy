/** A value that may be absent. In this model `None` stands for the JavaScript
    `NaN` that `parseInt` yields for text that is not a number. */
module Options {

  datatype Option<+T> = None | Some(value: T) {

    /** Returns the value inside `Some`, or `default` for `None` */
    function GetOr(default: T): (r: T)
      ensures Some? ==> r == value
      ensures None? ==> r == default
    {
      match this
      case Some(v) => v
      case None => default
    }
  }
}
