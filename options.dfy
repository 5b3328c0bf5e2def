/** An optional value. In this model `None` stands for JavaScript's `undefined`
    (an absent field or route parameter) and, for numbers, for `NaN`. */
module Options {

  datatype Option<+T> = None | Some(value: T) {

    /** The value, or `default` when absent: JavaScript's `x ?? default`. */
    function GetOr(default: T): T {
      match this
      case Some(v) => v
      case None => default
    }
  }
}
