/** An optional value: JavaScript's `null` / `undefined` / `NaN` on one side, a value on the other. */
module Optional {

  datatype Option<+T> = None | Some(value: T) {

    /** The value, or `default` when there is none (JavaScript's `x || default` on strings
        behaves like this only when `x` is not the empty string; callers say which they mean). */
    function GetOr(default: T): T {
      match this
      case Some(v) => v
      case None => default
    }
  }
}
