/** An optional value: a field the service may leave out, a JavaScript
    `undefined`/`null`, or the `NaN` that `parseInt` returns for a
    string that is not a number. */
module Optional {

  datatype Option<+T> = None | Some(value: T) {

    /** The value, or `default` when there is none (JavaScript's `x ?? d`). */
    function GetOr(default: T): T {
      match this
      case Some(v) => v
      case None => default
    }
  }
}
