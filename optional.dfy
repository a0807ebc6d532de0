/** The optional value that stands for JavaScript's `null` / `undefined`. */
module Optional {

  datatype Option<T> = None | Some(value: T) {

    /** `x ?? fallback`, and `x || fallback` where the present value is truthy. */
    function GetOr(fallback: T): T {
      match this
      case Some(v) => v
      case None => fallback
    }
  }
}
