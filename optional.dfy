/** The Some/None wrapper used for Python's `None` results and absent values. */
module Optional {
  datatype Option<+T> = None | Some(value: T) {
    /** The wrapped value, or the default when there is none (Python's `d.get(key, default)`: a present value is kept even when it is empty or false). */
    function GetOr(default: T): T {
      match this
      case Some(v) => v
      case None => default
    }
  }
}
