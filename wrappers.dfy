/** The failure-compatible wrappers the rest of the model uses for PHP's
    nullable values and for the exceptions a database call can raise. */
module Wrappers {

  /** A PHP value that may be `null`. */
  datatype Option<+T> = None | Some(value: T) {
    /** PHP's null-coalescing operator `$this ?? default`. */
    function OrElse(default: T): T {
      match this
      case Some(v) => v
      case None => default
    }
  }

  /** The outcome of a call that either returns normally or throws. */
  datatype Result<+T, +E> = Ok(value: T) | Err(error: E)
}
