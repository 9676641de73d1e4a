/** Option and Result values: the model's stand-ins for `null` and for a thrown `Error`. */
module Wrappers {

  datatype Option<+T> = None | Some(value: T) {
    /** The value, or `default` when absent (the `??` and `||` fallbacks of the source). */
    function GetOr(default: T): T {
      match this
      case Some(v) => v
      case None => default
    }
  }

  /** A computation that either returns a value or throws an `Error` whose message is `message`. */
  datatype Result<+T> = Ok(value: T) | Err(message: string)
}
