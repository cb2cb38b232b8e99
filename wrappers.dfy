/** Absent values and thrown errors of the modelled TypeScript code. */
module Wrappers {

  /** `undefined` (None) or a present value (Some). */
  datatype Option<+T> = None | Some(value: T) {

    /** The value, or `default` when absent: the `??` operator. */
    function GetOr(default: T): T {
      match this
      case Some(v) => v
      case None => default
    }
  }

  /** A value that was returned (Ok) or an exception that was thrown (Err). */
  datatype Result<+R, +E> = Ok(value: R) | Err(error: E)
}
