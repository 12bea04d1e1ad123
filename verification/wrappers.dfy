/** Failure-carrying datatypes shared by every module of the model. */
module Wrappers {

  /** A value that may be missing: an absent request field, a null column,
      a JavaScript `undefined`. */
  datatype Option<+T> = None | Some(value: T) {
    function GetOr(default: T): T {
      match this
      case Some(v) => v
      case None => default
    }
  }

  /** The outcome of a validator: the (possibly normalised) value, or the
      error the source raises. */
  datatype Result<+T, +E> = Ok(value: T) | Err(error: E)
}
