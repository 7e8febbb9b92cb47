/** Failure-carrying datatypes shared by the whole model: `Option` for values
    the program represents as `None`, and `Result` for operations that raise. */
module Wrappers {

  datatype Option<+T> = None | Some(value: T) {

    /** The wrapped value, or `default` when there is none. */
    function GetOr(default: T): T {
      match this
      case Some(v) => v
      case None => default
    }
  }

  /** `Failure` stands for the exception the source raises. */
  datatype Result<+R, +E> = Success(value: R) | Failure(error: E)
}
