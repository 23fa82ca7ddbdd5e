/** Option and result types shared by every module of the model. */
module Wrappers {

  /** `None` stands for an absent field or value (`undefined` in the source). */
  datatype Option<+T> = None | Some(value: T) {

    /** The value, or `default` when absent. */
    function GetOr(default: T): T {
      match this
      case Some(v) => v
      case None => default
    }
  }

  /** The outcome of code that may throw: a returned value, or the error thrown. */
  datatype Result<+T> = Success(value: T) | Failure(error: string)
}
