/** Failure-compatible wrappers shared by the whole model.
    - Option<T> stands for a nullable reference (`null` is None).
    - Result<T> carries either a value or the exception the source throws.
 */
module Wrappers {

  datatype Option<+T> = None | Some(value: T) {

    /** The value, or `default` when absent (the source's `??` operator). */
    function GetOr(default: T): T {
      match this
      case Some(v) => v
      case None => default
    }
  }

  /** The exception classes the source throws and its controllers catch by type. */
  datatype Exn =
    | ArgumentException(message: string)
    | UnauthorizedAccessException(message: string)
    | GeneralException(message: string)

  datatype Result<+T> = Ok(value: T) | Err(error: Exn) {

    predicate IsFailure() {
      Err?
    }
  }
}
