/** Option and Result values, used for the migration scripts' missing values and raised exceptions. */
module Wrappers {

  datatype Option<+T> = None | Some(value: T) {
    function GetOr(default: T): T
    {
      match this
      case Some(v) => v
      case None => default
    }
  }

  /** `Failure` stands for a Python exception that leaves the operation. */
  datatype Result<+R> = Success(value: R) | Failure(reason: string)
}
