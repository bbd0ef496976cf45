/** Failure-compatible wrappers used throughout the model.

  Java `null` is modelled by `Option.None`; a thrown exception is modelled by
  `Result.Failure` carrying the exception class that the extractor throws (or
  that the JDK throws on its behalf) and its message.
*/
module Wrappers {

  datatype Option<+T> = None | Some(value: T) {
    predicate IsFailure() {
      None?
    }

    function PropagateFailure<U>(): Option<U>
      requires None?
    {
      None
    }

    function Extract(): T
      requires Some?
    {
      value
    }

    function GetOr(default: T): T {
      match this
      case Some(v) => v
      case None() => default
    }
  }

  /** The exceptions the modelled code can raise. */
  datatype Error =
    | IllegalState(message: string)
    | IllegalArgument(message: string)
    | NoSuchElement(message: string)
    | NullPointer(message: string)
    | IndexOutOfBounds(message: string)
    | UnsupportedOperation(message: string)
    | FileAlreadyExists(name: string)
    | FileNotFound(name: string)

  datatype Result<+T> = Success(value: T) | Failure(error: Error) {
    predicate IsFailure() {
      Failure?
    }

    function PropagateFailure<U>(): Result<U>
      requires Failure?
    {
      Failure(error)
    }

    function Extract(): T
      requires Success?
    {
      value
    }
  }
}
