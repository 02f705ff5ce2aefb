/** Option and Result values, used for the nullable references and the
    exceptions of the add-in. */
module Wrappers {

  /** A nullable reference: `None` is C#'s / JavaScript's `null`. */
  datatype Option<+T> = None | Some(value: T) {
    function GetOr(default: T): T {
      match this
      case Some(v) => v
      case None => default
    }
  }

  /** The message of a `NullReferenceException`. */
  const NullReference: string := "Object reference not set to an instance of an object."

  /** The outcome of a step that may throw: `Err` carries the exception message. */
  datatype Result<+T> = Ok(value: T) | Err(message: string) {
    predicate IsFailure() { Err? }
    function PropagateFailure<U>(): Result<U>
      requires Err?
    {
      Err(message)
    }
    function Extract(): T
      requires Ok?
    {
      value
    }
  }
}
