/** Failure-compatible wrappers shared by every module of the model.
    - Option<T>: a value that JavaScript would leave `undefined`.
    - Outcome<T>: a computation that either returns a value or throws (an
      exception or a rejected promise) with a message.
    - ErrorsAnd<T>: the `ErrorsAnd` union of the source, a value or a list
      of error messages. */
module Wrappers {

  datatype Option<+T> = None | Some(value: T) {
    function GetOr(default: T): T {
      match this
      case Some(v) => v
      case None => default
    }
  }

  datatype Outcome<+T> = Returns(value: T) | Throws(message: string) {
    predicate IsFailure() {
      Throws?
    }

    function PropagateFailure<U>(): Outcome<U>
      requires Throws?
    {
      Throws(message)
    }

    function Extract(): T
      requires Returns?
    {
      value
    }
  }

  datatype ErrorsAnd<+T> = Value(value: T) | Errors(errors: seq<string>)
}
