/** Failure-compatible result types shared by every module of the model.
    A Python exception raised by the source becomes a `Failure` carrying the
    kind of error that would have been raised. */
module Wrappers {

  datatype Option<+T> = None | Some(value: T) {
    predicate IsFailure() { None? }

    function PropagateFailure<U>(): Option<U>
      requires None?
    {
      None
    }

    function Extract(): T
      requires Some?
    {
      value
    }
  }

  /** The exceptions the modelled code can raise. */
  datatype Error =
    | MissingKey(key: string)       // KeyError on a dict lookup
    | WrongType(field: string)      // TypeError / AttributeError on a value of the wrong kind
    | NoMatch(input: string)        // a regex `match` returned None and the code used it anyway
    | BadFormat(template: string)   // ValueError / IndexError raised by str.format

  datatype Result<+R> = Success(value: R) | Failure(error: Error) {
    predicate IsFailure() { Failure? }

    function PropagateFailure<U>(): Result<U>
      requires Failure?
    {
      Failure(error)
    }

    function Extract(): R
      requires Success?
    {
      value
    }
  }
}
