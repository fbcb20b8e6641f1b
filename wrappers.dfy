/** Option and Result types shared by the whole model, and the Python
    exceptions that the modelled code raises on bad input. */
module Wrappers {

  datatype Option<+T> = None | Some(value: T)

  /** The exception a failing Python operation raises. */
  datatype Error =
    | KeyError(key: string)
    | TypeError(what: string)
    | ValueError(what: string)
    | AttributeError(what: string)

  /** A computation that either returns a value or raises an exception. */
  datatype Result<+T> = Ok(value: T) | Err(error: Error) {

    predicate IsFailure() {
      Err?
    }

    function PropagateFailure<U>(): Result<U>
      requires Err?
    {
      Err(error)
    }

    function Extract(): T
      requires Ok?
    {
      value
    }
  }
}
