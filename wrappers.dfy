/** Results of operations that can raise.  `Error` names the Python exception
    class an operation raises; `Result` and `Outcome` carry either the value
    (or plain success) or that exception. */
module Wrappers {

  /** The exception classes raised by the modelled code.  `InvalidCoordinate`
      stands for the error the A1 label parser raises on a malformed label. */
  datatype Error =
    | ValueError
    | TypeError
    | IndexError
    | KeyError
    | NameError
    | LookupError
    | AttributeError
    | OverflowError
    | AssertionError
    | InvalidCoordinate

  datatype Option<+T> = None | Some(value: T)

  datatype Result<+T> = Ok(value: T) | Err(error: Error) {
    predicate IsFailure() { Err? }

    function PropagateFailure<U>(): Result<U>
      requires Err?
    {
      Err(error)
    }

    function Extract(): T
      requires Ok?
    {
      value
    }
  }

  /** The outcome of an operation that returns nothing (Python `None`) or raises. */
  datatype Outcome = Pass | Fail(error: Error) {
    predicate IsFailure() { Fail? }

    function PropagateFailure(): Outcome
      requires Fail?
    {
      this
    }
  }
}
