/** Option, Result and the failures the modelled Python code raises. */
module Outcomes {

  datatype Option<+T> = None | Some(value: T)

  /** The exception classes the core raises. `raise NotImplemented(...)` in the
      source is modelled as NotImplementedCase (the configuration enum or input
      form is not supported). */
  datatype Failure =
    | NotImplementedCase
    | RuntimeFailure
    | IndexFailure
    | ValueFailure
    | KeyFailure
    | TypeFailure
    | AttributeFailure

  datatype Result<+T> = Ok(value: T) | Err(error: Failure) {
    predicate IsFailure() { Err? }

    function PropagateFailure<U>(): Result<U>
      requires Err?
    {
      Err(error)
    }

    function Extract(): T
      requires Ok?
    {
      value
    }
  }

  /** Success or failure of an operation that changes state and returns nothing. */
  datatype Outcome = Pass | Fail(error: Failure)
}
