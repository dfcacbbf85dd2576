/** Option and Result values shared by every module of the model, and the
    failures the modelled Python code raises. */
module Wrappers {

  datatype Option<+T> = None | Some(value: T)

  /** The exceptions the modelled code can raise: `ValueError` from
      `strptime` or `int()`, and `OverflowError` when date arithmetic
      leaves the years 1..9999. */
  datatype Error =
    | MalformedDate(text: string)
    | NotAnInteger(text: string)
    | DateOverflow

  datatype Result<+T> = Ok(value: T) | Err(error: Error) {
    predicate IsFailure() { Err? }

    function PropagateFailure<U>(): Result<U>
      requires Err?
    {
      Err(error)
    }

    function Extract(): T
      requires Ok?
    {
      value
    }
  }
}
