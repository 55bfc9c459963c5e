/** Option and Result types shared by the model, usable with `:-`. */
module Wrappers {

  datatype Option<+T> = None | Some(value: T)

  /** The one exception the extraction code can raise: Python's `float()`
      rejecting a token that is not a decimal literal. */
  datatype Error = ValueError

  datatype Result<+T> = Ok(value: T) | Err(error: Error) {
    predicate IsFailure() {
      Err?
    }

    function PropagateFailure<U>(): Result<U>
      requires Err?
    {
      Err(error)
    }

    function Extract(): T
      requires Ok?
    {
      value
    }
  }
}
