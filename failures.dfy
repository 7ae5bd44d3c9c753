/** The two ways the script can stop with an exception before it finishes,
    and the failure-compatible wrappers that carry them. */
module Failures {

  /** `DimensionalityError` is what pint raises when `.to(...)` is asked to
      convert between units of different dimensions; `ZeroDivision` is Python's
      `ZeroDivisionError` for a quantity divided by a zero magnitude. */
  datatype Error = DimensionalityError | ZeroDivision

  datatype Result<+T> = Ok(value: T) | Err(error: Error) {
    predicate IsFailure() {
      Err?
    }

    function PropagateFailure<U>(): Result<U>
      requires Err?
    {
      Err(error)
    }

    function Extract(): T
      requires Ok?
    {
      value
    }
  }

  datatype Option<+T> = None | Some(value: T)
}
