/** Option and Result values standing for Java's nulls and exceptions. */
module Wrappers {

  datatype Option<T> = None | Some(value: T)

  /** The exceptions the modelled code throws, by kind. */
  datatype Exception =
    | IllegalArgument
    | FileFormat
    | FileNotFound
    | IndexOutOfBounds
    | NoSuchElement
    | NullPointer
    | NumberFormat
    | ChartNotFound
    | EmptyRequest
    | ConcurrentModification

  /** The outcome of a void method: it returned, or it threw. */
  datatype Outcome = Pass | Fail(error: Exception)

  datatype Result<T> = Ok(value: T) | Err(error: Exception)
  {
    predicate IsFailure() { Err? }

    function PropagateFailure<U>(): Result<U>
      requires Err?
    {
      Err(error)
    }

    function Extract(): T
      requires Ok?
    {
      value
    }
  }
}
