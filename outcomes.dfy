/** Optional values and the outcome of a call that may end in a Java exception. */
module Outcomes {

  /** A reference that may be null. */
  datatype Option<T> = None | Some(value: T)

  /** The kind of exception a Java call ends in. */
  datatype Failure =
    | NullPointer          // a missing map entry or a null field was dereferenced
    | IndexOutOfBounds     // List.get / List.set / array access outside the bounds
    | Arithmetic           // integer division by zero
    | IllegalState         // Matcher.group after a failed match
    | NoSuchElement        // iterator().next() on an empty collection
    | NumberFormat         // Double.parseDouble on text that is not a number
    | Unsupported(message: string)   // UnsupportedOperationException thrown by the code itself

  /** Either the value a call returns or the exception it throws. */
  datatype Result<T> = Ok(value: T) | Err(failure: Failure) {
    predicate IsFailure() { Err? }

    function PropagateFailure<U>(): Result<U>
      requires Err?
    {
      Err(failure)
    }

    function Extract(): T
      requires Ok?
    {
      value
    }
  }
}
