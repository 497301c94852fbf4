/** The exceptions the analyzer can raise, as values. */
module Errors {

  /** `IndexError`: a position outside the table or an empty column list;
      `KeyError`: a column that the table does not have. */
  datatype Error = IndexError | KeyError

  /** The outcome of an operation that may raise one of the errors above. */
  datatype Result<T> = Ok(value: T) | Err(error: Error) {

    predicate IsFailure() {
      Err?
    }

    function PropagateFailure<U>(): Result<U>
      requires Err?
    {
      Err(error)
    }

    function Extract(): T
      requires Ok?
    {
      value
    }
  }
}
