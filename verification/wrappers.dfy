/** Failure-compatible results for the two exceptions the percolation classes throw, also
    used for the union-find structure's rejection of an index outside its range. */
module Wrappers {

  /** IllegalArgumentException("Illegal n") and IndexOutOfBoundsException("Illegal i or j"). */
  datatype Error = IllegalArgument | IndexOutOfBounds

  /** Either the value an operation returns or the exception it throws. */
  datatype Result<+T> = Ok(value: T) | Err(error: Error) {

    predicate IsFailure() {
      Err?
    }

    function PropagateFailure<U>(): Result<U>
      requires Err?
    {
      Err(error)
    }

    function Extract(): T
      requires Ok?
    {
      value
    }
  }
}
