/** Failure-carrying results for the address algebra: the exceptions the
    C# library throws become explicit error values. */
module Outcomes {

  datatype Option<+T> = None | Some(value: T)

  /** The exceptions of the address algebra:
      - FormatError: address text that does not follow the A1 grammar;
      - IndexOutOfRange: the IndexOutOfRangeException of Offset and GetCell;
      - EmptySequence: a bounding range asked of no addresses at all. */
  datatype Error = FormatError | IndexOutOfRange | EmptySequence

  datatype Result<+T> = Ok(value: T) | Err(error: Error) {

    predicate IsFailure() {
      Err?
    }

    function PropagateFailure<U>(): Result<U>
      requires Err?
    {
      Err(error)
    }

    function Extract(): T
      requires Ok?
    {
      value
    }
  }
}
