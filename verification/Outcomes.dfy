/** Failure-compatible result types used by every operation of the model. */
module Outcomes {

  datatype Option<+T> = None | Some(value: T)

  /** The error returns of the Go services and of the repository. */
  datatype Error =
    | NotFound
    | Conflict
    | Forbidden
    | DuplicateId
    | AutoDisabled
    | Exhausted
    | BelowMinimum(minimum: int)
    | InvalidField(field: string)
    | Overflow
    | Interrupted

  datatype Result<+T> = Ok(value: T) | Err(error: Error) {
    predicate IsFailure() {
      Err?
    }

    function PropagateFailure<U>(): Result<U>
      requires Err?
    {
      Err(error)
    }

    function Extract(): T
      requires Ok?
    {
      value
    }
  }

  function Need(condition: bool, error: Error): Result<()> {
    if condition then Ok(()) else Err(error)
  }
}
