/** Values that may be missing and operations that may raise. */
module Results {

  datatype Option<+T> = None | Some(value: T)

  /** What the validators and backends raise; a FormatError is whatever `str.format` raises. */
  datatype Error = ValidationError | ValueError | KeyError | TypeError | AssertionError | AttributeError | FormatError

  datatype Result<+T> = Ok(value: T) | Err(error: Error) {
    predicate IsFailure() { Err? }

    function PropagateFailure<U>(): Result<U>
      requires Err?
    {
      Err(error)
    }

    function Extract(): T
      requires Ok?
    {
      value
    }
  }

  /** A Python `assert`, or a check that raises. */
  function Check(condition: bool, error: Error): Result<()> {
    if condition then Ok(()) else Err(error)
  }
}
