/** Results and the errors a database operation can end with. */
module Outcomes {

  datatype Error =
    | InvalidCommand        // rejected before the database is touched
    | Verification          // stored data contradicts an invariant the operation relies on
    | TooLarge              // source-row budget exceeded
    | Storage               // the SQLite layer refuses the value or the constraint
    | Arithmetic            // an unchecked i64 operation leaves its range

  datatype Result<+T> = Ok(value: T) | Err(error: Error) {
    predicate IsFailure() { Err? }

    function PropagateFailure<U>(): Result<U>
      requires Err?
    {
      Err(error)
    }

    function Extract(): T
      requires Ok?
    {
      value
    }
  }

  datatype Option<+T> = None | Some(value: T)
}
