/** The outcome codes of the entity-store contract and the failure-compatible result type. */
module Results {

  datatype Option<+T> = None | Some(value: T)

  /** `result_code`: every operation of the entity store reports one of these. */
  datatype ResultCode =
    | Success | NotFound | Conflict | InvalidRequest | Unavailable | CommitUnknown | InternalError

  /** The codes an EntityError carries. */
  type ErrorCode = code: ResultCode | !code.Success? witness Conflict

  /** A C++ function that returns T or throws EntityError with a code. */
  datatype Result<+T> = Ok(value: T) | Err(code: ErrorCode) {
    predicate IsFailure() { Err? }

    function PropagateFailure<U>(): Result<U>
      requires Err?
    {
      Err(code)
    }

    function Extract(): T
      requires Ok?
    {
      value
    }
  }
}
