/** Small failure-carrying datatypes shared by the model. */
module Results {

  /** An optional value. */
  datatype Option<+T> = None | Some(value: T)

  /** A value or the error that stopped it being computed. */
  datatype Result<+T, +E> = Success(value: T) | Failure(error: E)

  /** The answer of a parser that only says whether its input parses:
      a Go function returning a nil or a non-nil `error`. */
  datatype Outcome = Pass | Fail(cause: string)
}
