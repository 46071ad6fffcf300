/** The failures a step of the environment can raise, and a result type carrying them. */
module Results {

  /** The Python exceptions the core can raise: a missing dictionary key, an
      unparsable integer literal, a list index past the end. */
  datatype Error =
    | KeyError(key: string)
    | ValueError(literal: string)
    | IndexError(index: int)

  datatype Result<+T> = Ok(value: T) | Fail(error: Error)
}
