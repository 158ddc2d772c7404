/** Failure values for the exceptions the modelled code raises. */
module Results {

  /** One constructor per cause of an exception in the modelled code. */
  datatype Error =
    | BlankCommandLine         // ValueError: the command line is empty
    | TimeoutBelowOne          // ValueError: timeout < 1
    | RetryBelowOne            // ValueError: retry < 1
    | WrongFieldCount          // ValueError: a line does not split into exactly three fields
    | NotAnInteger             // ValueError: int() rejects a field
    | NegativeThreshold        // ValueError: the error threshold is negative
    | CommandParametersNotSet  // ValueError: an executor was given an empty list
    | ZeroKeyMissing           // KeyError: the count map has no entry for code 0
    | NoNonZeroCode            // StopIteration: nothing is left once code 0 is removed

  datatype Result<T> = Ok(value: T) | Err(error: Error)

  datatype Option<T> = None | Some(value: T)
}
