/** Option and Result, the two failure-compatible wrappers the model uses. */
module Wrappers {

  /** A value that may be absent: the model's stand-in for a nullable string field. */
  datatype Option<+T> = None | Some(value: T)

  /** A value or the error that replaced it. */
  datatype Result<+T, +E> = Ok(value: T) | Err(error: E)
}

/** The ways the dashboard's check can stop with an unhandled exception. */
module Faults {

  datatype Fault =
    | EmptySkipFile     // skip.envy exists but holds no line: ReadLines(..).First() throws
    | NoVersionOnPage   // the driver page has no `Windows/NNN.NN`: matches[0] is out of range
    | NoLocalVersion    // the local driver version is null: float.Parse(null) throws
    | Unparsable        // neither the plain nor the `.`-to-`,` retry parses a version
}
