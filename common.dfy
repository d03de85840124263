// Failure-carrying values shared by the modules of this model.
module Common {

  /** A value that may be absent: a missing spreadsheet cell, or a date
      arithmetic step that Python's `datetime` refuses. */
  datatype Option<+T> = None | Some(value: T)

  /** The outcome of a pipeline step that either yields a value or stops with
      an error (an exception or an early `sys.exit` in the program). */
  datatype Result<+T, +E> = Ok(value: T) | Err(error: E)
}
