/** The optional values and outcomes the other modules share. */
module Options {

  datatype Option<+T> = None | Some(value: T) {
    function GetOr(default: T): T {
      if None? then default else value
    }
  }

  /** The outcome of an operation the source lets fail with an error. */
  datatype Result<+T, +E> = Ok(value: T) | Err(error: E)
}
