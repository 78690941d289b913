/** Option and error-carrying outcome types shared by every module of the model. */
module Base {

  /** A value that may be absent; models a Go pointer that may be nil. */
  datatype Option<+T> = None | Some(value: T)

  /** Errors are opaque messages: the model only propagates or swallows them. */
  type Error = string

  /** The `(value, error)` pair a Go function returns, with exactly one side present. */
  datatype Outcome<+T> = Ok(value: T) | Err(error: Error)

  /** The value of a successful outcome, or `default` for a failed one. */
  function OrElse<T>(o: Outcome<T>, default: T): T
  {
    match o
    case Ok(v) => v
    case Err(_) => default
  }
}
