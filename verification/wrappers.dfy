/** Failure-carrying values used in place of Go's `(value, error)` pairs
    and bare `error` returns. Errors are the message strings Go would print. */
module Wrappers {

  /** A possibly absent value: a nil pointer, a missing map entry. */
  datatype Option<+T> = None | Some(value: T)

  /** A value or the error that replaced it. */
  datatype Result<+T> = Ok(value: T) | Err(error: string) {
    function ToOutcome(): (o: Outcome)
      ensures o.Pass? <==> Ok?
    {
      match this
      case Ok(_) => Pass
      case Err(e) => Fail(e)
    }
  }

  /** A Go `error` return with no value: nil is `Pass`. */
  datatype Outcome = Pass | Fail(error: string)
}
