/** Failure-carrying values shared by the models: every error the modelled
    operations raise (a ValueError, or a lookup that finds nothing) becomes an
    `Err` or a `Fail`. */
module Common {

  datatype Option<+T> = None | Some(value: T)

  datatype Result<+T, +E> = Ok(value: T) | Err(error: E) {

    /** The success value, or `default` when the operation failed. */
    function GetOr(default: T): T {
      match this
      case Ok(v) => v
      case Err(_) => default
    }

    /** Forgets the success value. */
    function ToOutcome(): Outcome<E> {
      match this
      case Ok(_) => Pass
      case Err(e) => Fail(e)
    }
  }

  datatype Outcome<+E> = Pass | Fail(error: E)
}
