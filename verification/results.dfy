/** Failure-compatible wrappers used throughout the model: `Option` for an
    optional value, `Result` for a computation that either returns a value or
    raises an error (the model's stand-in for a thrown exception). */
module Results {

  datatype Option<+T> = None | Some(value: T)

  datatype Result<+R, +E> = Success(value: R) | Failure(error: E) {

    /** The success value, or `default` when the computation raised. */
    function GetOr(default: R): R
    {
      match this
      case Success(v) => v
      case Failure(_) => default
    }
  }
}
