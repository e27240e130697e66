/** Failure-carrying values shared by every module of the model: an absent
    value (a missing request field, a lookup that found nothing) and the
    outcome of an operation that either succeeds or returns a named error. */
module Results {

  datatype Option<T> = None | Some(value: T) {
    /** The wrapped value, or `default` when absent (the `x || default` idiom). */
    function GetOr(default: T): T {
      match this
      case Some(v) => v
      case None => default
    }
  }

  datatype Result<T, E> = Ok(value: T) | Err(error: E)
}
