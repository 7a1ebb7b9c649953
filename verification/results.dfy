/** Optional values and success-or-error results, the two shapes every
    operation of the model returns. */
module Results {

  /** A value that may be absent: a nullable column, or a request field
      the caller did not send. */
  datatype Option<+T> = None | Some(value: T) {

    /** The value, or the default when it is absent, as the backend's
        request.data.get(key, default) reads a field. */
    function GetOr(default: T): T {
      match this
      case Some(v) => v
      case None => default
    }
  }

  /** The outcome of one operation: a value, or the error it reports. */
  datatype Result<+T, +E> = Ok(value: T) | Err(error: E)
}
