/** Failure-carrying wrappers shared by every service model. */
module Base {

  /** A value that may be missing: the model of a Java reference that may be null. */
  datatype Option<+T> = None | Some(value: T)

  /** The outcome of a service call: a payload, or the exception it raised. */
  datatype Result<+T, +E> = Ok(value: T) | Err(error: E)
}
