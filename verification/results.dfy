/** Failure-carrying wrappers shared by the whole model. */
module Results {

  /** A value that may be absent: a request field that was not sent, a row that does not exist. */
  datatype Option<+T> = None | Some(value: T)

  /** The outcome of a request handler: the created or updated record's id, or a typed error. */
  datatype Result<+T, +E> = Ok(value: T) | Err(error: E)
}
