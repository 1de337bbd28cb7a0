/** Failure-compatible wrappers shared by the loaders and the ray tracer. */
module Results {

  /** A value that may be absent. */
  datatype Option<+T> = None | Some(value: T)

  /** The outcome of a loader: the loaded data, or the error it stopped on. */
  datatype Result<+T, +E> = Ok(value: T) | Err(error: E)
}
