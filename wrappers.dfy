/** Optional values and results: the model's stand-ins for JavaScript's
    `undefined`/`null` fields and for a handler that stops with an alert. */
module Wrappers {

  /** A value that may be absent, as a document field that was never written. */
  datatype Option<+T> = None | Some(value: T)

  /** The outcome of a validation: the accepted value or the reason it was refused. */
  datatype Result<+T, +E> = Ok(value: T) | Err(error: E)
}
