/** Plain wrapper datatypes used across the model: `Option` for values a
    JavaScript expression may leave `null`/`undefined`, `Result` for operations
    that either produce a value or throw. */
module Wrappers {

  datatype Option<+T> = None | Some(value: T)

  datatype Result<+R, +E> = Success(value: R) | Failure(error: E)
}
