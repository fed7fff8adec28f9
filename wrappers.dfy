/** Success/failure values used in place of Ruby's nil and raised exceptions. */
module Wrappers {

  datatype Option<T> = None | Some(value: T)

  datatype Result<T, E> = Success(value: T) | Failure(error: E)

  /** The outcome of a step that produces nothing but may fail. */
  datatype Outcome<E> = Pass | Fail(error: E)
}
