/** Small value wrappers shared by every module of the model. */
module Wrappers {
  /** A value that may be absent: a null pointer, a missing map entry. */
  datatype Option<T> = None | Some(value: T)

  /** The outcome of an operation that can fail with a message (a C++ exception). */
  datatype Result<T> = Ok(value: T) | Err(msg: string)
}
