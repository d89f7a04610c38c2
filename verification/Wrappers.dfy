/** Result types shared by the whole model. */
module Wrappers {

  /** A value that may be absent: Java's nullable reference. */
  datatype Option<+T> = None | Some(value: T)

  /** The outcome of an operation of the client: a value, or an `AbortException`
      carrying the message the build is aborted with. */
  datatype Result<+T> = Ok(value: T) | Abort(message: string)
}
