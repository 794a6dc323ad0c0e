/** The optional values and step outcomes every module of the model uses. */
module Wrappers {

  /** A value that may be absent: a SQL NULL, a missing row, a file no rule claims. */
  datatype Option<+T> = None | Some(value: T)

  /** The outcome of one step that may raise: a value, or the text of the exception. */
  datatype Result<+T> = Success(value: T) | Failure(error: string)
}
