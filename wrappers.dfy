/** Option and Result wrappers shared by the rest of the model. */
module Wrappers {

  /** A value that may be absent: `null` in the C# code. */
  datatype Option<+T> = None | Some(value: T)

  /** A computation that either yields a value or stops with an error:
      the C# code's exceptions become the `Failure` case. */
  datatype Result<+R, +E> = Success(value: R) | Failure(error: E)
}
