/** Declarations shared by every module. */
module Prelude {

  datatype Option<+T> = None | Some(value: T)

  /** What a call that may raise hands back. */
  datatype Result<+T, +E> = Success(value: T) | Failure(error: E)
}
