/** Optional values and results shared by every module of the model. */
module Basics {

  /** A value that may be missing (SQL NULL, Python `None`, an empty `fetchone()`). */
  datatype Option<+T> = None | Some(value: T)

  /** The outcome of a step that the source lets fail with an exception. */
  datatype Result<+T, +E> = Success(value: T) | Failure(error: E)

  /** The last element of a non-empty sequence. */
  function Last<T>(s: seq<T>): T
    requires s != []
  {
    s[|s| - 1]
  }
}
