/** Optional values and results with an error, shared by every module of the model. */
module Wrappers {

  /** A value that may be missing; a raster cell that is NoData is `None`. */
  datatype Option<+T> = None | Some(value: T)

  /** The outcome of an operation that the source lets raise an exception. */
  datatype Result<+T, +E> = Success(value: T) | Failure(error: E)
}
