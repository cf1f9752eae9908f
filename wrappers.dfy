/** Option and Outcome, used for the optional EXIF entry of an image and for
    the exceptions the scripts raise. */
module Wrappers {

  datatype Option<+T> = None | Some(value: T)

  /** Pass, or Fail with the exception the source would raise. */
  datatype Outcome<+E> = Pass | Fail(error: E)

  datatype Result<+R, +E> = Success(value: R) | Failure(error: E)
}
