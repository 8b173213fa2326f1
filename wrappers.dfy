/** Option and Result, used for Python's None and for raised exceptions. */
module Wrappers {

  datatype Option<+T> = None | Some(value: T)

  /** `Failure(text)` stands for a raised exception whose `str(e)` is `text`. */
  datatype Result<+T> = Success(value: T) | Failure(error: string)
}
