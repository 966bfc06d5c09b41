/** Optional values and results with an error message. */
module Wrappers {

  /** `None` stands for a lookup that found nothing (a Rust `unwrap` that would panic). */
  datatype Option<T> = None | Some(value: T)

  /** A value or an error message. */
  datatype Result<T> = Success(value: T) | Failure(error: string)
}
