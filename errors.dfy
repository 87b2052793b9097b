/** Optional values and the two exception kinds the query builders and the
    member directory raise, as values instead of exceptions. */
module Errors {

  /** A Python argument that defaults to None. */
  datatype Option<T> = None | Some(value: T)

  /** The two kinds of exception raised: a plain `Exception` (only for a date
      that is not a digit string) and `ArgsException`; both carry a message. */
  datatype Error = Generic(msg: string) | Args(msg: string)

  /** Either the value a call returns or the exception it raises. */
  datatype Result<T> = Ok(value: T) | Err(error: Error)
}
