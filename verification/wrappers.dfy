/** Failure-carrying datatypes shared by the whole model. */
module Wrappers {

  /** An optional value: an absent form field, a failed number parse, a missing lookup. */
  datatype Option<T> = None | Some(value: T)

  /** Either a value or the reason there is none. */
  datatype Result<T, E> = Ok(value: T) | Err(error: E)
}
