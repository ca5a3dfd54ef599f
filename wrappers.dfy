/** Small value wrappers shared by the store, the viewer and the uploader. */
module Wrappers {

  /** A value that may be absent: `T | undefined` or `T | null` in the source. */
  datatype Option<+T> = None | Some(value: T)

  /** The outcome of an operation that can reject with an error. */
  datatype Result<+R, +E> = Success(value: R) | Failure(error: E)

  /** JavaScript falsiness of a `string | null` value: null and the empty string are falsy. */
  predicate Falsy(s: Option<string>)
  {
    s.None? || s.value == ""
  }
}
