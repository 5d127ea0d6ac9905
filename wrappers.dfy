/** Small value wrappers shared by the backend and frontend models. */
module Wrappers {

  /** A value that may be missing (Python's None, TypeScript's null/undefined). */
  datatype Option<+T> = None | Some(value: T)

  /** The outcome of an operation that can fail with an error value. */
  datatype Result<+T, +E> = Ok(value: T) | Err(error: E)

  /** One member of a JSON object as a validator sees it: left out, written as
      null, or given a value. */
  datatype Field<+T> = Absent | Null | Given(value: T)
}
