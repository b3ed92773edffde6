/** The source's optional values (Python None, JavaScript null/undefined) and its raised errors. */
module Wrappers {

  datatype Option<T> = None | Some(value: T)

  datatype Result<T, E> = Success(value: T) | Failure(error: E)
}
