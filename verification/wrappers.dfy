/** The optional-value and success-or-failure shapes used by the lookups
    and by the query. */
module Wrappers {

  datatype Option<T> = None | Some(value: T)

  datatype Result<T, E> = Ok(value: T) | Err(error: E)
}
