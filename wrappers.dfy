/** The optional value and the result-or-error value the drawer's lookups and its exceptions become. */
module Wrappers {
  datatype Option<T> = None | Some(value: T)

  datatype Result<T, E> = Ok(value: T) | Err(error: E)
}
