// Option and Result values shared by the modules of this model.
module Wrappers {
  datatype Option<T> = None | Some(value: T)

  /** An error return of the modelled code: `Err` carries what the caller sees. */
  datatype Result<T, E> = Ok(value: T) | Err(error: E)
  {
    predicate IsOk() { Ok? }
  }
}
