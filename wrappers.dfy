/** Option and Result, the two Rust standard types the lexer and the token stream return. */
module Wrappers {
  datatype Option<T> = None | Some(value: T)

  datatype Result<T, E> = Ok(value: T) | Err(error: E)
}
