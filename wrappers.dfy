/** Failure-compatible result types shared by the lexer modules. */
module Wrappers {

  /** Present or absent value; `None` is the end-of-input signal of a character iterator. */
  datatype Option<+T> = None | Some(value: T)

  /** Either a value or the reason the computation aborted. */
  datatype Result<+T, +E> = Ok(value: T) | Err(error: E)
}
