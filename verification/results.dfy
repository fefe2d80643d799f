/** Option and Result, the two sum types the engine's interface is built from. */
module Results {

  /** An optional value, as returned by an iterator's `next`. */
  datatype Option<+T> = None | Some(value: T)

  /** A success value or an error value. */
  datatype Result<+R, +E> = Ok(value: R) | Err(error: E)
}
