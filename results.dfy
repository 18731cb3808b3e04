/** Option and Result values standing in for Python's None and for raised exceptions. */
module Results {

  /** Python's `None`, or a present value. */
  datatype Option<+T> = None | Some(value: T)

  /** A computation that returned `value`, or one that raised `error`. */
  datatype Result<+T, +E> = Ok(value: T) | Err(error: E)
}
