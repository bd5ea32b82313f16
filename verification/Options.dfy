/** The one optional-value type that every module shares: a SQL NULL, a missing row, an absent field. */
module Options {
  datatype Option<+T> = None | Some(value: T)

  datatype Result<+T, +E> = Ok(value: T) | Err(error: E)
}
