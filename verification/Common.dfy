/** Small datatypes shared by every module of the model. */
module Common {

  /** A nullable column, or a lookup that may find nothing. */
  datatype Option<+T> = None | Some(value: T)

  /** The result of code that either returns or raises. */
  datatype Result<+T, +E> = Ok(value: T) | Raised(error: E)
}
