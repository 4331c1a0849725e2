/** The two result shapes the other modules share. */
module Results {

  /** A nullable column or an optional argument. */
  datatype Option<+T> = None | Some(value: T)

  /** What a fallible operation returns: a value, or the error it was refused with. */
  datatype Result<+T, +E> = Ok(value: T) | Err(error: E)
}
