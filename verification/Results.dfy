/** Outcomes shared by every model: an optional value, and a value or the reason it was refused. */
module Results {
  datatype Option<+T> = None | Some(value: T)

  datatype Result<+T, +E> = Ok(value: T) | Err(error: E)
}
