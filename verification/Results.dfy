/** Outcomes shared by every component: an absent value, and an operation that throws. */
module Results {

  datatype Option<+T> = None | Some(value: T)

  /** What a call that may throw gives back: its value, or the error code it threw with. */
  datatype Result<+T, +E> = Ok(value: T) | Err(error: E)
}
