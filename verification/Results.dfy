/** Shared result types. */
module Results {
  /** Outcomes of operations that the source may abandon with an exception. */
  datatype Result<+T> = Ok(value: T) | ValueError

  datatype Option<+T> = None | Some(value: T)
}
