/** The two outcome types every component shares. */
module Results {

  /** A Go pointer or comma-ok value: present or absent. */
  datatype Option<+T> = None | Some(value: T)

  /** A Go (value, error) pair, where the value is meaningful only without an error. */
  datatype Result<+T, +E> = Ok(value: T) | Err(error: E)
}
