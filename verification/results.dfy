/** Failure-carrying values shared by every module of the model. */
module Results {

  /** A value that may be absent (a Go nil pointer, an unset cursor, a zero time). */
  datatype Option<+T> = None | Some(value: T)

  /** A Go `(value, error)` pair in which exactly one side is meaningful. */
  datatype Result<+T, +E> = Ok(value: T) | Err(error: E)
}

/** Instants and durations, in nanoseconds like Go's `time.Duration`. */
module Clock {

  const Second: nat := 1_000_000_000
}
