/** Shared value types: optional values and the clock.

    Times are integers in nanoseconds, as in Go's `time.Duration`, counted from the zero
    time. Clocks never run backwards. */
module Common {
  datatype Option<+T> = None | Some(value: T)

  const SECOND: int := 1_000_000_000
  const MINUTE: int := 60 * SECOND
}
