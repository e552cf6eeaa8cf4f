/**
 * The clock. Go's `time.Time` and `time.Duration` count nanoseconds; the model
 * reads the clock nowhere and takes the current instant as a parameter `now`.
 * Integers are unbounded: the int64 range of Go's Duration is not modelled.
 */
module Clock {

  /** An instant on the process's monotonic clock, in nanoseconds. */
  type Instant = int

  /** A signed span of time, in nanoseconds (Go's `time.Duration`). */
  type Duration = int

  /** Go's `time.Second`. */
  const Second: Duration := 1_000_000_000

  /** Go's `Duration.Seconds()`, on mathematical reals instead of float64. */
  function Seconds(d: Duration): (s: real)
    ensures d >= 0 <==> s >= 0.0
  {
    d as real / Second as real
  }
}
