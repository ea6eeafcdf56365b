/** The one constant of Go's `time` package the model needs. */
module Time {
  /** `time.Second`: a `time.Duration` is a count of nanoseconds. */
  const Second: int := 1_000_000_000
}
