// Bytes, and durations in nanoseconds.

module Units {
  type Bytes = seq<bv8>

  const SECOND := 1_000_000_000
  const MINUTE := 60 * SECOND
  const HOUR := 60 * MINUTE
}
