/** Lengths of time in nanoseconds. */
module Time {

  const SECOND := 1_000_000_000
  const MINUTE := 60 * SECOND
  const HALF_HOUR := 30 * MINUTE
  const HOUR := 60 * MINUTE
  const DAY := 24 * HOUR

  /** The idle time that costs a level, and after which an IP may be forgotten. */
  const REHAB := 72 * HOUR
}
