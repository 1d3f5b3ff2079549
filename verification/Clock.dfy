/** Instants and durations of Go's time package, in nanoseconds. */
module Clock {
  import opened Text

  /** time.Time{}: instants are counted from it. */
  const ZERO_TIME := 0

  const SECOND := 1_000_000_000
  const MINUTE := 60 * SECOND

  /** 1 January 1970, counted from 1 January of year 1. */
  const UNIX_EPOCH := 62_135_596_800 * SECOND

  /** time.Time.Sub: durations are int64, and a longer one saturates. */
  function Sub(t: int, u: int): int {
    if t - u > MAX_INT64 then MAX_INT64 else if t - u < MIN_INT64 then MIN_INT64 else t - u
  }

  /** time.Time.Unix: whole seconds since 1970, rounded down. */
  function Unix(t: int): int {
    (t - UNIX_EPOCH) / SECOND
  }

  /** A second lasts from its beginning to just before the next, and the first of them, number 0,
      began 62,135,596,800 seconds after the zero time. */
  lemma UnixMeaning(t: int, second: int)
    ensures Unix(t) == second <==>
            (62_135_596_800 + second) * 1_000_000_000 <= t < (62_135_596_800 + second + 1) * 1_000_000_000
  {}

  /** A time.Time counts its seconds in an int64. */
  predicate IsTime(t: int) {
    IsInt64(Unix(t))
  }

  /** The wrap-around of int64 arithmetic. */
  function Wrap(n: int): int {
    (n - MIN_INT64) % 0x1_0000_0000_0000_0000 + MIN_INT64
  }
}
