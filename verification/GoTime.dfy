/** Go's times and durations: int64 seconds since year 1, int64 nanoseconds. */
module GoTime {
  const SECOND := 1_000_000_000
  const MAX_INT64: int := 0x7fff_ffff_ffff_ffff
  const MIN_INT64: int := -0x8000_0000_0000_0000

  /** Seconds from year 1 to 1970. Go keeps times in seconds since year 1. */
  const UNIX_TO_INTERNAL := 62135596800

  /** The last Unix second that Go's internal seconds can hold. */
  const LAST_SECOND: int := MAX_INT64 - UNIX_TO_INTERNAL

  /** Addition of int64 wraps around. */
  function Wrap64(n: int): int {
    (n - MIN_INT64) % 0x1_0000_0000_0000_0000 + MIN_INT64
  }

  /** An instant in nanoseconds since 1970, as Go compares it. */
  type Instant = int

  function Unix(sec: int): Instant {
    (Wrap64(sec + UNIX_TO_INTERNAL) - UNIX_TO_INTERNAL) * SECOND
  }

  function UnixTime(t: nat): Instant {
    Unix(if t < MAX_INT64 then t else MAX_INT64)
  }

  /** Time.Sub saturates at the bounds of a Duration. */
  function Sub(t: Instant, u: Instant): int {
    if t - u > MAX_INT64 then MAX_INT64 else if t - u < MIN_INT64 then MIN_INT64 else t - u
  }

  /** Go's integer division by two truncates toward zero. */
  function Half(d: int): int {
    if d >= 0 then d / 2 else -((-d) / 2)
  }

  lemma {:induction false} WrapIsIdentity(n: int)
    requires MIN_INT64 <= n <= MAX_INT64
    ensures Wrap64(n) == n
  {
  }

  lemma {:induction false} WrapOnce(n: int)
    requires MAX_INT64 < n <= MAX_INT64 + 0x1_0000_0000_0000_0000
    ensures Wrap64(n) == n - 0x1_0000_0000_0000_0000
  {
  }

  /** A timestamp is kept exactly up to LAST_SECOND and wraps to the far past after. */
  lemma {:induction false} TimestampsExact(t: nat)
    ensures t <= LAST_SECOND ==> UnixTime(t) == t * SECOND
    ensures t > LAST_SECOND ==> UnixTime(t) < 0
  {
    var sec := if t < MAX_INT64 then t else MAX_INT64;
    if t <= LAST_SECOND {
      WrapIsIdentity(sec + UNIX_TO_INTERNAL);
    } else {
      WrapOnce(sec + UNIX_TO_INTERNAL);
    }
  }
}
