/** lib/timestamp.c: monotonic clock readings and their comparison. */
module Timestamp {
  /** A `struct timespec`. */
  datatype Time = Time(sec: int, nsec: int)

  /** `compare_times`: is `lhs` strictly earlier than `rhs`? */
  predicate Before(lhs: Time, rhs: Time) {
    if lhs.sec == rhs.sec then lhs.nsec < rhs.nsec else lhs.sec < rhs.sec
  }

  /** `lhs` is no later than `rhs`. */
  predicate NotAfter(lhs: Time, rhs: Time) {
    !Before(rhs, lhs)
  }

  /** The instant `seconds` later. */
  function Plus(t: Time, seconds: nat): Time {
    Time(t.sec + seconds, t.nsec)
  }

  const NANOSECONDS := 1000000000

  /** A reading of the clock: the nanoseconds stay below one second. */
  predicate Normal(t: Time) {
    0 <= t.nsec < NANOSECONDS
  }

  /** The instant in nanoseconds. */
  function Instant(t: Time): int {
    t.sec * NANOSECONDS + t.nsec
  }

  /** On clock readings `compare_times` compares instants, and adding `ttl` seconds moves an instant by that much. */
  lemma InstantsCompare(a: Time, b: Time, ttl: nat)
    requires Normal(a) && Normal(b)
    ensures Before(a, b) <==> Instant(a) < Instant(b)
    ensures NotAfter(a, b) <==> Instant(a) <= Instant(b)
    ensures Normal(Plus(a, ttl)) && Instant(Plus(a, ttl)) == Instant(a) + ttl * NANOSECONDS
    ensures Before(Plus(a, ttl), b) <==> Instant(b) - Instant(a) > ttl * NANOSECONDS
  {
    if a.sec < b.sec {
      assert (b.sec - a.sec - 1) * NANOSECONDS >= 0;
    } else if b.sec < a.sec {
      assert (a.sec - b.sec - 1) * NANOSECONDS >= 0;
    }
  }

  /** `compare_times` is a strict total order, and adding a time to live preserves it. */
  lemma BeforeIsStrictOrder(a: Time, b: Time, c: Time, seconds: nat)
    ensures !Before(a, a)
    ensures Before(a, b) && Before(b, c) ==> Before(a, c)
    ensures Before(a, b) || Before(b, a) || a == b
    ensures Before(Plus(a, seconds), Plus(b, seconds)) <==> Before(a, b)
  {
  }
}
