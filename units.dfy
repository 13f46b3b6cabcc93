/**
 * Units shared by the model: identities, instants and days, and Swift's truncating
 * integer division, remainder and Double-to-Int conversion.
 */
module Units {

  /** A `UUID`; every object that creates identities draws them from its own counter. */
  type Uuid = nat

  /** A `Date`, as whole seconds on some fixed time line. */
  type Instant = int

  /** A calendar day (the start-of-day of a `Date`); consecutive days are consecutive integers. */
  type Day = int

  const SecondsPerDay: int := 86400

  /** `Calendar.current`, as a fixed offset (in seconds) of local time from the time line. */
  datatype Calendar = Calendar(utcOffset: int)

  /** `startOfDay(for:)`: the local day that contains the instant `t`. */
  function DayOf(cal: Calendar, t: Instant): (d: Day)
    ensures d * SecondsPerDay <= t + cal.utcOffset < (d + 1) * SecondsPerDay
  {
    (t + cal.utcOffset) / SecondsPerDay
  }

  /** Division truncating toward zero, as Swift's `Int(Double(a) / Double(b))` for whole `a`. */
  function TruncDiv(a: int, b: int): (q: int)
    requires b > 0
    ensures a >= 0 ==> 0 <= a - q * b < b
    ensures a < 0 ==> -b < a - q * b <= 0
  {
    if a >= 0 then a / b else -((-a) / b)
  }

  /** Swift's `%` on `Int`: the remainder left by `TruncDiv`, carrying the sign of `a`. */
  function TruncRem(a: int, b: int): (r: int)
    requires b > 0
    ensures a == TruncDiv(a, b) * b + r
    ensures a >= 0 ==> 0 <= r < b
    ensures a < 0 ==> -b < r <= 0
  {
    a - TruncDiv(a, b) * b
  }

  /** `Int(x)` for a finite `Double` in range: the integer part, truncating toward zero. */
  function TruncReal(x: real): (n: int)
    ensures x >= 0.0 ==> n >= 0 && n as real <= x < n as real + 1.0
    ensures x < 0.0 ==> n <= 0 && n as real - 1.0 < x <= n as real
  {
    if x >= 0.0 then x.Floor else -((-x).Floor)
  }

  /** `Int(duration / 60)`: the whole minutes of a duration in seconds. */
  function WholeMinutes(seconds: int): (m: int)
    ensures seconds >= 0 ==> m >= 0 && 60 * m <= seconds < 60 * (m + 1)
    ensures seconds < 0 ==> m <= 0 && 60 * (m - 1) < seconds <= 60 * m
  {
    TruncDiv(seconds, 60)
  }

  function Max(a: int, b: int): (m: int)
    ensures m >= a && m >= b && (m == a || m == b)
  {
    if a >= b then a else b
  }

  function Min(a: int, b: int): (m: int)
    ensures m <= a && m <= b && (m == a || m == b)
  {
    if a <= b then a else b
  }
}
