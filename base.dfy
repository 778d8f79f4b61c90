/** Shared vocabulary of the dashboard model: optional values, the numeric
    conventions of JavaScript that the pages rely on (Math.round, the `|| 0`
    fallback, differenceInMinutes), and instants and dates. */
module Base {

  datatype Option<T> = None | Some(value: T)

  /** An instant, in minutes since the epoch. Hours are added as `60 * h`
      minutes, so fractional hours stay exact. */
  type Instant = real

  /** A calendar date, as a day number (day 0 is the epoch's date). */
  type Day = int

  const MinutesPerHour: real := 60.0
  const MinutesPerDay: int := 1440

  /** The instant at which a `yyyy-MM-dd` date begins; this is what
      `new Date("yyyy-MM-dd")` denotes. */
  function DayStart(d: Day): Instant
  {
    (d * MinutesPerDay) as real
  }

  /** `t` moved forward by `h` hours, as date-fns `addHours` does. */
  function AddHours(t: Instant, h: real): (r: Instant)
    ensures r - t == h * MinutesPerHour
  {
    t + h * MinutesPerHour
  }

  /** JavaScript's `Math.round`: the nearest integer, halves rounded up. */
  function Round(x: real): (r: int)
    ensures r as real - 0.5 <= x < r as real + 0.5
  {
    (x + 0.5).Floor
  }

  lemma RoundMonotone(x: real, y: real)
    requires x <= y
    ensures Round(x) <= Round(y)
  {
  }

  lemma RoundOfInt(n: int)
    ensures Round(n as real) == n
  {
  }

  /** Truncation toward zero, as date-fns `differenceInMinutes` applies to
      the difference of two instants. */
  function Trunc(x: real): (r: int)
    ensures 0.0 <= x ==> 0 <= r && r as real <= x < r as real + 1.0
    ensures x < 0.0 ==> r <= 0 && r as real - 1.0 < x <= r as real
  {
    if x >= 0.0 then x.Floor else -((-x).Floor)
  }

  /** `Number(v) || 0`: a missing or non-numeric value reads as zero. */
  function OrZero(v: Option<real>): (r: real)
    ensures v.Some? ==> r == v.value
    ensures v.None? ==> r == 0.0
  {
    if v.Some? then v.value else 0.0
  }

  function Max(a: real, b: real): (r: real)
    ensures r >= a && r >= b && (r == a || r == b)
  {
    if a >= b then a else b
  }

  function Min(a: int, b: int): (r: int)
    ensures r <= a && r <= b && (r == a || r == b)
  {
    if a <= b then a else b
  }

  /** Dropping the head of a concatenation drops the head of its first part. */
  lemma TailOfConcat<T>(a: seq<T>, b: seq<T>)
    requires a != []
    ensures (a + b)[0] == a[0] && (a + b)[1..] == a[1..] + b
  {
  }

  lemma AppendAssoc<T>(x: seq<T>, y: seq<T>, z: seq<T>)
    ensures x + (y + z) == (x + y) + z
  {
  }
}
