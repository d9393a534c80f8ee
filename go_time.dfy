/** The part of Go's `time` package the stopwatch relies on: instants and
    durations as integer nanoseconds, the unit constants, the zero instant,
    and the integer division of Go, which truncates toward zero. */
module GoTime {

  /** A point on the time line, in nanoseconds. */
  type Instant = int

  /** An elapsed interval, in nanoseconds; negative when the interval runs backwards. */
  type Duration = int

  const Nanosecond: Duration := 1
  const Microsecond: Duration := 1000 * Nanosecond
  const Millisecond: Duration := 1000 * Microsecond
  const Second: Duration := 1000 * Millisecond
  const Minute: Duration := 60 * Second
  const Hour: Duration := 60 * Minute
  /** Not a constant of Go's time package; twenty-four hours, for stating what `Days` computes. */
  const Day: Duration := 24 * Hour

  /** The value of an instant field that was never assigned (Go's zero Time). */
  const ZeroInstant: Instant := 0

  predicate IsZero(t: Instant) {
    t == ZeroInstant
  }

  /** The duration from `u` to `t`. */
  function Sub(t: Instant, u: Instant): (d: Duration)
    ensures u + d == t
  {
    t - u
  }

  /** `q` is the quotient of `a` by `b` rounded toward zero: the remainder
      `a - q * b` has the sign of `a` and is smaller than `b` in magnitude. */
  predicate IsTruncQuotient(a: int, b: int, q: int)
    requires b > 0
  {
    var rem := a - q * b;
    (a >= 0 ==> 0 <= rem < b) && (a <= 0 ==> -b < rem <= 0)
  }

  /** Go's `/` on integers, which truncates toward zero (Dafny's `/` is Euclidean). */
  function TruncDiv(a: int, b: int): (q: int)
    requires b > 0
    ensures IsTruncQuotient(a, b, q)
  {
    if a >= 0 then a / b else -((-a) / b)
  }

  /** On a non-negative dividend Go's and Dafny's division agree. */
  lemma TruncDivOfNonNegative(a: int, b: int)
    requires a >= 0 && b > 0
    ensures TruncDiv(a, b) == a / b
  {
  }

  /** Truncation is symmetric about zero: a negative duration is truncated
      to the negative of what its magnitude is truncated to. */
  lemma TruncDivOfNegated(a: int, b: int)
    requires b > 0
    ensures TruncDiv(-a, b) == -TruncDiv(a, b)
  {
  }

  /** The truncated quotient is the only value with its remainder property,
      so `IsTruncQuotient` is a complete, independent definition of `TruncDiv`. */
  lemma TruncQuotientUnique(a: int, b: int, q: int)
    requires b > 0
    ensures IsTruncQuotient(a, b, q) <==> q == TruncDiv(a, b)
  {
    if IsTruncQuotient(a, b, q) {
      var p := TruncDiv(a, b);
      var d := q - p;
      assert (a - p * b) - (a - q * b) == d * b;
      if d >= 1 {
        MulMonotone(d, b);
      } else if d <= -1 {
        MulMonotone(-d, b);
      }
    }
  }

  /** Dividing by `b` and then by `c`, truncating each time, is dividing by `b * c`. */
  lemma TruncDivNested(a: int, b: int, c: int)
    requires b > 0 && c > 0
    ensures b * c > 0
    ensures TruncDiv(TruncDiv(a, b), c) == TruncDiv(a, b * c)
  {
    MulPositive(b, c);
    var q1 := TruncDiv(a, b);
    var q2 := TruncDiv(q1, c);
    NestedRemainder(a, b, c, q1, q2);
    QuotientSign(a, b, q1);
    if a >= 0 {
      BoundedCombination(a - q1 * b, q1 - q2 * c, b, c);
    } else {
      BoundedCombination(-(a - q1 * b), -(q1 - q2 * c), b, c);
    }
    TruncQuotientUnique(a, b * c, q2);
  }

  /** The remainder of the two-step division, in terms of the two one-step remainders. */
  lemma NestedRemainder(a: int, b: int, c: int, q1: int, q2: int)
    ensures a - q2 * (b * c) == (a - q1 * b) + b * (q1 - q2 * c)
  {
    assert q2 * (b * c) == b * (q2 * c);
    assert b * (q1 - q2 * c) == b * q1 - b * (q2 * c);
  }

  /** A truncated quotient has the sign of its dividend. */
  lemma QuotientSign(a: int, b: int, q: int)
    requires b > 0 && IsTruncQuotient(a, b, q)
    ensures a >= 0 ==> q >= 0
    ensures a <= 0 ==> q <= 0
  {
    if a >= 0 && q < 0 {
      MulMonotone(-q, b);
    }
    if a <= 0 && q > 0 {
      MulMonotone(q, b);
    }
  }

  lemma MulPositive(b: int, c: int)
    requires b > 0 && c > 0
    ensures b * c > 0
  {
  }

  lemma MulMonotone(d: int, b: int)
    requires d >= 1 && b > 0
    ensures d * b >= b
  {
    assert d * b == (d - 1) * b + b;
    MulNonNegative(d - 1, b);
  }

  lemma MulNonNegative(x: int, y: int)
    requires x >= 0 && y >= 0
    ensures x * y >= 0
  {
  }

  /** A remainder below `b` plus `b` times a remainder below `c` stays below `b * c`. */
  lemma BoundedCombination(r1: int, r2: int, b: int, c: int)
    requires b > 0 && c > 0
    requires 0 <= r1 < b && 0 <= r2 < c
    ensures 0 <= r1 + b * r2 < b * c
  {
    MulNonNegative(b, r2);
    MulNonNegative(b, c - 1 - r2);
    assert b * (c - 1 - r2) == b * c - b - b * r2;
  }
}
