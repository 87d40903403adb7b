/** Rounding and comparison of prices, over the reals. */
module Numbers {

  const EPSILON := 0.000000001

  function Abs(x: real): real {
    if x < 0.0 then -x else x
  }

  /** `nearlyEqual` */
  predicate NearlyEqual(a: real, b: real) {
    if a > b then a - b < EPSILON else b - a < EPSILON
  }

  /** `math.Round`: to the nearest integer, halves away from zero. */
  function Round(x: real): (n: int)
    ensures Abs(n as real - x) <= 0.5
    ensures x >= 0.0 ==> n >= 0
    ensures x <= 0.0 ==> n <= 0
  {
    if x >= 0.0 then (x + 0.5).Floor else -((-x + 0.5).Floor)
  }

  /** Go's conversion to an integer type: the fraction is discarded. */
  function Truncate(x: real): (n: int)
    ensures Abs(n as real) <= Abs(x) && Abs(n as real - x) < 1.0
  {
    if x >= 0.0 then x.Floor else -((-x).Floor)
  }

  lemma RoundMonotone(x: real, y: real)
    requires x <= y
    ensures Round(x) <= Round(y)
  {
  }

  lemma TruncateMonotone(x: real, y: real)
    requires x <= y
    ensures Truncate(x) <= Truncate(y)
  {
  }

  lemma RoundInteger(n: int)
    ensures Round(n as real) == n && Truncate(n as real) == n
  {
  }

  lemma ProductNonNegative(a: real, b: real)
    requires a >= 0.0 && b >= 0.0
    ensures a * b >= 0.0
  {
  }

  /** Halves round away from zero, and rounding is symmetric. */
  lemma RoundHalves(n: nat, x: real)
    ensures Round(n as real + 0.5) == n + 1
    ensures Round(-x) == -Round(x) && Truncate(-x) == -Truncate(x)
  {
  }
}
