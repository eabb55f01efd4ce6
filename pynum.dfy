/**
 * Python numeric built-ins used by the engine and the parsers, taken over the
 * reals: `round`, `round(x, n)`, `abs` and `numpy.clip`.
 * Floating-point representation error is not modelled.
 */
module PyNum {

  /** `abs(x)`. */
  function Abs(x: real): (r: real)
    ensures r >= 0.0
    ensures r == x || r == -x
  {
    if x < 0.0 then -x else x
  }

  /**
   * Python 3 `round(x)`: the nearest integer, ties going to the even one
   * (banker's rounding).
   */
  function RoundHalfEven(x: real): (r: int)
    ensures x - 1.0 / 2.0 <= r as real <= x + 1.0 / 2.0
    ensures (r as real - x == 1.0 / 2.0 || x - r as real == 1.0 / 2.0) ==> r % 2 == 0
  {
    var f := x.Floor;
    var d := x - f as real;
    if d < 1.0 / 2.0 then f
    else if d > 1.0 / 2.0 then f + 1
    else if f % 2 == 0 then f
    else f + 1
  }

  /** The two clauses of RoundHalfEven's contract determine the result. */
  lemma RoundHalfEvenUnique(x: real, n: int)
    requires x - 1.0 / 2.0 <= n as real <= x + 1.0 / 2.0
    requires (n as real - x == 1.0 / 2.0 || x - n as real == 1.0 / 2.0) ==> n % 2 == 0
    ensures RoundHalfEven(x) == n
  {
  }

  /** A larger value never rounds to a smaller integer. */
  lemma RoundHalfEvenMonotone(x: real, y: real)
    requires x <= y
    ensures RoundHalfEven(x) <= RoundHalfEven(y)
  {
  }

  /** Rounding an integer-valued real gives that integer back. */
  lemma RoundHalfEvenOfInt(n: int)
    ensures RoundHalfEven(n as real) == n
  {
    RoundHalfEvenUnique(n as real, n);
  }

  /** 10 to the power `n`. */
  function Pow10Int(n: nat): (r: int)
    ensures r >= 1
  {
    if n == 0 then 1 else 10 * Pow10Int(n - 1)
  }

  /** 10 to the power `n`, as a real. */
  function Pow10(n: nat): (r: real)
    ensures r >= 1.0
  {
    Pow10Int(n) as real
  }

  /**
   * Python `round(x, n)` for a float: x rounded half-to-even to n decimals.
   * The result is within half a unit of the last kept decimal.
   */
  function RoundTo(x: real, n: nat): (r: real)
    ensures r * Pow10(n) == RoundHalfEven(x * Pow10(n)) as real
    ensures Abs(r - x) <= 1.0 / (2.0 * Pow10(n))
  {
    var k := RoundHalfEven(x * Pow10(n)) as real;
    DivBound(k, x, Pow10(n));
    DivMul(k, Pow10(n));
    k / Pow10(n)
  }

  lemma DivMul(k: real, p: real)
    requires p != 0.0
    ensures (k / p) * p == k
  {
  }

  lemma DivBound(k: real, x: real, p: real)
    requires p >= 1.0
    requires x * p - 1.0 / 2.0 <= k <= x * p + 1.0 / 2.0
    ensures Abs(k / p - x) <= 1.0 / (2.0 * p)
  {
    assert k / p - x == (k - x * p) / p;
  }

  /** Rounding a whole number to any number of decimals leaves it unchanged. */
  lemma RoundToOfInt(m: int, n: nat)
    ensures RoundTo(m as real, n) == m as real
  {
    var q := Pow10Int(n);
    assert m as real * Pow10(n) == (m * q) as real;
    RoundHalfEvenOfInt(m * q);
  }

  /** `numpy.clip(x, lo, hi)` for lo <= hi. */
  function Clip(x: real, lo: real, hi: real): (r: real)
    requires lo <= hi
    ensures lo <= r <= hi
    ensures lo <= x <= hi ==> r == x
    ensures x < lo ==> r == lo
    ensures x > hi ==> r == hi
  {
    if x < lo then lo else if x > hi then hi else x
  }
}
