/**
 * Python's `round(x, 2)`, taken on exact reals: the nearest multiple of 0.01, ties to the
 * even neighbour, and `round(x)` to the nearest integer as the `:.0f` format uses it.
 */
module Numeric {

  /** The nearest integer to `y`; on an exact half, the even one. */
  function RoundHalfEven(y: real): (n: int)
    ensures n as real - 0.5 <= y <= n as real + 0.5
    ensures (y == n as real + 0.5 || y == n as real - 0.5) ==> n % 2 == 0
    ensures y >= 0.0 ==> n >= 0
  {
    var f := y.Floor;
    var frac := y - f as real;
    if frac < 0.5 then f
    else if frac > 0.5 then f + 1
    else if f % 2 == 0 then f
    else f + 1
  }

  /**
   * `amount * rate`. A function of its own so that the solver meets the product of two
   * variables only where a proof unfolds it.
   */
  function Times(amount: real, rate: real): real
  {
    amount * rate
  }

  lemma TimesNonNegative(amount: real, rate: real)
    requires amount >= 0.0 && rate >= 0.0
    ensures Times(amount, rate) >= 0.0
  {
  }

  /** A larger rate never gives a smaller product with a non-negative amount. */
  lemma TimesMonotone(amount: real, r1: real, r2: real)
    requires amount >= 0.0 && r1 <= r2
    ensures Times(amount, r1) <= Times(amount, r2)
  {
    assert amount * r2 - amount * r1 == amount * (r2 - r1);
  }

  /** `x` has at most two decimal places. */
  predicate IsCents(x: real)
  {
    (x * 100.0).Floor as real == x * 100.0
  }

  /** `round(x, 2)`: two decimal places, within half a cent of `x`, never negative for a non-negative `x`. */
  function Round2(x: real): (r: real)
    ensures IsCents(r)
    ensures x - 0.005 <= r <= x + 0.005
    ensures x >= 0.0 ==> r >= 0.0
  {
    var n := RoundHalfEven(x * 100.0);
    var r := n as real / 100.0;
    assert r * 100.0 == n as real;
    assert (r * 100.0).Floor == n;
    r
  }

  /** An integer rounds to itself. */
  lemma RoundHalfEvenOfInt(k: int)
    ensures RoundHalfEven(k as real) == k
  {
  }

  /** A value that already has two decimal places is left alone. */
  lemma Round2OfCents(x: real)
    requires IsCents(x)
    ensures Round2(x) == x
  {
    var k := (x * 100.0).Floor;
    RoundHalfEvenOfInt(k);
    assert RoundHalfEven(x * 100.0) == k;
  }

  lemma Round2Zero()
    ensures Round2(0.0) == 0.0
  {
    Round2OfCents(0.0);
  }

  /** Rounding never reverses the order of two amounts. */
  lemma RoundHalfEvenMonotone(x: real, y: real)
    requires x <= y
    ensures RoundHalfEven(x) <= RoundHalfEven(y)
  {
  }

  /** Rounding to cents never reverses the order of two amounts. */
  lemma Round2Monotone(x: real, y: real)
    requires x <= y
    ensures Round2(x) <= Round2(y)
  {
    RoundHalfEvenMonotone(x * 100.0, y * 100.0);
  }
}
