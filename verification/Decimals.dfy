/**
 Decimal arithmetic over the reals. Addition and multiplication are exact; division rounds
 half away from zero at 16 digits, which is an assumption about the decimal library.
 */
module Decimals {
  const TEN_16 := 10000000000000000.0
  const MICRO := 1000000.0

  /** Half a unit of the 16th digit. */
  const DIV_ERROR := 0.00000000000000005

  function RoundHalfAway(x: real): int {
    if x >= 0.0 then (x + 0.5).Floor else -(-x + 0.5).Floor
  }

  function Div(x: real, y: real): real
    requires y != 0.0
  {
    RoundHalfAway(x / y * TEN_16) as real / TEN_16
  }

  /** Drops all digits after the second. */
  function Truncate2(x: real): real {
    if x >= 0.0 then (x * 100.0).Floor as real / 100.0 else -((-x * 100.0).Floor as real / 100.0)
  }

  /** The nearest integer, of two equally near the one further from zero. */
  lemma RoundMeaning(x: real)
    ensures var r := RoundHalfAway(x) as real;
            && x - 0.5 <= r <= x + 0.5
            && (r == x + 0.5 ==> x >= 0.0) && (r == x - 0.5 ==> x <= 0.0)
  {
  }

  lemma RoundOfWhole(n: int)
    ensures RoundHalfAway(n as real) == n
  {
  }

  /** A quotient has 16 digits, the nearest to the exact one. */
  lemma DivMeaning(x: real, y: real)
    requires y != 0.0
    ensures Div(x, y) * 10000000000000000.0 == RoundHalfAway(x / y * 10000000000000000.0) as real
  {
  }

  lemma RoundBounds(x: real)
    ensures x - 0.5 <= RoundHalfAway(x) as real <= x + 0.5
    ensures x >= 0.0 ==> RoundHalfAway(x) >= 0
  {
  }

  /** Rounding never passes an integer that the number is less than half above. */
  lemma RoundBelow(x: real, n: int)
    requires x < n as real + 0.5
    ensures RoundHalfAway(x) <= n
  {
  }

  lemma DivBounds(x: real, y: real)
    requires y != 0.0
    ensures x / y - DIV_ERROR <= Div(x, y) <= x / y + DIV_ERROR
    ensures x / y >= 0.0 ==> Div(x, y) >= 0.0
  {
    RoundBounds(x / y * TEN_16);
  }

  /** A whole number of hundredths. */
  predicate Hundredths(x: real) {
    x * 100.0 == (x * 100.0).Floor as real
  }

  /** Truncation drops less than a hundredth, towards zero, and leaves hundredths. */
  lemma TruncateBounds(x: real)
    ensures Hundredths(Truncate2(x))
    ensures x >= 0.0 ==> 0.0 <= Truncate2(x) <= x < Truncate2(x) + 0.01
    ensures x <= 0.0 ==> Truncate2(x) - 0.01 < x <= Truncate2(x) <= 0.0
  {
    var n := if x >= 0.0 then (x * 100.0).Floor else -((-x * 100.0).Floor);
    assert Truncate2(x) * 100.0 == n as real;
  }

  lemma TimesMonotonic(x: real, y: real, p: real)
    requires x <= y && p >= 0.0
    ensures x * p <= y * p
  {
  }
}
