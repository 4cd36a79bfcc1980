/** Rounding to two decimals, over the reals. */
module Rounding {

  /** Rounds to the nearest integer, halves away from zero. */
  function Round(x: real): int {
    if x >= 0.0 then (x + 0.5).Floor else -((-x + 0.5).Floor)
  }

  function TwoDecimals(value: real): real {
    Round(value * 100.0) as real / 100.0
  }

  /** A multiple of one hundredth. */
  predicate OnGrid(x: real) {
    (x * 100.0).Floor as real == x * 100.0
  }

  function Abs(x: real): real {
    if x < 0.0 then -x else x
  }

  function Max(x: real, y: real): real {
    if x < y then y else x
  }

  lemma RoundIsMonotone(x: real, y: real)
    requires x <= y
    ensures Round(x) <= Round(y)
  {
  }

  /** Halves are rounded away from zero. */
  lemma HalvesMoveAway(k: nat)
    ensures Round(k as real + 0.5) == k + 1
    ensures Round(-(k as real) - 0.5) == -(k + 1)
  {
  }

  /** The nearest whole number. */
  lemma RoundIsNearest(x: real)
    ensures Abs(Round(x) as real - x) <= 0.5
  {
  }

  lemma RoundingError(x: real)
    ensures Abs(TwoDecimals(x) - x) <= 0.005
  {
    var y := x * 100.0;
    assert Abs(Round(y) as real - y) <= 0.5;
    assert TwoDecimals(x) - x == (Round(y) as real - y) / 100.0;
  }

  /** Rounding fixes the grid and lands on it. */
  lemma GridIsFixed(x: real)
    ensures OnGrid(TwoDecimals(x))
    ensures OnGrid(x) <==> TwoDecimals(x) == x
  {
    var n := Round(x * 100.0);
    assert TwoDecimals(x) * 100.0 == n as real;
    assert (n as real).Floor == n;
    if OnGrid(x) {
      var m := (x * 100.0).Floor;
      assert Round(m as real) == m;
    }
  }

  /** A rounded value never exceeds a grid point that the value does not exceed. */
  lemma RoundedStaysBelowGrid(x: real, bound: real)
    requires x <= bound && OnGrid(bound)
    ensures TwoDecimals(x) <= bound
  {
    GridIsFixed(bound);
    RoundIsMonotone(x * 100.0, bound * 100.0);
  }

  lemma RoundedIsNonNegative(x: real)
    requires x >= 0.0
    ensures TwoDecimals(x) >= 0.0
  {
  }
}
