/** Python's round(Decimal, n) on exact values: the default Decimal context rounds
    half to even. Amounts are integer cents and percentages tenths, so rounding to
    n places is rounding a scaled rational to an integer. */
module Decimals {

  /** q is the integer nearest to x, and a tie between two neighbours goes to the even one. */
  ghost predicate IsHalfEvenRounding(x: real, q: int) {
    var e := x - q as real;
    -0.5 <= e <= 0.5 && ((e == 0.5 || e == -0.5) ==> q % 2 == 0)
  }

  function RoundHalfEven(x: real): (q: int)
    ensures IsHalfEvenRounding(x, q)
  {
    var f := x.Floor;
    var frac := x - f as real;
    if frac < 0.5 then f
    else if frac > 0.5 then f + 1
    else if f % 2 == 0 then f else f + 1
  }

  /** The rounding specification admits exactly one integer. */
  lemma RoundingIsUnique(x: real, q1: int, q2: int)
    requires IsHalfEvenRounding(x, q1) && IsHalfEvenRounding(x, q2)
    ensures q1 == q2
  {
  }

  /** Rounding preserves order, so bounds on a value carry over to its rounding. */
  lemma RoundingMonotone(x: real, y: real)
    requires x <= y
    ensures RoundHalfEven(x) <= RoundHalfEven(y)
  {
  }

  /** Rounding a value lying between two integers stays between them. */
  lemma RoundingBounds(x: real, lo: int, hi: int)
    requires lo as real <= x <= hi as real
    ensures lo <= RoundHalfEven(x) <= hi
  {
  }
}
