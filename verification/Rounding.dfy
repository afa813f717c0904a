/** Decimal.quantize on exact values. Amounts of money are integer paise; a
    `real` stands for a Decimal that has not been quantised yet. */
module Rounding {

  /** ROUND_HALF_UP: nearest integer, ties away from zero. */
  function HalfUp(x: real): (n: int)
    ensures -0.5 <= x - n as real <= 0.5
    ensures x >= 0.0 ==> x - n as real < 0.5
    ensures x < 0.0 ==> x - n as real > -0.5
  {
    if x >= 0.0 then (x + 0.5).Floor else -(0.5 - x).Floor
  }

  /** ROUND_HALF_EVEN, the Decimal default: nearest integer, ties to the even one. */
  function HalfEven(x: real): (n: int)
    ensures -0.5 <= x - n as real <= 0.5
    ensures x - n as real == 0.5 || x - n as real == -0.5 ==> n % 2 == 0
  {
    var low := x.Floor;
    var rest := x - low as real;
    if rest < 0.5 || (rest == 0.5 && low % 2 == 0) then low else low + 1
  }

  lemma HalfUpMonotone(x: real, y: real)
    requires x <= y
    ensures HalfUp(x) <= HalfUp(y)
  {
  }

  lemma HalfEvenMonotone(x: real, y: real)
    requires x <= y
    ensures HalfEven(x) <= HalfEven(y)
  {
  }
}
