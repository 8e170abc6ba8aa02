/** Python's rounding of reals. */
module Rounding {

  // To the nearest whole number, halves to the even one.
  function Round(x: real): (r: int)
    ensures -0.5 <= x - r as real <= 0.5
    ensures x - r as real == 0.5 || x - r as real == -0.5 ==> r % 2 == 0
  {
    var low := x.Floor;
    var rest := x - low as real;
    if rest < 0.5 || (rest == 0.5 && low % 2 == 0) then low else low + 1
  }

  // The two decimals of round(x, 2), and the six of a printed number as a count of millionths.
  function Hundredths(x: real): (r: real)
    ensures -0.005 <= x - r <= 0.005
  {
    Round(x * 100.0) as real / 100.0
  }

  function Micros(x: real): (r: int)
    ensures -0.0000005 <= x - r as real / 1000000.0 <= 0.0000005
  {
    Round(x * 1000000.0)
  }

  lemma RoundKeepsOrder(x: real, y: real)
    requires x <= y
    ensures Round(x) <= Round(y)
  {
  }

  lemma HundredthsKeepOrder(x: real, y: real)
    requires x <= y
    ensures Hundredths(x) <= Hundredths(y)
  {
    RoundKeepsOrder(x * 100.0, y * 100.0);
  }
}
