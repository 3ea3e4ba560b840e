/** The rounded, capped percentage the progress bars display. */
module Percent {

  /** `Math.round(x)`: the nearest integer, halves rounding up. */
  function Round(x: real): (n: int)
    ensures x - 0.5 < n as real <= x + 0.5
  {
    (x + 0.5).Floor
  }

  /** `Math.min(Math.round(part / whole * 100), 100)`. */
  function CappedPercent(part: real, whole: real): (p: int)
    requires whole != 0.0
    ensures p <= 100
    ensures p == 100 <==> part / whole * 100.0 >= 99.5
    ensures p < 100 ==> p == Round(part / whole * 100.0)
    ensures 0.0 <= part && 0.0 < whole ==> 0 <= p
  {
    var r := Round(part / whole * 100.0);
    if r < 100 then r else 100
  }
}
