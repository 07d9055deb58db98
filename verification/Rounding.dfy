/** The two rounding rules the control loop mixes, over exact reals. */
module Rounding {

  /** Python's built-in `round` to an integer: nearest, ties to the even neighbour. */
  function RoundHalfEven(x: real): int {
    var f := x.Floor;
    var d := x - f as real;
    if d < 0.5 then f
    else if d > 0.5 then f + 1
    else if f % 2 == 0 then f
    else f + 1
  }

  /** `floor(x + 0.5)`: nearest, ties upward. */
  function RoundHalfUp(x: real): int {
    (x + 0.5).Floor
  }

  /** Both rules return a nearest integer, and the only one when it is unique. */
  lemma Nearest(x: real, k: int)
    ensures -0.5 <= x - RoundHalfEven(x) as real <= 0.5
    ensures -0.5 <= x - RoundHalfUp(x) as real < 0.5
    ensures -0.5 < x - k as real < 0.5 ==> RoundHalfEven(x) == k && RoundHalfUp(x) == k
  {
  }

  /** The rules differ exactly on a tie whose lower neighbour is even. */
  lemma RulesDifferExactlyOnEvenTies(x: real)
    ensures RoundHalfEven(x) != RoundHalfUp(x) <==> x - x.Floor as real == 0.5 && x.Floor % 2 == 0
  {
    var f := x.Floor;
    if x - f as real < 0.5 {
      assert RoundHalfUp(x) == f;
    } else {
      assert RoundHalfUp(x) == f + 1;
    }
  }

  lemma RoundHalfEvenMonotone(x: real, y: real)
    requires x <= y
    ensures RoundHalfEven(x) <= RoundHalfEven(y)
  {
    assert x.Floor <= y.Floor;
  }

  /** Two reals less than one apart round to integers at most one apart. */
  lemma RoundHalfEvenClose(x: real, y: real)
    requires x <= y < x + 1.0
    ensures RoundHalfEven(x) <= RoundHalfEven(y) <= RoundHalfEven(x) + 1
  {
    RoundHalfEvenMonotone(x, y);
    assert y.Floor <= x.Floor + 1;
  }
}
