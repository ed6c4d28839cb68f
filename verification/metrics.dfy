/**
 * The arithmetic of the statistics: `Math.round` of a ratio and the completion
 * percentage, done in integers. `Math.round(v)` is `floor(v + 1/2)`, so the
 * rounded value of `x / y` for `y > 0` is `floor((2x + y) / 2y)`, which Dafny's
 * division (rounding down for a positive divisor) computes exactly.
 */
module Metrics {

  /** `Math.round(x / y)`: the integer nearest to `x / y`, halves rounded up. */
  function RoundDiv(x: int, y: int): (r: int)
    requires y > 0
    ensures 2 * y * r - y <= 2 * x < 2 * y * r + y
  {
    var q := (2 * x + y) / (2 * y);
    assert 2 * y * q <= 2 * x + y < 2 * y * q + 2 * y;
    q
  }

  lemma MulMonotone(y: int, a: int, b: int)
    requires y >= 0 && a <= b
    ensures y * a <= y * b
  {
    assert y * b - y * a == y * (b - a);
  }

  /** Two integers both within half a unit of the same ratio are equal: the rounding is unique. */
  lemma RoundDivUnique(x: int, y: int, r: int)
    requires y > 0
    requires 2 * y * r - y <= 2 * x < 2 * y * r + y
    ensures r == RoundDiv(x, y)
  {
    var q := RoundDiv(x, y);
    if r < q {
      MulMonotone(y, r + 1, q);
      assert false;
    } else if r > q {
      MulMonotone(y, q + 1, r);
      assert false;
    }
  }

  /**
   * The completion percentage `total > 0 ? Math.round(completed / total * 100) : 0`.
   */
  function Productivity(completed: nat, total: nat): (p: int)
    ensures total == 0 ==> p == 0
    ensures total > 0 ==> 2 * total * p - total <= 200 * completed < 2 * total * p + total
  {
    if total > 0 then RoundDiv(100 * completed, total) else 0
  }

  /**
   * With no more completed than due tasks the percentage lies in 0..100; it is
   * 0 when none is completed and 100 when all are.
   */
  lemma ProductivityBounds(completed: nat, total: nat)
    requires completed <= total
    ensures 0 <= Productivity(completed, total) <= 100
    ensures completed == 0 ==> Productivity(completed, total) == 0
    ensures 0 < completed == total ==> Productivity(completed, total) == 100
  {
    if total > 0 {
      var p := Productivity(completed, total);
      if p > 100 {
        MulMonotone(total, 101, p);
        assert false;
      }
      if completed == 0 {
        RoundDivUnique(0, total, 0);
      }
      if completed == total {
        RoundDivUnique(100 * total, total, 100);
      }
    }
  }

  /** Three due tasks of which one is completed give 33 per cent. */
  lemma ProductivityOneOfThree()
    ensures Productivity(1, 3) == 33
  {
    RoundDivUnique(100, 3, 33);
  }
}
