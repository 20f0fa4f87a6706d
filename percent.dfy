/**
 * Percentages. The app computes them as `Double(part) / Double(whole) * 100`
 * and compares the result against whole-number thresholds; here the quotient
 * is an exact `real`, and every threshold test is shown to be the integer
 * cross-multiplication `100 * part >= p * whole`.
 */
module Percent {

  /** `part / whole * 100`, exactly. */
  function Percentage(part: int, whole: int): real
    requires whole != 0
  {
    part as real / whole as real * 100.0
  }

  /** A percentage reaches a threshold exactly when the cross-multiplied integers do. */
  lemma AtLeast(part: int, whole: int, p: int)
    requires whole > 0
    ensures Percentage(part, whole) >= p as real <==> 100 * part >= p * whole
  {
    var w := whole as real;
    var q := part as real / w;
    assert q * w == part as real;
    assert (100 * part) as real == 100.0 * (q * w);
    assert (p * whole) as real == p as real * w;
    if Percentage(part, whole) >= p as real {
      assert q * 100.0 >= p as real;
      assert q * 100.0 * w >= p as real * w;
    } else {
      assert q * 100.0 < p as real;
      assert q * 100.0 * w < p as real * w;
    }
  }

  /** A share of a positive whole lies between 0 and 100 percent. */
  lemma InRange(part: int, whole: int)
    requires 0 <= part <= whole && whole > 0
    ensures 0.0 <= Percentage(part, whole) <= 100.0
  {
    AtLeast(part, whole, 0);
    var w := whole as real;
    var q := part as real / w;
    assert q * w == part as real;
    assert q <= 1.0;
  }

  /** The whole is 100 percent of itself and nothing else is. */
  lemma Full(part: int, whole: int)
    requires 0 <= part <= whole && whole > 0
    ensures Percentage(part, whole) == 100.0 <==> part == whole
  {
    AtLeast(part, whole, 100);
    InRange(part, whole);
  }

  /** `InRange` and `Full` together, for a part not yet known to be at most the whole. */
  lemma ShareFacts(part: int, whole: int)
    requires whole > 0
    ensures 0 <= part <= whole ==>
              0.0 <= Percentage(part, whole) <= 100.0 && (Percentage(part, whole) == 100.0 <==> part == whole)
  {
    if 0 <= part <= whole {
      Full(part, whole);
    }
  }

  /** One share is at most another exactly when the cross-multiplied integers say so. */
  lemma Compare(part1: int, whole1: int, part2: int, whole2: int)
    requires whole1 > 0 && whole2 > 0
    ensures Percentage(part1, whole1) <= Percentage(part2, whole2) <==> part1 * whole2 <= part2 * whole1
  {
    var w1 := whole1 as real;
    var w2 := whole2 as real;
    var q1 := part1 as real / w1;
    var q2 := part2 as real / w2;
    assert q1 * w1 == part1 as real;
    assert q2 * w2 == part2 as real;
    assert (part1 * whole2) as real == q1 * w1 * w2;
    assert (part2 * whole1) as real == q2 * w2 * w1;
    if q1 <= q2 {
      assert q1 * (w1 * w2) <= q2 * (w1 * w2);
    } else {
      assert q1 * (w1 * w2) > q2 * (w1 * w2);
    }
  }
}
