/** Arithmetic on gain values shared by the gain-map corrections and the
    flat-field import. Gains are modelled as mathematical reals: the model does not
    reproduce IEEE-754 single-precision rounding, infinities or NaN. */
module Gains {

  /** `MathF.Min` / `Math.Min` on two gains. */
  function MinF(x: real, y: real): (r: real)
    ensures r <= x && r <= y
    ensures r == x || r == y
  {
    if x <= y then x else y
  }

  /** `Min(Min(a, b), Min(c, d))`: the smallest of the four gains of one
      Bayer 2x2 cell, which is one of them. */
  function Min4(a: real, b: real, c: real, d: real): (r: real)
    ensures r <= a && r <= b && r <= c && r <= d
    ensures r == a || r == b || r == c || r == d
  {
    MinF(MinF(a, b), MinF(c, d))
  }

  /** Quotient of two gains. A zero divisor, for which single-precision division
      yields an infinity or NaN, gives 0.0 in the model. */
  function Quot(x: real, y: real): (r: real)
    ensures y != 0.0 ==> r * y == x
  {
    if y == 0.0 then 0.0 else x / y
  }

  /** The running minimum `if (g < m) { m = g; }` of the source's accumulator
      loops, folded over the gains of one map from left to right. */
  function MinSeq(acc: real, s: seq<real>): (r: real)
    ensures r <= acc
    ensures forall k :: 0 <= k < |s| ==> r <= s[k]
    ensures r == acc || r in s
    decreases |s|
  {
    if |s| == 0 then acc
    else
      var m := MinSeq(acc, s[..|s| - 1]);
      if s[|s| - 1] < m then s[|s| - 1] else m
  }

  /** The same running minimum carried across several maps, in order. */
  function MinMaps(acc: real, maps: seq<seq<real>>): (r: real)
    ensures r <= acc
    ensures forall t, k :: 0 <= t < |maps| && 0 <= k < |maps[t]| ==> r <= maps[t][k]
    ensures r == acc || exists t :: 0 <= t < |maps| && r in maps[t]
    decreases |maps|
  {
    if |maps| == 0 then acc
    else MinSeq(MinMaps(acc, maps[..|maps| - 1]), maps[|maps| - 1])
  }

  /** Dividing the four gains of a cell by their own minimum leaves a cell whose
      minimum is exactly 1: this is what "stripping luminance" achieves. */
  lemma StrippedCellMinimumIsOne(a: real, b: real, c: real, d: real)
    requires 0.0 < a && 0.0 < b && 0.0 < c && 0.0 < d
    ensures var m := Min4(a, b, c, d);
            Min4(Quot(a, m), Quot(b, m), Quot(c, m), Quot(d, m)) == 1.0
    ensures var m := Min4(a, b, c, d);
            1.0 <= Quot(a, m) && 1.0 <= Quot(b, m) && 1.0 <= Quot(c, m) && 1.0 <= Quot(d, m)
  {
    var m := Min4(a, b, c, d);
    assert 0.0 < m;
    QuotAtLeastOne(a, m);
    QuotAtLeastOne(b, m);
    QuotAtLeastOne(c, m);
    QuotAtLeastOne(d, m);
    assert Quot(m, m) == 1.0;
  }

  lemma QuotAtLeastOne(x: real, m: real)
    requires 0.0 < m <= x
    ensures 1.0 <= Quot(x, m)
  {
    assert Quot(x, m) * m == x;
  }
}
