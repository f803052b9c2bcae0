/** The Bayer-lattice bookkeeping of `ImportFlatField(filename)`: the raw image of
    a flat-field shot is a grid of 16-bit samples whose 2x2 cells hold the four CFA
    positions B (0,0), G1 (1,0), G2 (0,1) and R (1,1). A first pass finds the
    largest sample of every position, a second pass writes one gain per pixel into
    `gains` and one luminance gain per cell into `lumGains`. The processes that make
    the raw image, the pixel write-back with its `(ushort)` casts and the files
    written afterwards are not part of this model. The pixels are `px[x, y]`, so
    `px.Length0` is the width and `px.Length1` the height. */
module FlatField {
  import opened Gains

  /** The sample at CFA position (dx, dy) of cell (i, j). */
  function Cell(px: array2<nat>, dx: nat, dy: nat, i: nat, j: nat): nat
    requires dx < 2 && dy < 2 && i < px.Length0 / 2 && j < px.Length1 / 2
    reads px
  {
    px[2 * i + dx, 2 * j + dy]
  }

  /** `m` is at least the sample of position (dx, dy) in every cell that comes
      before cell (i, j) in row-major order, inside the `W/2` by `H/2` cells the
      loops visit. */
  ghost predicate BoundsBefore(px: array2<nat>, dx: nat, dy: nat, m: nat, j: int, i: int)
    requires dx < 2 && dy < 2
    reads px
  {
    forall jj: nat, ii: nat :: jj < px.Length1 / 2 && ii < px.Length0 / 2 && (jj < j || (jj == j && ii < i)) ==>
      Cell(px, dx, dy, ii, jj) <= m
  }

  /** `m` is the sample of position (dx, dy) of some visited cell. */
  ghost predicate Attains(px: array2<nat>, dx: nat, dy: nat, m: nat)
    requires dx < 2 && dy < 2
    reads px
  {
    exists jj: nat, ii: nat :: jj < px.Length1 / 2 && ii < px.Length0 / 2 && Cell(px, dx, dy, ii, jj) == m
  }

  /** `m` is the sample of position (dx, dy) of the visited cell `c`. */
  ghost predicate Found(px: array2<nat>, dx: nat, dy: nat, m: nat, c: (int, int))
    requires dx < 2 && dy < 2
    reads px
  {
    0 <= c.0 < px.Length0 / 2 && 0 <= c.1 < px.Length1 / 2 && Cell(px, dx, dy, c.0, c.1) == m
  }

  /** A sample found in a visited cell is attained. */
  lemma FoundAttains(px: array2<nat>, dx: nat, dy: nat, m: nat, c: (int, int))
    requires dx < 2 && dy < 2 && Found(px, dx, dy, m, c)
    ensures Attains(px, dx, dy, m)
  {
  }

  /** `m` is the maximum over the sub-lattice of position (dx, dy). */
  ghost predicate IsLatticeMax(px: array2<nat>, dx: nat, dy: nat, m: nat)
    requires dx < 2 && dy < 2
    reads px
  {
    Attains(px, dx, dy, m) && BoundsBefore(px, dx, dy, m, px.Length1 / 2, 0)
  }

  /** `Math.Max` on two samples. */
  function Max(a: nat, b: nat): (m: nat)
    ensures m >= a && m >= b
    ensures m == a || m == b
  {
    if a >= b then a else b
  }

  /** The running maximum of position (dx, dy) after the cells before (i, j):
      it is the sample of the visited cell `c` and bounds every earlier cell. */
  ghost predicate RunningMax(px: array2<nat>, dx: nat, dy: nat, m: nat, c: (int, int), j: int, i: int)
    requires dx < 2 && dy < 2
    reads px
  {
    Found(px, dx, dy, m, c) && BoundsBefore(px, dx, dy, m, j, i)
  }

  /** Taking the larger of the running maximum and the sample of cell (i, j) gives
      the running maximum after that cell; `c'` is where it was found. */
  lemma MaxStep(px: array2<nat>, dx: nat, dy: nat, m: nat, c: (int, int), j: nat, i: nat) returns (c': (int, int))
    requires dx < 2 && dy < 2 && i < px.Length0 / 2 && j < px.Length1 / 2
    requires RunningMax(px, dx, dy, m, c, j, i)
    ensures RunningMax(px, dx, dy, Max(m, Cell(px, dx, dy, i, j)), c', j, i + 1)
  {
    c' := if Cell(px, dx, dy, i, j) > m then (i, j) else c;
  }

  /** The body of the first pass for cell (i, j): each running maximum grows to the
      cell's sample of its position when that sample is larger. */
  method VisitCell(px: array2<nat>, i: nat, j: nat, b: nat, g1: nat, g2: nat, r: nat)
    returns (b': nat, g1': nat, g2': nat, r': nat)
    requires i < px.Length0 / 2 && j < px.Length1 / 2
    ensures b' == Max(b, Cell(px, 0, 0, i, j)) && g1' == Max(g1, Cell(px, 1, 0, i, j))
    ensures g2' == Max(g2, Cell(px, 0, 1, i, j)) && r' == Max(r, Cell(px, 1, 1, i, j))
  {
    b', g1', g2', r' := b, g1, g2, r;
    if px[i * 2, j * 2] > b' {
      b' := px[i * 2, j * 2];
    }
    if px[i * 2 + 1, j * 2] > g1' {
      g1' := px[i * 2 + 1, j * 2];
    }
    if px[i * 2, j * 2 + 1] > g2' {
      g2' := px[i * 2, j * 2 + 1];
    }
    if px[i * 2 + 1, j * 2 + 1] > r' {
      r' := px[i * 2 + 1, j * 2 + 1];
    }
  }

  /** The first pass: the running maxima `maxValueB`, `maxValueG1`, `maxValueG2`
      and `maxValueR`, started at the four samples of cell (0, 0). The source reads
      those four pixels unconditionally, so the image is at least 2 by 2. */
  method CfaMaxima(px: array2<nat>) returns (b: nat, g1: nat, g2: nat, r: nat)
    requires px.Length0 >= 2 && px.Length1 >= 2
    ensures IsLatticeMax(px, 0, 0, b) && IsLatticeMax(px, 1, 0, g1)
    ensures IsLatticeMax(px, 0, 1, g2) && IsLatticeMax(px, 1, 1, r)
  {
    b, g1, g2, r := px[0, 0], px[1, 0], px[0, 1], px[1, 1];
    // the cells where the four maxima were found
    ghost var cb, cg1, cg2, cr: (int, int) := (0, 0), (0, 0), (0, 0), (0, 0);
    for j := 0 to px.Length1 / 2
      invariant RunningMax(px, 0, 0, b, cb, j, 0) && RunningMax(px, 1, 0, g1, cg1, j, 0)
      invariant RunningMax(px, 0, 1, g2, cg2, j, 0) && RunningMax(px, 1, 1, r, cr, j, 0)
    {
      for i := 0 to px.Length0 / 2
        invariant RunningMax(px, 0, 0, b, cb, j, i) && RunningMax(px, 1, 0, g1, cg1, j, i)
        invariant RunningMax(px, 0, 1, g2, cg2, j, i) && RunningMax(px, 1, 1, r, cr, j, i)
      {
        cb := MaxStep(px, 0, 0, b, cb, j, i);
        cg1 := MaxStep(px, 1, 0, g1, cg1, j, i);
        cg2 := MaxStep(px, 0, 1, g2, cg2, j, i);
        cr := MaxStep(px, 1, 1, r, cr, j, i);
        b, g1, g2, r := VisitCell(px, i, j, b, g1, g2, r);
      }
      RowDone(px, 0, 0, b, cb, j);
      RowDone(px, 1, 0, g1, cg1, j);
      RowDone(px, 0, 1, g2, cg2, j);
      RowDone(px, 1, 1, r, cr, j);
    }
    FoundAttains(px, 0, 0, b, cb);
    FoundAttains(px, 1, 0, g1, cg1);
    FoundAttains(px, 0, 1, g2, cg2);
    FoundAttains(px, 1, 1, r, cr);
  }

  /** A finished row: the running maximum covers the next row's start. */
  lemma RowDone(px: array2<nat>, dx: nat, dy: nat, m: nat, c: (int, int), j: nat)
    requires dx < 2 && dy < 2 && RunningMax(px, dx, dy, m, c, j, px.Length0 / 2)
    ensures RunningMax(px, dx, dy, m, c, j + 1, 0)
  {
  }

  /** The maxima as `ImportFlatField` uses them: after the first pass `maxValueG1`
      becomes the larger of the two green maxima, so it bounds both green
      sub-lattices, while `maxValueG2` keeps its own. */
  method FlatFieldMaxima(px: array2<nat>) returns (b: nat, g1: nat, g2: nat, r: nat)
    requires px.Length0 >= 2 && px.Length1 >= 2
    ensures IsLatticeMax(px, 0, 0, b) && IsLatticeMax(px, 0, 1, g2) && IsLatticeMax(px, 1, 1, r)
    ensures exists g: nat :: IsLatticeMax(px, 1, 0, g) && g1 == Max(g, g2)
    ensures BoundsBefore(px, 1, 0, g1, px.Length1 / 2, 0) && BoundsBefore(px, 0, 1, g1, px.Length1 / 2, 0)
    ensures Attains(px, 1, 0, g1) || Attains(px, 0, 1, g1)
  {
    b, g1, g2, r := CfaMaxima(px);
    ghost var g := g1;
    g1 := Max(g1, g2);
    assert IsLatticeMax(px, 1, 0, g) && g1 == Max(g, g2);
  }

  /** The index into `gains` of pixel (x, y). */
  function GainIndex(x: nat, y: nat, w: nat): nat
  {
    x + y * w
  }

  /** The index into `lumGains` of cell (i, j); the source's `i + j * W / 2`
      multiplies before it halves. */
  function LumIndex(i: nat, j: nat, w: nat): nat
  {
    i + (j * w) / 2
  }

  /** Multiplying by a natural keeps the order. */
  lemma {:induction false} MulMono(a: nat, b: nat, c: nat)
    requires a <= b
    ensures a * c <= b * c
    decreases b - a
  {
    if a < b {
      MulMono(a, b - 1, c);
      assert (b - 1) * c + c == b * c;
    }
  }

  /** Euclidean division has a unique quotient and remainder. */
  lemma DivModUnique(k: nat, w: nat, x: nat, y: nat)
    requires 0 < w && x < w && k == x + y * w
    ensures k / w == y && k % w == x
  {
    var q, r := k / w, k % w;
    assert k == q * w + r && r < w;
    if q < y {
      MulMono(q + 1, y, w);
      assert false;
    } else if q > y {
      MulMono(y + 1, q, w);
      assert false;
    }
  }

  /** An index below `h * w` is in one of the first `h` rows. */
  lemma DivBound(k: nat, w: nat, h: nat)
    requires 0 < w && k < h * w
    ensures k / w < h
  {
    var y := k / w;
    assert k == y * w + k % w;
    if y >= h {
      MulMono(h, y, w);
      assert false;
    }
  }

  /** Every pixel of the image has its `gains` index inside the array of `H * W`
      gains. */
  lemma GainIndexInBounds(x: nat, y: nat, w: nat, h: nat)
    requires x < w && y < h
    ensures GainIndex(x, y, w) < h * w
  {
    MulMono(y + 1, h, w);
    assert (y + 1) * w == y * w + w;
  }

  /** Two pixels inside the width have different `gains` indices. */
  lemma GainIndexInjective(x: nat, y: nat, x': nat, y': nat, w: nat)
    requires x < w && x' < w && GainIndex(x, y, w) == GainIndex(x', y', w)
    ensures x == x' && y == y'
  {
    DivModUnique(GainIndex(x, y, w), w, x, y);
    DivModUnique(GainIndex(x, y, w), w, x', y');
  }

  /** The pixel whose `gains` index is `k`. */
  function PixelOf(k: nat, w: nat): (p: (nat, nat))
    requires 0 < w
  {
    (k % w, k / w)
  }

  /** Every index of `gains` is the index of exactly one pixel of the image, and for
      an even width and height that pixel lies in a cell the second pass visits, so
      the pass writes the whole array. */
  lemma GainIndexCovers(k: nat, w: nat, h: nat)
    requires 0 < w && k < h * w
    ensures PixelOf(k, w).0 < w && PixelOf(k, w).1 < h
    ensures GainIndex(PixelOf(k, w).0, PixelOf(k, w).1, w) == k
    ensures w % 2 == 0 && h % 2 == 0 ==> PixelOf(k, w).0 / 2 < w / 2 && PixelOf(k, w).1 / 2 < h / 2
  {
    DivBound(k, w, h);
  }

  /** The pixel of cell (i, j) at CFA position (dx, dy) lies inside the width. */
  lemma CellPixelInRow(i: nat, dx: nat, w: nat)
    requires i < w / 2 && dx < 2
    ensures 2 * i + dx < w
  {
  }

  /** A pixel outside cell (i, j) shares no `gains` index with the four pixels of
      that cell. */
  lemma PixelOutsideCell(x: nat, y: nat, i: nat, j: nat, w: nat)
    requires x < w && i < w / 2 && (x / 2, y / 2) != (i, j)
    ensures GainIndex(x, y, w) != GainIndex(2 * i, 2 * j, w)
    ensures GainIndex(x, y, w) != GainIndex(2 * i + 1, 2 * j, w)
    ensures GainIndex(x, y, w) != GainIndex(2 * i, 2 * j + 1, w)
    ensures GainIndex(x, y, w) != GainIndex(2 * i + 1, 2 * j + 1, w)
  {
    if GainIndex(x, y, w) == GainIndex(2 * i, 2 * j, w) {
      GainIndexInjective(x, y, 2 * i, 2 * j, w);
    }
    if GainIndex(x, y, w) == GainIndex(2 * i + 1, 2 * j, w) {
      GainIndexInjective(x, y, 2 * i + 1, 2 * j, w);
    }
    if GainIndex(x, y, w) == GainIndex(2 * i, 2 * j + 1, w) {
      GainIndexInjective(x, y, 2 * i, 2 * j + 1, w);
    }
    if GainIndex(x, y, w) == GainIndex(2 * i + 1, 2 * j + 1, w) {
      GainIndexInjective(x, y, 2 * i + 1, 2 * j + 1, w);
    }
  }

  /** Cells of later rows have larger `lumGains` indices. */
  lemma LumIndexRowOrder(i: nat, j: nat, i': nat, j': nat, w: nat)
    requires i < w / 2 && j < j'
    ensures LumIndex(i, j, w) < LumIndex(i', j', w)
  {
    var a, b := j * w, j' * w;
    MulMono(j + 1, j', w);
    assert (j + 1) * w == a + w;
    assert b / 2 >= (a + w) / 2 >= a / 2 + w / 2;
  }

  /** Two visited cells have different `lumGains` indices. */
  lemma LumIndexInjective(i: nat, j: nat, i': nat, j': nat, w: nat)
    requires i < w / 2 && i' < w / 2 && LumIndex(i, j, w) == LumIndex(i', j', w)
    ensures i == i' && j == j'
  {
    if j < j' {
      LumIndexRowOrder(i, j, i', j', w);
    } else if j' < j {
      LumIndexRowOrder(i', j', i, j, w);
    }
  }

  /** Every visited cell has its `lumGains` index inside the array of `H * W / 4`
      gains, for any width and height. */
  lemma LumIndexInBounds(i: nat, j: nat, w: nat, h: nat)
    requires i < w / 2 && j < h / 2
    ensures LumIndex(i, j, w) < (h * w) / 4
  {
    var hh := h / 2;
    LumIndexRowOrder(i, j, 0, hh, w);
    MulMono(2 * hh, h, w);
    var a := hh * w;
    assert (2 * hh) * w == 2 * a;
    assert (h * w) / 4 >= (2 * a) / 4 == a / 2;
  }

  /** The cell whose `lumGains` index is `k`. */
  function LumCellOf(k: nat, w: nat): (c: (nat, nat))
    requires 2 <= w
  {
    (k % (w / 2), k / (w / 2))
  }

  /** For an even width and height every index of `lumGains` is the index of a cell
      the second pass visits. */
  lemma LumIndexCovers(k: nat, w: nat, h: nat)
    requires w % 2 == 0 && h % 2 == 0 && 2 <= w && k < (h * w) / 4
    ensures LumCellOf(k, w).0 < w / 2 && LumCellOf(k, w).1 < h / 2
    ensures LumIndex(LumCellOf(k, w).0, LumCellOf(k, w).1, w) == k
  {
    var hw, hh := w / 2, h / 2;
    assert h * w == 4 * (hh * hw);
    DivBound(k, hw, hh);
    var j := k / hw;
    assert j * w == 2 * (j * hw);
  }

  /** The maximum `ImportFlatField` divides by at CFA position (dx, dy). */
  function MaxAt(dx: nat, dy: nat, b: nat, g1: nat, g2: nat, r: nat): (m: nat)
    ensures m == b || m == g1 || m == g2 || m == r
  {
    if dx == 0 && dy == 0 then b else if dy == 0 then g1 else if dx == 0 then g2 else r
  }

  /** `(float) maxValue / sample`, the gain that lifts a sample to its maximum. */
  function RawGain(px: array2<nat>, dx: nat, dy: nat, i: nat, j: nat, b: nat, g1: nat, g2: nat, r: nat): real
    requires dx < 2 && dy < 2 && i < px.Length0 / 2 && j < px.Length1 / 2
    reads px
  {
    Quot(MaxAt(dx, dy, b, g1, g2, r) as real, Cell(px, dx, dy, i, j) as real)
  }

  /** The luminance gain of cell (i, j): the smallest of its four raw gains. */
  function LumGain(px: array2<nat>, i: nat, j: nat, b: nat, g1: nat, g2: nat, r: nat): real
    requires i < px.Length0 / 2 && j < px.Length1 / 2
    reads px
  {
    Min4(RawGain(px, 0, 0, i, j, b, g1, g2, r), RawGain(px, 1, 0, i, j, b, g1, g2, r),
         RawGain(px, 0, 1, i, j, b, g1, g2, r), RawGain(px, 1, 1, i, j, b, g1, g2, r))
  }

  /** The gain left in `gains`: the raw gain, divided by the cell's luminance gain
      when `StripLum` is set. */
  function FinalGain(px: array2<nat>, dx: nat, dy: nat, i: nat, j: nat,
                     b: nat, g1: nat, g2: nat, r: nat, stripLum: bool): real
    requires dx < 2 && dy < 2 && i < px.Length0 / 2 && j < px.Length1 / 2
    reads px
  {
    var raw := RawGain(px, dx, dy, i, j, b, g1, g2, r);
    if stripLum then Quot(raw, LumGain(px, i, j, b, g1, g2, r)) else raw
  }

  /** With `StripLum` set and every sample of the cell non-zero, the smallest of the
      cell's four final gains is exactly one: only the colour balance is left. */
  lemma StrippedCellIsColourOnly(px: array2<nat>, i: nat, j: nat, b: nat, g1: nat, g2: nat, r: nat)
    requires i < px.Length0 / 2 && j < px.Length1 / 2 && b > 0 && g1 > 0 && g2 > 0 && r > 0
    requires Cell(px, 0, 0, i, j) > 0 && Cell(px, 1, 0, i, j) > 0
    requires Cell(px, 0, 1, i, j) > 0 && Cell(px, 1, 1, i, j) > 0
    ensures Min4(FinalGain(px, 0, 0, i, j, b, g1, g2, r, true), FinalGain(px, 1, 0, i, j, b, g1, g2, r, true),
                 FinalGain(px, 0, 1, i, j, b, g1, g2, r, true), FinalGain(px, 1, 1, i, j, b, g1, g2, r, true)) == 1.0
  {
    var q0, q1 := RawGain(px, 0, 0, i, j, b, g1, g2, r), RawGain(px, 1, 0, i, j, b, g1, g2, r);
    var q2, q3 := RawGain(px, 0, 1, i, j, b, g1, g2, r), RawGain(px, 1, 1, i, j, b, g1, g2, r);
    QuotPositive(b as real, Cell(px, 0, 0, i, j) as real);
    QuotPositive(g1 as real, Cell(px, 1, 0, i, j) as real);
    QuotPositive(g2 as real, Cell(px, 0, 1, i, j) as real);
    QuotPositive(r as real, Cell(px, 1, 1, i, j) as real);
    StrippedCellMinimumIsOne(q0, q1, q2, q3);
  }

  /** A quotient of positive reals is positive. */
  lemma QuotPositive(x: real, y: real)
    requires 0.0 < x && 0.0 < y
    ensures 0.0 < Quot(x, y)
  {
  }

  /** `k` is none of the four `gains` indices of cell (i, j). */
  predicate OffCell(k: nat, i: nat, j: nat, w: nat)
  {
    k != GainIndex(2 * i, 2 * j, w) && k != GainIndex(2 * i + 1, 2 * j, w) &&
    k != GainIndex(2 * i, 2 * j + 1, w) && k != GainIndex(2 * i + 1, 2 * j + 1, w)
  }

  /** The values of cell (i, j) are in place in the gains `g` and the luminance
      gains `l`. */
  ghost predicate CellDone(g: seq<real>, l: seq<real>, px: array2<nat>, i: nat, j: nat,
                           b: nat, g1: nat, g2: nat, r: nat, stripLum: bool)
    requires i < px.Length0 / 2 && j < px.Length1 / 2
    reads px
  {
    var w := px.Length0;
    && GainIndex(2 * i + 1, 2 * j + 1, w) < |g| && LumIndex(i, j, w) < |l|
    && g[GainIndex(2 * i, 2 * j, w)] == FinalGain(px, 0, 0, i, j, b, g1, g2, r, stripLum)
    && g[GainIndex(2 * i + 1, 2 * j, w)] == FinalGain(px, 1, 0, i, j, b, g1, g2, r, stripLum)
    && g[GainIndex(2 * i, 2 * j + 1, w)] == FinalGain(px, 0, 1, i, j, b, g1, g2, r, stripLum)
    && g[GainIndex(2 * i + 1, 2 * j + 1, w)] == FinalGain(px, 1, 1, i, j, b, g1, g2, r, stripLum)
    && l[LumIndex(i, j, w)] == LumGain(px, i, j, b, g1, g2, r)
  }

  /** The four `gains` indices of cell (i, j), in the source's own arithmetic,
      lie one apart within a row and one row apart, inside the array. */
  lemma CellIndices(i: nat, j: nat, w: nat, h: nat)
    requires i < w / 2 && j < h / 2
    ensures i * 2 + j * 2 * w == GainIndex(2 * i, 2 * j, w)
    ensures i * 2 + 1 + j * 2 * w == GainIndex(2 * i + 1, 2 * j, w)
    ensures i * 2 + (j * 2 + 1) * w == GainIndex(2 * i, 2 * j + 1, w) == GainIndex(2 * i, 2 * j, w) + w
    ensures i * 2 + 1 + (j * 2 + 1) * w == GainIndex(2 * i + 1, 2 * j + 1, w) == GainIndex(2 * i, 2 * j, w) + w + 1
    ensures GainIndex(2 * i + 1, 2 * j + 1, w) < h * w
    ensures i + j * w / 2 == LumIndex(i, j, w) < (h * w) / 4
  {
    GainIndexInBounds(2 * i + 1, 2 * j + 1, w, h);
    LumIndexInBounds(i, j, w, h);
  }

  /** The raw half of the body of the second pass for cell (i, j): the four raw
      gains, then the cell's luminance gain as the minimum of what was just
      written. Nothing else in either array changes. */
  method RawCell(gains: array<real>, lumGains: array<real>, px: array2<nat>, i: nat, j: nat,
                 b: nat, g1: nat, g2: nat, r: nat)
    requires i < px.Length0 / 2 && j < px.Length1 / 2
    requires gains.Length == px.Length1 * px.Length0 && lumGains.Length == (px.Length1 * px.Length0) / 4
    requires gains != lumGains
    modifies gains, lumGains
    ensures CellDone(gains[..], lumGains[..], px, i, j, b, g1, g2, r, false)
    ensures forall k :: 0 <= k < gains.Length && OffCell(k, i, j, px.Length0) ==> gains[k] == old(gains[k])
    ensures forall k :: 0 <= k < lumGains.Length && k != LumIndex(i, j, px.Length0) ==> lumGains[k] == old(lumGains[k])
  {
    var w := px.Length0;
    CellIndices(i, j, w, px.Length1);
    gains[i * 2 + j * 2 * w] := Quot(b as real, px[i * 2, j * 2] as real);
    gains[i * 2 + 1 + j * 2 * w] := Quot(g1 as real, px[i * 2 + 1, j * 2] as real);
    gains[i * 2 + (j * 2 + 1) * w] := Quot(g2 as real, px[i * 2, j * 2 + 1] as real);
    gains[i * 2 + 1 + (j * 2 + 1) * w] := Quot(r as real, px[i * 2 + 1, j * 2 + 1] as real);
    lumGains[i + j * w / 2] := Min4(gains[i * 2 + j * 2 * w], gains[i * 2 + 1 + j * 2 * w],
                                    gains[i * 2 + (j * 2 + 1) * w], gains[i * 2 + 1 + (j * 2 + 1) * w]);
  }

  /** The `StripLum` half: the four gains of cell (i, j) divided by the cell's
      luminance gain. Nothing else in `gains` changes. */
  method StripCell(gains: array<real>, lumGains: array<real>, px: array2<nat>, i: nat, j: nat,
                   b: nat, g1: nat, g2: nat, r: nat)
    requires i < px.Length0 / 2 && j < px.Length1 / 2
    requires gains.Length == px.Length1 * px.Length0 && lumGains.Length == (px.Length1 * px.Length0) / 4
    requires gains != lumGains
    requires CellDone(gains[..], lumGains[..], px, i, j, b, g1, g2, r, false)
    modifies gains
    ensures CellDone(gains[..], lumGains[..], px, i, j, b, g1, g2, r, true)
    ensures forall k :: 0 <= k < gains.Length && OffCell(k, i, j, px.Length0) ==> gains[k] == old(gains[k])
  {
    var w := px.Length0;
    CellIndices(i, j, w, px.Length1);
    gains[i * 2 + j * 2 * w] := Quot(gains[i * 2 + j * 2 * w], lumGains[i + j * w / 2]);
    gains[i * 2 + 1 + j * 2 * w] := Quot(gains[i * 2 + 1 + j * 2 * w], lumGains[i + j * w / 2]);
    gains[i * 2 + (j * 2 + 1) * w] := Quot(gains[i * 2 + (j * 2 + 1) * w], lumGains[i + j * w / 2]);
    gains[i * 2 + 1 + (j * 2 + 1) * w] := Quot(gains[i * 2 + 1 + (j * 2 + 1) * w], lumGains[i + j * w / 2]);
  }

  /** The body of the second pass for cell (i, j). */
  method FillCell(gains: array<real>, lumGains: array<real>, px: array2<nat>, i: nat, j: nat,
                  b: nat, g1: nat, g2: nat, r: nat, stripLum: bool)
    requires i < px.Length0 / 2 && j < px.Length1 / 2
    requires gains.Length == px.Length1 * px.Length0 && lumGains.Length == (px.Length1 * px.Length0) / 4
    requires gains != lumGains
    modifies gains, lumGains
    ensures CellDone(gains[..], lumGains[..], px, i, j, b, g1, g2, r, stripLum)
    ensures forall k :: 0 <= k < gains.Length && OffCell(k, i, j, px.Length0) ==> gains[k] == old(gains[k])
    ensures forall k :: 0 <= k < lumGains.Length && k != LumIndex(i, j, px.Length0) ==> lumGains[k] == old(lumGains[k])
  {
    RawCell(gains, lumGains, px, i, j, b, g1, g2, r);
    if stripLum {
      StripCell(gains, lumGains, px, i, j, b, g1, g2, r);
    }
  }

  /** Every visited cell before cell (i, j) in row-major order is in place. */
  ghost predicate FilledBefore(g: seq<real>, l: seq<real>, px: array2<nat>, j: int, i: int,
                               b: nat, g1: nat, g2: nat, r: nat, stripLum: bool)
    reads px
  {
    forall jj: nat, ii: nat :: jj < px.Length1 / 2 && ii < px.Length0 / 2 && (jj < j || (jj == j && ii < i)) ==>
      CellDone(g, l, px, ii, jj, b, g1, g2, r, stripLum)
  }

  /** Writing cell (i, j) keeps every other cell in place, because no two cells
      share an index of either array. */
  lemma FillKeepsOthers(g: seq<real>, l: seq<real>, g0: seq<real>, l0: seq<real>, px: array2<nat>,
                        ii: nat, jj: nat, i: nat, j: nat, b: nat, g1: nat, g2: nat, r: nat, stripLum: bool)
    requires ii < px.Length0 / 2 && jj < px.Length1 / 2 && i < px.Length0 / 2 && j < px.Length1 / 2
    requires (ii, jj) != (i, j) && |g| == |g0| && |l| == |l0|
    requires forall k :: 0 <= k < |g| && OffCell(k, i, j, px.Length0) ==> g[k] == g0[k]
    requires forall k :: 0 <= k < |l| && k != LumIndex(i, j, px.Length0) ==> l[k] == l0[k]
    requires CellDone(g0, l0, px, ii, jj, b, g1, g2, r, stripLum)
    ensures CellDone(g, l, px, ii, jj, b, g1, g2, r, stripLum)
  {
    var w := px.Length0;
    PixelOutsideCell(2 * ii, 2 * jj, i, j, w);
    PixelOutsideCell(2 * ii + 1, 2 * jj, i, j, w);
    PixelOutsideCell(2 * ii, 2 * jj + 1, i, j, w);
    PixelOutsideCell(2 * ii + 1, 2 * jj + 1, i, j, w);
    if LumIndex(ii, jj, w) == LumIndex(i, j, w) {
      LumIndexInjective(ii, jj, i, j, w);
    }
  }

  /** The second pass of `ImportFlatField`: fresh arrays of `H * W` gains and
      `H * W / 4` luminance gains, filled cell by cell in row-major order. */
  method FlatFieldGains(px: array2<nat>, b: nat, g1: nat, g2: nat, r: nat, stripLum: bool)
    returns (gains: array<real>, lumGains: array<real>)
    ensures fresh(gains) && fresh(lumGains)
    ensures gains.Length == px.Length1 * px.Length0 && lumGains.Length == (px.Length1 * px.Length0) / 4
    ensures FilledBefore(gains[..], lumGains[..], px, px.Length1 / 2, 0, b, g1, g2, r, stripLum)
  {
    gains := new real[px.Length1 * px.Length0];
    lumGains := new real[px.Length1 * px.Length0 / 4];
    for j := 0 to px.Length1 / 2
      invariant gains != lumGains
      invariant FilledBefore(gains[..], lumGains[..], px, j, 0, b, g1, g2, r, stripLum)
    {
      for i := 0 to px.Length0 / 2
        invariant FilledBefore(gains[..], lumGains[..], px, j, i, b, g1, g2, r, stripLum)
      {
        ghost var g0, l0 := gains[..], lumGains[..];
        FillCell(gains, lumGains, px, i, j, b, g1, g2, r, stripLum);
        forall jj: nat, ii: nat | jj < px.Length1 / 2 && ii < px.Length0 / 2 && (jj < j || (jj == j && ii < i + 1))
          ensures CellDone(gains[..], lumGains[..], px, ii, jj, b, g1, g2, r, stripLum)
        {
          if (ii, jj) != (i, j) {
            FillKeepsOthers(gains[..], lumGains[..], g0, l0, px, ii, jj, i, j, b, g1, g2, r, stripLum);
          }
        }
      }
    }
  }

  /** The lattice part of `ImportFlatField(filename)` on the raw samples `px`:
      the first pass, the merge of the green maxima, the second pass with the view
      model's `StripLum`. */
  method FlatFieldPasses(px: array2<nat>, stripLum: bool)
    returns (b: nat, g1: nat, g2: nat, r: nat, gains: array<real>, lumGains: array<real>)
    requires px.Length0 >= 2 && px.Length1 >= 2
    ensures IsLatticeMax(px, 0, 0, b) && IsLatticeMax(px, 0, 1, g2) && IsLatticeMax(px, 1, 1, r)
    ensures exists g: nat :: IsLatticeMax(px, 1, 0, g) && g1 == Max(g, g2)
    ensures fresh(gains) && fresh(lumGains)
    ensures gains.Length == px.Length1 * px.Length0 && lumGains.Length == (px.Length1 * px.Length0) / 4
    ensures FilledBefore(gains[..], lumGains[..], px, px.Length1 / 2, 0, b, g1, g2, r, stripLum)
  {
    b, g1, g2, r := FlatFieldMaxima(px);
    gains, lumGains := FlatFieldGains(px, b, g1, g2, r, stripLum);
  }
}
