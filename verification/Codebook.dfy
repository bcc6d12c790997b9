/** The scalar quantizer of quant/codebook.go: quantile initialization, the
    Lloyd-Max iteration on a weighted grid, and nearest-level encoding. */
module Codebooks {
  import opened Vectors
  import opened Rotations

  ghost predicate Sorted(s: Vec) {
    forall i, j :: 0 <= i < j < |s| ==> s[i] <= s[j]
  }

  /** bounds holds the midpoints between neighbouring levels. */
  ghost predicate Midpoints(bounds: Vec, levels: Vec) {
    |bounds| + 1 == |levels| &&
    forall j :: 0 <= j < |bounds| ==> bounds[j] == 0.5 * (levels[j] + levels[j + 1])
  }

  /** Value x falls into cell c: above every bound before it, not above any later one. */
  ghost predicate IsCell(bounds: Vec, x: real, c: nat) {
    && c <= |bounds|
    && (forall b :: 0 <= b < c ==> bounds[b] < x)
    && (forall b :: c <= b < |bounds| ==> x <= bounds[b])
  }

  function Sq(x: real): real { Times(x, x) }

  // ---------- nearest levels ----------

  /** The least squared distance from x to one of the first n levels. */
  ghost function NearestTo(levels: Vec, x: real, n: nat): real
    requires 0 < n <= |levels|
  {
    var d := Sq(x - levels[n - 1]);
    if n == 1 then d
    else var rest := NearestTo(levels, x, n - 1); if d < rest then d else rest
  }

  ghost function NearestCost(levels: Vec, x: real): real
    requires |levels| > 0
  {
    NearestTo(levels, x, |levels|)
  }

  lemma SqLe(a: real, b: real)
    requires -b <= a <= b
    ensures Sq(a) <= Sq(b)
  {
    assert (b - a) * (b + a) >= 0.0;
    assert Sq(b) - Sq(a) == (b - a) * (b + a);
  }

  /** The cell of x names a nearest level. */
  lemma CellIsNearest(levels: Vec, bounds: Vec, x: real, c: nat, j: nat)
    requires Sorted(levels) && Midpoints(bounds, levels) && IsCell(bounds, x, c) && j < |levels|
    ensures Sq(x - levels[c]) <= Sq(x - levels[j])
  {
    hide Sq;
    if c < j {
      assert x <= bounds[c] && levels[c] <= levels[c + 1];
      assert levels[c + 1] <= levels[j];
      SqNeg(x - levels[j]);
      SqLe(x - levels[c], levels[j] - x);
    } else if j < c {
      assert bounds[c - 1] < x && levels[c - 1] <= levels[c];
      assert levels[j] <= levels[c - 1];
      SqLe(x - levels[c], x - levels[j]);
    }
  }

  lemma SqNeg(a: real)
    ensures Sq(a) == Sq(-a)
  {
  }

  lemma {:induction false} NearestToIs(levels: Vec, x: real, c: nat, n: nat)
    requires c < n <= |levels|
    requires forall j :: 0 <= j < |levels| ==> Sq(x - levels[c]) <= Sq(x - levels[j])
    ensures NearestTo(levels, x, n) == Sq(x - levels[c])
  {
    hide Sq;
    if n - 1 > c {
      NearestToIs(levels, x, c, n - 1);
    } else if n > 1 {
      NearestToAbove(levels, x, c, n - 1);
    }
  }

  lemma {:induction false} NearestToAbove(levels: Vec, x: real, c: nat, n: nat)
    requires c < |levels| && 0 < n <= |levels|
    requires forall j :: 0 <= j < |levels| ==> Sq(x - levels[c]) <= Sq(x - levels[j])
    ensures NearestTo(levels, x, n) >= Sq(x - levels[c])
  {
    hide Sq;
    if n > 1 {
      NearestToAbove(levels, x, c, n - 1);
    }
  }

  lemma {:induction false} NearestToBelow(levels: Vec, x: real, j: nat, n: nat)
    requires j < n <= |levels|
    ensures NearestTo(levels, x, n) <= Sq(x - levels[j])
  {
    hide Sq;
    if n - 1 > j {
      NearestToBelow(levels, x, j, n - 1);
    }
  }

  lemma NearestCostBelow(levels: Vec, x: real, j: nat)
    requires j < |levels|
    ensures NearestCost(levels, x) <= Sq(x - levels[j])
  {
    NearestToBelow(levels, x, j, |levels|);
  }

  lemma CellCost(levels: Vec, bounds: Vec, x: real, c: nat)
    requires Sorted(levels) && Midpoints(bounds, levels) && IsCell(bounds, x, c)
    ensures NearestCost(levels, x) == Sq(x - levels[c])
  {
    hide Sq;
    forall j | 0 <= j < |levels| ensures Sq(x - levels[c]) <= Sq(x - levels[j]) {
      CellIsNearest(levels, bounds, x, c, j);
    }
    NearestToIs(levels, x, c, |levels|);
  }

  /** Encode: the first threshold that is not below z, found by binary search. */
  method Encode(bounds: Vec, z: real) returns (code: nat)
    requires Sorted(bounds)
    ensures IsCell(bounds, z, code)
  {
    var lo, hi := 0, |bounds|;
    while lo < hi
      invariant 0 <= lo <= hi <= |bounds|
      invariant forall b :: 0 <= b < lo ==> bounds[b] < z
      invariant forall b :: hi <= b < |bounds| ==> z <= bounds[b]
    {
      var mid := (lo + hi) / 2;
      if bounds[mid] >= z {
        hi := mid;
      } else {
        lo := mid + 1;
      }
    }
    code := lo;
  }

  lemma MidpointsSorted(bounds: Vec, levels: Vec)
    requires Sorted(levels) && Midpoints(bounds, levels)
    ensures Sorted(bounds)
  {
    forall i, j | 0 <= i < j < |bounds| ensures bounds[i] <= bounds[j] {
      assert levels[i] <= levels[j] && levels[i + 1] <= levels[j + 1];
    }
  }

  // ---------- weighted distortion on the grid ----------

  /** A sample grid: ascending points with non-negative weights. */
  datatype Grid = Grid(xs: Vec, w: Vec) {
    ghost predicate Valid() {
      |xs| == |w| > 0 && Sorted(xs) && forall i :: 0 <= i < |w| ==> w[i] >= 0.0
    }
  }

  /** Weighted squared error of the first n points when point i uses level cell[i]. */
  ghost function Cost(g: Grid, levels: Vec, cell: seq<nat>, n: nat): real
    requires n <= |g.xs| && n <= |g.w| && n <= |cell|
    requires forall i :: 0 <= i < |cell| ==> cell[i] < |levels|
  {
    if n == 0 then 0.0
    else Cost(g, levels, cell, n - 1) + Times(g.w[n - 1], Sq(g.xs[n - 1] - levels[cell[n - 1]]))
  }

  /** Weighted squared error of the first n points when each uses its nearest level. */
  ghost function DistortionTo(g: Grid, levels: Vec, n: nat): real
    requires n <= |g.xs| && n <= |g.w| && |levels| > 0
  {
    if n == 0 then 0.0
    else DistortionTo(g, levels, n - 1) + Times(g.w[n - 1], NearestCost(levels, g.xs[n - 1]))
  }

  ghost function Distortion(g: Grid, levels: Vec): real
    requires g.Valid() && |levels| > 0
  {
    DistortionTo(g, levels, |g.xs|)
  }

  /** Weighted sum of squared levels over the assigned points. */
  ghost function PowerTo(g: Grid, levels: Vec, cell: seq<nat>, n: nat): real
    requires n <= |g.w| && n <= |cell|
    requires forall i :: 0 <= i < |cell| ==> cell[i] < |levels|
  {
    if n == 0 then 0.0
    else PowerTo(g, levels, cell, n - 1) + Times(g.w[n - 1], Sq(levels[cell[n - 1]]))
  }

  /** Total weight of the first n points assigned to cell j. */
  ghost function DenTo(g: Grid, cell: seq<nat>, j: nat, n: nat): real
    requires n <= |g.w| && n <= |cell|
  {
    if n == 0 then 0.0
    else DenTo(g, cell, j, n - 1) + (if cell[n - 1] == j then g.w[n - 1] else 0.0)
  }

  /** First moment of the first n points assigned to cell j. */
  ghost function NumTo(g: Grid, cell: seq<nat>, j: nat, n: nat): real
    requires n <= |g.xs| && n <= |g.w| && n <= |cell|
  {
    if n == 0 then 0.0
    else NumTo(g, cell, j, n - 1) + (if cell[n - 1] == j then Times(g.w[n - 1], g.xs[n - 1]) else 0.0)
  }

  /** Cell is the assignment of every grid point under the bounds. */
  ghost predicate Assigned(g: Grid, bounds: Vec, cell: seq<nat>) {
    |cell| == |g.xs| && forall i :: 0 <= i < |cell| ==> IsCell(bounds, g.xs[i], cell[i])
  }

  lemma {:induction false} CostIsDistortion(g: Grid, levels: Vec, bounds: Vec, cell: seq<nat>, n: nat)
    requires g.Valid() && Sorted(levels) && Midpoints(bounds, levels) && Assigned(g, bounds, cell) && n <= |cell|
    ensures Cost(g, levels, cell, n) == DistortionTo(g, levels, n)
  {
    hide Sq, NearestCost, Times;
    if n > 0 {
      CostIsDistortion(g, levels, bounds, cell, n - 1);
      CellCost(levels, bounds, g.xs[n - 1], cell[n - 1]);
    }
  }

  /** Any assignment costs at least the nearest one. */
  lemma {:induction false} DistortionIsLeast(g: Grid, levels: Vec, cell: seq<nat>, n: nat)
    requires g.Valid() && |cell| == |g.xs| && n <= |cell| && |levels| > 0
    requires forall i :: 0 <= i < |cell| ==> cell[i] < |levels|
    ensures DistortionTo(g, levels, n) <= Cost(g, levels, cell, n)
  {
    hide Sq, Times, NearestCost;
    if n > 0 {
      DistortionIsLeast(g, levels, cell, n - 1);
      NearestCostBelow(levels, g.xs[n - 1], cell[n - 1]);
      MulLe(g.w[n - 1], NearestCost(levels, g.xs[n - 1]), Sq(g.xs[n - 1] - levels[cell[n - 1]]));
    }
  }

  lemma MulLe(w: real, a: real, b: real)
    requires w >= 0.0 && a <= b
    ensures Times(w, a) <= Times(w, b)
  {
  }

  /** What moving a level from a to y adds to the cost of a cell with these moments. */
  ghost function MoveDelta(a: real, y: real, den: real, num: real): real {
    Times(Sq(y) - Sq(a), den) - Times(2.0 * (y - a), num)
  }

  lemma SqShift(x: real, y: real, a: real)
    ensures Sq(x - y) - Sq(x - a) == Sq(y) - Sq(a) - Times(2.0 * (y - a), x)
  {
  }

  lemma TimesAddRight(x: real, v: real, w: real)
    ensures Times(x, v + w) == Times(x, v) + Times(x, w)
    ensures Times(x, v - w) == Times(x, v) - Times(x, w)
  {
  }

  lemma TimesSwap(w: real, d: real, x: real)
    ensures Times(w, Times(d, x)) == Times(d, Times(w, x))
  {
  }

  lemma MoveStep(x: real, w: real, a: real, y: real, den: real, num: real, den': real, num': real)
    requires den' == den + w && num' == num + Times(w, x)
    ensures MoveDelta(a, y, den, num) + Times(w, Sq(x - y)) == MoveDelta(a, y, den', num') + Times(w, Sq(x - a))
  {
    var s, d := Sq(y) - Sq(a), 2.0 * (y - a);
    SqShift(x, y, a);
    hide Times, Sq;
    assert Sq(x - y) == Sq(x - a) + (s - Times(d, x));
    TimesAddRight(w, Sq(x - a), s - Times(d, x));
    TimesAddRight(w, s, Times(d, x));
    TimesSwap(w, d, x);
    TimesCommutes(w, s);
    TimesAddRight(s, den, w);
    TimesAddRight(d, num, Times(w, x));
  }

  /** Moving one level changes the cost by a quadratic in that level alone. */
  lemma {:induction false} MoveOne(g: Grid, levels: Vec, cell: seq<nat>, j: nat, y: real, n: nat)
    requires |g.xs| == |g.w| == |cell| && n <= |cell| && j < |levels|
    requires forall i :: 0 <= i < |cell| ==> cell[i] < |levels|
    ensures Cost(g, levels[j := y], cell, n)
         == Cost(g, levels, cell, n) + MoveDelta(levels[j], y, DenTo(g, cell, j, n), NumTo(g, cell, j, n))
  {
    if n > 0 {
      hide Sq, MoveDelta, Times;
      MoveOne(g, levels, cell, j, y, n - 1);
      if cell[n - 1] == j {
        MoveStep(g.xs[n - 1], g.w[n - 1], levels[j], y, DenTo(g, cell, j, n - 1), NumTo(g, cell, j, n - 1),
                 DenTo(g, cell, j, n), NumTo(g, cell, j, n));
      }
    }
  }

  /** Moving a level to its centroid gains weight times the squared shift. */
  lemma CentroidGain(g: Grid, levels: Vec, cell: seq<nat>, j: nat, y: real)
    requires |g.xs| == |g.w| == |cell| && j < |levels|
    requires forall i :: 0 <= i < |cell| ==> cell[i] < |levels|
    requires Times(y, DenTo(g, cell, j, |cell|)) == NumTo(g, cell, j, |cell|)
    ensures Cost(g, levels[j := y], cell, |cell|)
         == Cost(g, levels, cell, |cell|) - Times(DenTo(g, cell, j, |cell|), Sq(y - levels[j]))
  {
    hide *;
    MoveOne(g, levels, cell, j, y, |cell|);
    GainAlgebra(DenTo(g, cell, j, |cell|), y, levels[j], NumTo(g, cell, j, |cell|));
  }

  lemma GainAlgebra(den: real, y: real, a: real, num: real)
    requires Times(y, den) == num
    ensures MoveDelta(a, y, den, num) == -Times(den, Sq(y - a))
  {
    var s, d := Sq(y) - Sq(a), 2.0 * (y - a);
    SqShift(y, y, a);
    assert Sq(y - y) == 0.0;
    hide Times, Sq;
    TimesCommutes(y, den);
    TimesSwap(d, den, y);
    TimesCommutes(s, den);
    TimesAddRight(den, s, Times(d, y));
    TimesNegate(den, Sq(y - a));
  }

  lemma TimesNegate(x: real, y: real)
    ensures Times(x, -y) == -Times(x, y)
  {
  }

  // ---------- cells of the whole grid ----------

  /** The first index from c on whose bound is not below x. */
  function CellFrom(bounds: Vec, x: real, c: nat): (r: nat)
    requires c <= |bounds|
    ensures c <= r <= |bounds|
    decreases |bounds| - c
  {
    if c < |bounds| && x > bounds[c] then CellFrom(bounds, x, c + 1) else c
  }

  lemma {:induction false} CellFromIs(bounds: Vec, x: real, c: nat)
    requires Sorted(bounds) && c <= |bounds| && forall b :: 0 <= b < c ==> bounds[b] < x
    ensures IsCell(bounds, x, CellFrom(bounds, x, c))
    decreases |bounds| - c
  {
    if c < |bounds| && x > bounds[c] {
      CellFromIs(bounds, x, c + 1);
    }
  }

  lemma CellNotAbove(bounds: Vec, x: real, c: nat, d: nat)
    requires IsCell(bounds, x, c) && IsCell(bounds, x, d)
    ensures d <= c
  {
    if c < |bounds| {
      var v := bounds[c];
      assert x <= v;
    }
  }

  lemma CellUnique(bounds: Vec, x: real, c: nat, d: nat)
    requires IsCell(bounds, x, c) && IsCell(bounds, x, d)
    ensures c == d
  {
    CellNotAbove(bounds, x, c, d);
    CellNotAbove(bounds, x, d, c);
  }

  ghost function Cells(g: Grid, bounds: Vec): (cell: seq<nat>)
    ensures |cell| == |g.xs| && forall i :: 0 <= i < |cell| ==> cell[i] <= |bounds|
    ensures Sorted(bounds) ==> Assigned(g, bounds, cell)
  {
    var cell := seq(|g.xs|, i requires 0 <= i < |g.xs| => CellFrom(bounds, g.xs[i], 0));
    assert Sorted(bounds) ==> Assigned(g, bounds, cell) by {
      if Sorted(bounds) {
        forall i | 0 <= i < |g.xs| ensures IsCell(bounds, g.xs[i], cell[i]) {
          CellFromIs(bounds, g.xs[i], 0);
        }
      }
    }
    cell
  }

  /** Advancing the cell pointer of the previous point finds the cell of the next one. */
  method AdvanceCell(g: Grid, bounds: Vec, i: nat, from: nat) returns (c: nat)
    requires g.Valid() && Sorted(bounds) && i < |g.xs| && from <= |bounds|
    requires forall b :: 0 <= b < from ==> bounds[b] < g.xs[i]
    ensures c == Cells(g, bounds)[i] && c <= |bounds|
    ensures forall b :: 0 <= b < c ==> bounds[b] < g.xs[i]
    ensures i + 1 < |g.xs| ==> forall b :: 0 <= b < c ==> bounds[b] < g.xs[i + 1]
  {
    c := from;
    while c < |bounds| && g.xs[i] > bounds[c]
      invariant c <= |bounds| && forall b :: 0 <= b < c ==> bounds[b] < g.xs[i]
    {
      c := c + 1;
    }
    assert IsCell(bounds, g.xs[i], c);
    CellUnique(bounds, g.xs[i], c, Cells(g, bounds)[i]);
    assert i + 1 < |g.xs| ==> g.xs[i] <= g.xs[i + 1];
  }

  /** First moments and masses of all cells in one sweep over the grid. */
  method Moments(g: Grid, bounds: Vec) returns (num: array<real>, den: array<real>)
    requires g.Valid() && Sorted(bounds)
    ensures fresh(num) && fresh(den) && num.Length == den.Length == |bounds| + 1
    ensures forall j :: 0 <= j < num.Length ==> num[j] == NumTo(g, Cells(g, bounds), j, |g.xs|)
    ensures forall j :: 0 <= j < den.Length ==> den[j] == DenTo(g, Cells(g, bounds), j, |g.xs|)
  {
    var k := |bounds| + 1;
    num, den := new real[k](_ => 0.0), new real[k](_ => 0.0);
    ghost var cell := Cells(g, bounds);
    var c := 0;
    for i := 0 to |g.xs|
      invariant c <= |bounds|
      invariant i < |g.xs| ==> forall b :: 0 <= b < c ==> bounds[b] < g.xs[i]
      invariant forall j :: 0 <= j < k ==> num[j] == NumTo(g, cell, j, i)
      invariant forall j :: 0 <= j < k ==> den[j] == DenTo(g, cell, j, i)
    {
      c := AdvanceCell(g, bounds, i, c);
      hide Times, Cells;
      num[c] := num[c] + Times(g.w[i], g.xs[i]);
      den[c] := den[c] + g.w[i];
    }
  }

  // ---------- one Lloyd-Max pass ----------

  /** The new level of cell j: its centroid, or the old level when the cell is empty. */
  ghost function Centroid(g: Grid, cell: seq<nat>, levels: Vec, j: nat): real
    requires |g.xs| == |g.w| == |cell| && j < |levels|
  {
    var den := DenTo(g, cell, j, |cell|);
    if den > 0.0 then NumTo(g, cell, j, |cell|) / den else levels[j]
  }

  /** What the first n centroid moves save. */
  ghost function GainTo(g: Grid, cell: seq<nat>, levels: Vec, n: nat): real
    requires |g.xs| == |g.w| == |cell| && n <= |levels|
  {
    if n == 0 then 0.0
    else GainTo(g, cell, levels, n - 1)
         + Times(DenTo(g, cell, n - 1, |cell|), Sq(Centroid(g, cell, levels, n - 1) - levels[n - 1]))
  }

  lemma {:induction false} DenNonNegative(g: Grid, cell: seq<nat>, j: nat, n: nat)
    requires g.Valid() && |cell| == |g.xs| && n <= |cell|
    ensures DenTo(g, cell, j, n) >= 0.0
  {
    if n > 0 {
      DenNonNegative(g, cell, j, n - 1);
    }
  }

  lemma {:induction false} GainNonNegative(g: Grid, cell: seq<nat>, levels: Vec, n: nat)
    requires g.Valid() && |cell| == |g.xs| && n <= |levels|
    ensures GainTo(g, cell, levels, n) >= 0.0
  {
    if n > 0 {
      GainNonNegative(g, cell, levels, n - 1);
      DenNonNegative(g, cell, n - 1, |cell|);
      SquareNonNegative(Centroid(g, cell, levels, n - 1) - levels[n - 1]);
      MulLe(DenTo(g, cell, n - 1, |cell|), 0.0, Sq(Centroid(g, cell, levels, n - 1) - levels[n - 1]));
    }
  }

  /** y lies between the bounds of cell j. */
  ghost predicate InRange(bounds: Vec, y: real, j: nat)
    requires j <= |bounds|
  {
    (j > 0 ==> bounds[j - 1] <= y) && (j < |bounds| ==> y <= bounds[j])
  }

  lemma RangesSorted(bounds: Vec, levels: Vec)
    requires Sorted(bounds) && |levels| == |bounds| + 1
    requires forall j :: 0 <= j < |levels| ==> InRange(bounds, levels[j], j)
    ensures Sorted(levels)
  {
    forall i, j | 0 <= i < j < |levels| ensures levels[i] <= levels[j] {
      assert InRange(bounds, levels[i], i) && InRange(bounds, levels[j], j);
      assert bounds[i] <= bounds[j - 1];
    }
  }

  lemma {:induction false} MomentAbove(g: Grid, cell: seq<nat>, j: nat, lo: real, n: nat)
    requires g.Valid() && |cell| == |g.xs| && n <= |cell|
    requires forall i :: 0 <= i < |cell| && cell[i] == j ==> lo <= g.xs[i]
    ensures Times(DenTo(g, cell, j, n), lo) <= NumTo(g, cell, j, n)
  {
    if n > 0 {
      MomentAbove(g, cell, j, lo, n - 1);
      hide Times;
      if cell[n - 1] == j {
        MulLe(g.w[n - 1], lo, g.xs[n - 1]);
        TimesAdd(DenTo(g, cell, j, n - 1), g.w[n - 1], lo);
      }
    } else {
      assert Times(0.0, lo) == 0.0;
    }
  }

  lemma {:induction false} MomentBelow(g: Grid, cell: seq<nat>, j: nat, hi: real, n: nat)
    requires g.Valid() && |cell| == |g.xs| && n <= |cell|
    requires forall i :: 0 <= i < |cell| && cell[i] == j ==> g.xs[i] <= hi
    ensures NumTo(g, cell, j, n) <= Times(DenTo(g, cell, j, n), hi)
  {
    if n > 0 {
      MomentBelow(g, cell, j, hi, n - 1);
      hide Times;
      if cell[n - 1] == j {
        MulLe(g.w[n - 1], g.xs[n - 1], hi);
        TimesAdd(DenTo(g, cell, j, n - 1), g.w[n - 1], hi);
      }
    } else {
      assert Times(0.0, hi) == 0.0;
    }
  }

  lemma TimesAdd(v: real, w: real, x: real)
    ensures Times(v + w, x) == Times(v, x) + Times(w, x)
  {
  }

  lemma QuotientBounds(num: real, den: real, y: real)
    requires den > 0.0
    ensures Times(den, y) <= num ==> y <= num / den
    ensures num <= Times(den, y) ==> num / den <= y
    ensures Times(num / den, den) == num
  {
    var q := num / den;
    assert q * den == num;
    assert y > q ==> den * y > den * q;
    assert q > y ==> den * q > den * y;
  }

  /** A centroid stays between the bounds of its cell. */
  lemma CentroidInRange(g: Grid, bounds: Vec, levels: Vec, j: nat)
    requires g.Valid() && Sorted(levels) && Midpoints(bounds, levels) && j < |levels|
    ensures InRange(bounds, Centroid(g, Cells(g, bounds), levels, j), j)
    ensures InRange(bounds, levels[j], j)
  {
    var cell := Cells(g, bounds);
    MidpointsSorted(bounds, levels);
    assert j > 0 ==> levels[j - 1] <= levels[j];
    assert j < |bounds| ==> levels[j] <= levels[j + 1];
    var den, num := DenTo(g, cell, j, |cell|), NumTo(g, cell, j, |cell|);
    if den > 0.0 {
      if j > 0 {
        MomentAbove(g, cell, j, bounds[j - 1], |cell|);
        QuotientBounds(num, den, bounds[j - 1]);
      }
      if j < |bounds| {
        MomentBelow(g, cell, j, bounds[j], |cell|);
        QuotientBounds(num, den, bounds[j]);
      }
    }
  }

  lemma CentroidStep(g: Grid, cell: seq<nat>, levels: Vec, old_: Vec, j: nat)
    requires |g.xs| == |g.w| == |cell| && j < |levels| == |old_| && levels[j] == old_[j]
    requires forall i :: 0 <= i < |cell| ==> cell[i] < |levels|
    ensures Cost(g, levels[j := Centroid(g, cell, old_, j)], cell, |cell|)
         == Cost(g, levels, cell, |cell|)
            - Times(DenTo(g, cell, j, |cell|), Sq(Centroid(g, cell, old_, j) - old_[j]))
  {
    var den, num := DenTo(g, cell, j, |cell|), NumTo(g, cell, j, |cell|);
    hide Cost, DenTo, NumTo;
    if den > 0.0 {
      QuotientBounds(num, den, 0.0);
      hide *;
      CentroidGain(g, levels, cell, j, num / den);
    } else {
      assert levels[j := levels[j]] == levels;
      assert Times(den, Sq(0.0)) == 0.0;
    }
  }

  /** The largest move of the first n levels. */
  ghost predicate IsShift(shift: real, before: Vec, after: Vec, n: nat) {
    && n <= |before| == |after|
    && (forall i :: 0 <= i < n ==> Abs(after[i] - before[i]) <= shift)
    && (shift == 0.0 || exists i :: 0 <= i < n && shift == Abs(after[i] - before[i]))
  }

  lemma ShiftNext(shift: real, next: real, before: Vec, was: Vec, after: Vec, j: nat)
    requires IsShift(shift, before, was, j) && j < |was| == |after| && after == was[j := after[j]] && shift >= 0.0
    requires next == (if Abs(after[j] - before[j]) > shift then Abs(after[j] - before[j]) else shift)
    ensures IsShift(next, before, after, j + 1)
  {
    if next == shift != 0.0 {
      var i :| 0 <= i < j && shift == Abs(was[i] - before[i]);
      assert after[i] == was[i];
    }
  }

  /** One iteration: midpoints, moments of every cell, then every level to its
      centroid. The levels stay sorted and the distortion falls by at least the
      weighted squared shifts. */
  method LloydPass(g: Grid, levels: array<real>, bounds: array<real>) returns (maxShift: real)
    requires g.Valid() && levels != bounds
    requires levels.Length == bounds.Length + 1 && Sorted(levels[..])
    modifies levels, bounds
    ensures Midpoints(bounds[..], old(levels[..]))
    ensures forall j :: 0 <= j < levels.Length ==>
              levels[j] == Centroid(g, Cells(g, bounds[..]), old(levels[..]), j)
    ensures Sorted(levels[..])
    ensures Distortion(g, levels[..])
         <= Distortion(g, old(levels[..])) - GainTo(g, Cells(g, bounds[..]), old(levels[..]), levels.Length)
    ensures IsShift(maxShift, old(levels[..]), levels[..], levels.Length)
  {
    FillMidpoints(levels, bounds);
    ghost var bs, before := bounds[..], levels[..];
    MidpointsSorted(bs, before);
    var num, den := Moments(g, bounds[..]);
    hide *;
    maxShift := UpdateLevels(g, Cells(g, bs), levels, num, den);
    PassIsSorted(g, bs, before, levels[..]);
    PassImproves(g, bs, before, levels[..]);
  }

  /** Every non-empty cell's level to its centroid, in place. */
  method UpdateLevels(g: Grid, ghost cell: seq<nat>, levels: array<real>, num: array<real>, den: array<real>)
    returns (maxShift: real)
    requires |g.xs| == |g.w| == |cell| && levels.Length == num.Length == den.Length
    requires levels != num && levels != den
    requires forall i :: 0 <= i < |cell| ==> cell[i] < levels.Length
    requires forall i :: 0 <= i < num.Length ==> num[i] == NumTo(g, cell, i, |cell|)
    requires forall i :: 0 <= i < den.Length ==> den[i] == DenTo(g, cell, i, |cell|)
    modifies levels
    ensures forall j :: 0 <= j < levels.Length ==> levels[j] == Centroid(g, cell, old(levels[..]), j)
    ensures Cost(g, levels[..], cell, |cell|)
         == Cost(g, old(levels[..]), cell, |cell|) - GainTo(g, cell, old(levels[..]), levels.Length)
    ensures IsShift(maxShift, old(levels[..]), levels[..], levels.Length)
  {
    hide Cost, DenTo, NumTo, Sq, Times;
    ghost var before := levels[..];
    maxShift := 0.0;
    for j := 0 to levels.Length
      invariant forall i :: 0 <= i < j ==> levels[i] == Centroid(g, cell, before, i)
      invariant forall i :: j <= i < levels.Length ==> levels[i] == before[i]
      invariant Cost(g, levels[..], cell, |cell|) == Cost(g, before, cell, |cell|) - GainTo(g, cell, before, j)
      invariant IsShift(maxShift, before, levels[..], j) && maxShift >= 0.0
    {
      ghost var was, shift := levels[..], maxShift;
      CentroidStep(g, cell, was, before, j);
      if den[j] > 0.0 {
        var nl := num[j] / den[j];
        var d := Abs(nl - levels[j]);
        if d > maxShift {
          maxShift := d;
        }
        levels[j] := nl;
      }
      assert levels[..] == was[j := Centroid(g, cell, before, j)];
      ShiftNext(shift, maxShift, before, was, levels[..], j);
    }
  }

  method FillMidpoints(levels: array<real>, bounds: array<real>)
    requires levels.Length == bounds.Length + 1 && levels != bounds
    modifies bounds
    ensures Midpoints(bounds[..], levels[..])
  {
    for j := 0 to bounds.Length
      invariant forall i :: 0 <= i < j ==> bounds[i] == 0.5 * (levels[i] + levels[i + 1])
    {
      bounds[j] := 0.5 * (levels[j] + levels[j + 1]);
    }
  }

  lemma PassIsSorted(g: Grid, bounds: Vec, before: Vec, after: Vec)
    requires g.Valid() && Sorted(before) && Midpoints(bounds, before) && |after| == |before|
    requires forall j :: 0 <= j < |after| ==> after[j] == Centroid(g, Cells(g, bounds), before, j)
    ensures Sorted(after)
  {
    MidpointsSorted(bounds, before);
    forall j | 0 <= j < |after| ensures InRange(bounds, after[j], j) {
      CentroidInRange(g, bounds, before, j);
    }
    RangesSorted(bounds, after);
  }

  lemma PassImproves(g: Grid, bounds: Vec, before: Vec, after: Vec)
    requires g.Valid() && Sorted(before) && Midpoints(bounds, before) && |after| == |before|
    requires var cell := Cells(g, bounds);
      Cost(g, after, cell, |cell|) == Cost(g, before, cell, |cell|) - GainTo(g, cell, before, |before|)
    ensures Distortion(g, after) <= Distortion(g, before) - GainTo(g, Cells(g, bounds), before, |before|)
  {
    var cell := Cells(g, bounds);
    MidpointsSorted(bounds, before);
    CostIsDistortion(g, before, bounds, cell, |cell|);
    DistortionIsLeast(g, after, cell, |cell|);
  }

  // ---------- quantile initialization ----------

  ghost function MassTo(g: Grid, n: nat): real
    requires n <= |g.w|
  {
    if n == 0 then 0.0 else MassTo(g, n - 1) + g.w[n - 1]
  }

  lemma {:induction false} MassMonotone(g: Grid, m: nat, n: nat)
    requires g.Valid() && m <= n <= |g.w|
    ensures MassTo(g, m) <= MassTo(g, n)
    decreases n
  {
    if m < n {
      MassMonotone(g, m, n - 1);
    }
  }

  /** The first grid index from i on whose cumulative mass reaches the target, or the last index. */
  ghost function QuantileFrom(g: Grid, target: real, i: nat): (r: nat)
    requires g.Valid() && i < |g.xs|
    ensures i <= r < |g.xs|
    decreases |g.xs| - i
  {
    if i == |g.xs| - 1 || MassTo(g, i + 1) >= target then i else QuantileFrom(g, target, i + 1)
  }

  lemma {:induction false} QuantileIs(g: Grid, target: real, i: nat, r: nat)
    requires g.Valid() && i <= r < |g.xs|
    requires forall m :: i < m <= r ==> MassTo(g, m) < target
    requires r == |g.xs| - 1 || MassTo(g, r + 1) >= target
    ensures QuantileFrom(g, target, i) == r
    decreases r - i
  {
    if i < r {
      QuantileIs(g, target, i + 1, r);
    }
  }

  lemma {:induction false} QuantileMonotone(g: Grid, s: real, t: real, i: nat)
    requires g.Valid() && i < |g.xs| && s <= t
    ensures QuantileFrom(g, s, i) <= QuantileFrom(g, t, i)
    decreases |g.xs| - i
  {
    if i < |g.xs| - 1 && MassTo(g, i + 1) < s {
      QuantileMonotone(g, s, t, i + 1);
    }
  }

  function Target(j: nat, k: nat, acc: real): real
    requires k > 0
  {
    ((j as real + 0.5) / k as real) * acc
  }

  lemma TargetMonotone(i: nat, j: nat, k: nat, acc: real)
    requires k > 0 && i <= j && acc >= 0.0
    ensures Target(i, k, acc) <= Target(j, k, acc)
  {
    var p, q := (i as real + 0.5) / k as real, (j as real + 0.5) / k as real;
    assert p <= q by {
      assert p * k as real == i as real + 0.5 && q * k as real == j as real + 0.5;
      assert p > q ==> p * k as real > q * k as real;
    }
    MulLe(acc, p, q);
  }

  /** The quantile initialization: level j sits at the (j + 1/2)/k quantile. */
  ghost function Initial(g: Grid, k: nat): (levels: Vec)
    requires g.Valid() && k > 0
    ensures |levels| == k
    ensures forall j :: 0 <= j < k ==>
              levels[j] == g.xs[QuantileFrom(g, Target(j, k, MassTo(g, |g.xs|)), 0)]
  {
    seq(k, j requires 0 <= j < k => g.xs[QuantileFrom(g, Target(j, k, MassTo(g, |g.xs|)), 0)])
  }

  lemma InitialSorted(g: Grid, k: nat)
    requires g.Valid() && k > 0
    ensures Sorted(Initial(g, k))
  {
    var acc := MassTo(g, |g.xs|);
    MassMonotone(g, 0, |g.xs|);
    forall i, j | 0 <= i < j < k ensures Initial(g, k)[i] <= Initial(g, k)[j] {
      TargetMonotone(i, j, k, acc);
      QuantileMonotone(g, Target(i, k, acc), Target(j, k, acc), 0);
    }
  }

  /** Binary search in the cumulative masses. */
  method Quantile(g: Grid, cum: array<real>, target: real) returns (x: real)
    requires g.Valid() && cum.Length == |g.xs|
    requires forall i :: 0 <= i < cum.Length ==> cum[i] == MassTo(g, i + 1)
    ensures x == g.xs[QuantileFrom(g, target, 0)]
  {
    var lo, hi := 0, cum.Length - 1;
    while lo < hi
      invariant 0 <= lo <= hi < cum.Length
      invariant forall m :: 0 < m <= lo ==> MassTo(g, m) < target
      invariant hi == cum.Length - 1 || MassTo(g, hi + 1) >= target
    {
      var mid := (lo + hi) / 2;
      if cum[mid] < target {
        forall m | 0 < m <= mid + 1 ensures MassTo(g, m) < target {
          MassMonotone(g, m, mid + 1);
        }
        lo := mid + 1;
      } else {
        hi := mid;
      }
    }
    QuantileIs(g, target, 0, lo);
    x := g.xs[lo];
  }

  method InitialLevels(g: Grid, k: nat) returns (levels: array<real>)
    requires g.Valid() && k > 0
    ensures fresh(levels) && levels[..] == Initial(g, k)
  {
    var n := |g.xs|;
    var cum := new real[n];
    var acc := 0.0;
    for i := 0 to n
      invariant acc == MassTo(g, i)
      invariant forall m :: 0 <= m < i ==> cum[m] == MassTo(g, m + 1)
    {
      acc := acc + g.w[i];
      cum[i] := acc;
    }
    levels := new real[k];
    for j := 0 to k
      invariant forall i :: 0 <= i < j ==> levels[i] == Initial(g, k)[i]
      invariant forall m :: 0 <= m < n ==> cum[m] == MassTo(g, m + 1)
    {
      levels[j] := Quantile(g, cum, Target(j, k, acc));
      hide Target;
    }
  }

  // ---------- the whole construction ----------

  datatype Codebook = Codebook(bits: nat, levels: Vec, bounds: Vec, mse: real, eq2: real) {
    ghost predicate Valid() {
      |levels| == Exp2(bits) && Sorted(levels) && Midpoints(bounds, levels)
    }
  }

  const ITERATIONS := 1000
  const STILL := 0.000000000001

  ghost function MidpointsOf(levels: Vec): (bounds: Vec)
    ensures |levels| > 0 ==> Midpoints(bounds, levels)
  {
    if |levels| == 0 then [] else seq(|levels| - 1, j requires 0 <= j < |levels| - 1 => 0.5 * (levels[j] + levels[j + 1]))
  }

  /** One Lloyd-Max pass: every level to the centroid of the points nearest to it. */
  ghost function Lloyd(g: Grid, levels: Vec): (r: Vec)
    requires g.Valid() && |levels| > 0 && Sorted(levels)
    ensures |r| == |levels| && Sorted(r)
    ensures forall j :: 0 <= j < |r| ==> r[j] == Centroid(g, Cells(g, MidpointsOf(levels)), levels, j)
  {
    var cell := Cells(g, MidpointsOf(levels));
    var r := seq(|levels|, j requires 0 <= j < |levels| => Centroid(g, cell, levels, j));
    PassIsSorted(g, MidpointsOf(levels), levels, r);
    r
  }

  lemma LloydIs(g: Grid, before: Vec, bounds: Vec, after: Vec)
    requires g.Valid() && |before| == |after| > 0 && Sorted(before) && Midpoints(bounds, before)
    requires forall j :: 0 <= j < |after| ==> after[j] == Centroid(g, Cells(g, bounds), before, j)
    ensures after == Lloyd(g, before)
  {
    assert bounds == MidpointsOf(before);
  }

  /** The levels after t passes from the quantile initialization. */
  ghost function LloydAt(g: Grid, k: nat, t: nat): (levels: Vec)
    requires g.Valid() && k > 0
    ensures |levels| == k && Sorted(levels)
  {
    if t == 0 then
      InitialSorted(g, k);
      Initial(g, k)
    else Lloyd(g, LloydAt(g, k, t - 1))
  }

  /** What pass t saves at least: the squared shift of every level, weighted with its mass. */
  ghost function SavedTo(g: Grid, k: nat, t: nat): real
    requires g.Valid() && k > 0
  {
    if t == 0 then 0.0
    else
      var before := LloydAt(g, k, t - 1);
      SavedTo(g, k, t - 1) + GainTo(g, Cells(g, MidpointsOf(before)), before, k)
  }

  /** No level moved as far as the tolerance in pass t. */
  ghost predicate Settles(g: Grid, k: nat, t: nat)
    requires g.Valid() && k > 0 && t > 0
  {
    forall j :: 0 <= j < k ==> Abs(LloydAt(g, k, t)[j] - LloydAt(g, k, t - 1)[j]) < STILL
  }

  /** t is the first pass that settles, or the last one allowed. */
  ghost predicate StopsAt(g: Grid, k: nat, t: nat)
    requires g.Valid() && k > 0
  {
    && 0 < t <= ITERATIONS
    && (forall i :: 0 < i < t ==> !Settles(g, k, i))
    && (t < ITERATIONS ==> Settles(g, k, t))
  }

  /** Every pass lowers the distortion by what it saves, however many there are. */
  lemma {:induction false} PassesImprove(g: Grid, k: nat, t: nat)
    requires g.Valid() && k > 0
    ensures Distortion(g, LloydAt(g, k, t)) + SavedTo(g, k, t) <= Distortion(g, Initial(g, k))
    ensures SavedTo(g, k, t) >= 0.0
  {
    hide *;
    if t > 0 {
      PassesImprove(g, k, t - 1);
      var before := LloydAt(g, k, t - 1);
      SavedNext(g, k, t - 1);
      LloydNext(g, k, t - 1);
      OnePassImproves(g, before);
      GainNonNegative(g, Cells(g, MidpointsOf(before)), before, k);
    } else {
      NothingSaved(g, k);
    }
  }

  lemma SavedNext(g: Grid, k: nat, t: nat)
    requires g.Valid() && k > 0
    ensures var before := LloydAt(g, k, t);
            SavedTo(g, k, t + 1) == SavedTo(g, k, t) + GainTo(g, Cells(g, MidpointsOf(before)), before, k)
  {
    hide Grid.Valid, Sorted, LloydAt, GainTo, Cells, MidpointsOf;
  }

  lemma NothingSaved(g: Grid, k: nat)
    requires g.Valid() && k > 0
    ensures SavedTo(g, k, 0) == 0.0 && LloydAt(g, k, 0) == Initial(g, k)
  {
  }

  lemma OnePassImproves(g: Grid, before: Vec)
    requires g.Valid() && |before| > 0 && Sorted(before)
    ensures Distortion(g, Lloyd(g, before))
         <= Distortion(g, before) - GainTo(g, Cells(g, MidpointsOf(before)), before, |before|)
  {
    hide *;
    var bounds := MidpointsOf(before);
    var after := Lloyd(g, before);
    PassShapes(g, before);
    CentroidsTo(g, Cells(g, bounds), before, after, |before|);
    MovedEnds(before, after);
    PassImproves(g, bounds, before, after);
  }

  /** The first n levels moved, the others not yet. */
  ghost function Moved(before: Vec, after: Vec, n: nat): Vec
    requires n <= |before| == |after|
  {
    after[..n] + before[n..]
  }

  lemma PassShapes(g: Grid, before: Vec)
    requires g.Valid() && |before| > 0
    ensures |g.xs| == |g.w| == |Cells(g, MidpointsOf(before))| && |MidpointsOf(before)| + 1 == |before|
  {
  }

  lemma MovedEnds(before: Vec, after: Vec)
    requires |before| == |after|
    ensures Moved(before, after, 0) == before && Moved(before, after, |before|) == after
  {
  }

  lemma {:induction false} CentroidsTo(g: Grid, cell: seq<nat>, before: Vec, after: Vec, n: nat)
    requires |g.xs| == |g.w| == |cell| && n <= |before| == |after|
    requires forall i :: 0 <= i < |cell| ==> cell[i] < |before|
    requires forall j :: 0 <= j < |after| ==> after[j] == Centroid(g, cell, before, j)
    ensures Cost(g, Moved(before, after, n), cell, |cell|)
         == Cost(g, Moved(before, after, 0), cell, |cell|) - GainTo(g, cell, before, n)
  {
    if n > 0 {
      CentroidsTo(g, cell, before, after, n - 1);
      var was := Moved(before, after, n - 1);
      CentroidStep(g, cell, was, before, n - 1);
      assert Moved(before, after, n) == was[n - 1 := after[n - 1]];
      hide Cost, Centroid, DenTo, Times, Sq;
    }
  }

  /** buildCodebook on the grid g: Lloyd-Max passes from the quantile initialization until no
      level moves by 1e-12, and at most 1000; t counts them. */
  method BuildCodebook(b: nat, g: Grid) returns (cb: Codebook, ghost t: nat)
    requires 1 <= b <= 8 && g.Valid()
    ensures cb.bits == b && cb.Valid()
    ensures StopsAt(g, Exp2(b), t) && cb.levels == LloydAt(g, Exp2(b), t)
    ensures Distortion(g, cb.levels) <= Distortion(g, Initial(g, Exp2(b)))
    ensures cb.mse == Distortion(g, cb.levels)
    ensures cb.eq2 == PowerTo(g, cb.levels, Cells(g, cb.bounds), |g.xs|)
  {
    var k := Exp2(b);
    var levels := InitialLevels(g, k);
    InitialSorted(g, k);
    var bounds := new real[k - 1];
    t := RunPasses(g, k, levels, bounds);
    PassesImprove(g, k, t);
    hide Distortion, LloydAt, StopsAt, Initial;
    FillMidpoints(levels, bounds);
    var mse, eq2 := Statistics(g, levels[..], bounds[..]);
    cb := Codebook(b, levels[..], bounds[..], mse, eq2);
  }

  /** The loop of passes. */
  method RunPasses(g: Grid, k: nat, levels: array<real>, bounds: array<real>) returns (ghost t: nat)
    requires g.Valid() && k > 0 && levels != bounds && levels.Length == k && bounds.Length == k - 1
    requires levels[..] == LloydAt(g, k, 0)
    modifies levels, bounds
    ensures StopsAt(g, k, t) && levels[..] == LloydAt(g, k, t)
  {
    hide *;
    SomePasses();
    var iter, done := 0, false;
    while iter < ITERATIONS && !done
      invariant iter <= ITERATIONS && levels[..] == LloydAt(g, k, iter)
      invariant done ==> iter > 0 && Settles(g, k, iter)
      invariant forall i :: 0 < i < iter ==> !Settles(g, k, i)
      invariant !done && iter > 0 ==> !Settles(g, k, iter)
    {
      ghost var was := levels[..];
      var maxShift := LloydPass(g, levels, bounds);
      LloydNext(g, k, iter);
      LloydIs(g, was, bounds[..], levels[..]);
      done := maxShift < STILL;
      iter := iter + 1;
      SettlesIs(g, k, iter, maxShift);
    }
    t := iter;
    StopsIs(g, k, t);
  }

  lemma SomePasses()
    ensures ITERATIONS > 0
  {
  }

  lemma StopsIs(g: Grid, k: nat, t: nat)
    requires g.Valid() && k > 0 && 0 < t <= ITERATIONS && forall i :: 0 < i < t ==> !Settles(g, k, i)
    requires t < ITERATIONS ==> Settles(g, k, t)
    ensures StopsAt(g, k, t)
  {
  }

  lemma LloydNext(g: Grid, k: nat, t: nat)
    requires g.Valid() && k > 0
    ensures LloydAt(g, k, t + 1) == Lloyd(g, LloydAt(g, k, t))
  {
  }

  lemma SettlesIs(g: Grid, k: nat, t: nat, shift: real)
    requires g.Valid() && k > 0 && t > 0 && IsShift(shift, LloydAt(g, k, t - 1), LloydAt(g, k, t), k)
    ensures Settles(g, k, t) <==> shift < STILL
  {
    hide LloydAt;
  }

  /** The closing sweep over the grid: distortion and mean squared level. */
  method Statistics(g: Grid, levels: Vec, bounds: Vec) returns (mse: real, eq2: real)
    requires g.Valid() && Sorted(levels) && Midpoints(bounds, levels)
    ensures mse == Distortion(g, levels)
    ensures eq2 == PowerTo(g, levels, Cells(g, bounds), |g.xs|)
  {
    ghost var cell := Cells(g, bounds);
    MidpointsSorted(bounds, levels);
    mse, eq2 := 0.0, 0.0;
    var c := 0;
    for i := 0 to |g.xs|
      invariant c <= |bounds|
      invariant i < |g.xs| ==> forall b :: 0 <= b < c ==> bounds[b] < g.xs[i]
      invariant mse == Cost(g, levels, cell, i)
      invariant eq2 == PowerTo(g, levels, cell, i)
    {
      c := AdvanceCell(g, bounds, i, c);
      hide Times, Cells, Sq, Sorted, Midpoints;
      mse := mse + Times(g.w[i], Sq(g.xs[i] - levels[c]));
      eq2 := eq2 + Times(g.w[i], Sq(levels[c]));
    }
    CostIsDistortion(g, levels, bounds, cell, |cell|);
  }
}
