/** What the PageRank iteration promises: every iterate is a distribution, one step
    contracts L1 distances by the damping factor, and so the default tolerance is
    always reached within the default cap, close to any stationary distribution. */
module PageRankLaws {
  import opened Vectors
  import opened Sums
  import opened WeightedGraph
  import opened PageRank

  /** Non-negative entries that sum to one. */
  ghost predicate Distribution(v: Vec) {
    (forall i :: 0 <= i < |v| ==> v[i] >= 0.0) && Total(v) == 1.0
  }

  // ---------- the walk behind one step ----------

  /** The part of node i's mass that a damped step moves to node j. */
  ghost function Kernel(g: Csr, s: Vec, i: nat): nat -> real {
    (j: nat) =>
      if i < |g.outSum| && g.outSum[i] != 0.0 then EdgeWeight(g, i, j) / g.outSum[i] else At(s)(j)
  }

  ghost function Moved(g: Csr, s: Vec, u: nat -> real): (nat, nat) -> real {
    (i: nat, j: nat) => Times(u(i), Kernel(g, s, i)(j))
  }

  /** What arrives at node j when every node i sends u(i) along its kernel. */
  ghost function Flow(g: Csr, s: Vec, u: nat -> real, n: nat): nat -> real {
    ColSums(Moved(g, s, u), n)
  }

  ghost function PartWeights(g: Csr, lo: nat, hi: nat): nat -> real {
    (j: nat) => PartWeight(g, j, lo, hi)
  }

  /** A row's weights, summed by column, are the row's total. */
  lemma {:induction false} PartWeightsTotal(g: Csr, lo: nat, hi: nat)
    requires CsrOk(g) && lo <= hi <= |g.cols|
    ensures Sum(PartWeights(g, lo, hi), g.n) == RowTotal(g.wts, lo, hi)
    ensures forall j :: PartWeight(g, j, lo, hi) >= 0.0
    decreases hi
  {
    if lo == hi {
      SumZero(PartWeights(g, lo, hi), g.n);
    } else {
      PartWeightsTotal(g, lo, hi - 1);
      SumUpdate(PartWeights(g, lo, hi - 1), PartWeights(g, lo, hi), g.cols[hi - 1], g.n);
    }
  }

  lemma DivideNonNegative(x: real, c: real)
    requires x >= 0.0 && c > 0.0
    ensures x / c >= 0.0
  {
  }

  lemma TimesDivide(x: real, y: real, c: real)
    requires c != 0.0
    ensures Times(x / c, y) == Times(x, y / c) && Times(1.0 / c, x) == x / c && Times(1.0 / c, c) == 1.0
  {
    calc {
      Times(x / c, y);
      (x / c) * y;
      x * (y / c);
      Times(x, y / c);
    }
  }

  /** Every node's kernel is a distribution over the nodes. */
  lemma KernelIsStochastic(g: Csr, s: Vec, i: nat)
    requires CsrOk(g) && |s| == g.n && Distribution(s) && i < g.n
    ensures Sum(Kernel(g, s, i), g.n) == 1.0 && forall j :: Kernel(g, s, i)(j) >= 0.0
  {
    if g.outSum[i] == 0.0 {
      SumSame(At(s), Kernel(g, s, i), g.n);
    } else {
      KernelOfEdges(g, s, i);
    }
  }

  lemma KernelOfEdges(g: Csr, s: Vec, i: nat)
    requires CsrOk(g) && i < g.n && g.outSum[i] != 0.0
    ensures Sum(Kernel(g, s, i), g.n) == 1.0 && forall j :: Kernel(g, s, i)(j) >= 0.0
  {
    assert RowOk(g, i);
    var f, c := PartWeights(g, g.rowPtr[i], g.rowPtr[i + 1]), g.outSum[i];
    PartWeightsTotal(g, g.rowPtr[i], g.rowPtr[i + 1]);
    SumNonNegative(f, g.n);
    assert i + 1 < |g.rowPtr| && i < |g.outSum|;
    hide Times, PartWeight, CsrOk, RowOk;
    forall j: nat ensures Kernel(g, s, i)(j) == Times(1.0 / c, f(j)) && Kernel(g, s, i)(j) >= 0.0 {
      assert f(j) == EdgeWeight(g, i, j);
      assert Kernel(g, s, i)(j) == f(j) / c;
      TimesDivide(f(j), 1.0, c);
      assert c > 0.0;
      DivideNonNegative(f(j), c);
    }
    TimesDivide(1.0, 1.0, c);
    SumScale(1.0 / c, f, Kernel(g, s, i), g.n);
  }

  /** Flow loses and creates no mass. */
  lemma FlowTotal(g: Csr, s: Vec, u: nat -> real)
    requires CsrOk(g) && |s| == g.n && Distribution(s)
    ensures Sum(Flow(g, s, u, g.n), g.n) == Sum(u, g.n)
  {
    var n, f := g.n, Moved(g, s, u);
    hide Times, Kernel, Distribution, CsrOk;
    SumSwap(f, n, n);
    forall i: nat | i < n ensures RowSums(f, n)(i) == u(i) {
      KernelIsStochastic(g, s, i);
      SumScale(u(i), Kernel(g, s, i), RowOf(f, i), n);
      TimesUnit(u(i));
    }
    SumSame(RowSums(f, n), u, n);
  }

  lemma TimesNonNegative(x: real, y: real)
    requires x >= 0.0 && y >= 0.0
    ensures Times(x, y) >= 0.0
  {
  }

  lemma FlowNonNegative(g: Csr, s: Vec, u: nat -> real, j: nat)
    requires CsrOk(g) && |s| == g.n && Distribution(s)
    requires forall i :: 0 <= i < g.n ==> u(i) >= 0.0
    ensures Flow(g, s, u, g.n)(j) >= 0.0
  {
    hide Times, Kernel, Distribution, CsrOk;
    forall i: nat | i < g.n ensures Moved(g, s, u)(i, j) >= 0.0 {
      KernelIsStochastic(g, s, i);
      TimesNonNegative(u(i), Kernel(g, s, i)(j));
    }
    SumNonNegative(ColOf(Moved(g, s, u), j), g.n);
  }

  lemma AbsTimes(x: real, y: real)
    requires y >= 0.0
    ensures Abs(Times(x, y)) == Times(Abs(x), y)
  {
  }

  /** Flow of the absolute values bounds the absolute flow. */
  lemma FlowAbs(g: Csr, s: Vec, u: nat -> real, v: nat -> real, j: nat)
    requires CsrOk(g) && |s| == g.n && Distribution(s)
    requires forall i :: 0 <= i < g.n ==> v(i) == Abs(u(i))
    ensures Abs(Flow(g, s, u, g.n)(j)) <= Flow(g, s, v, g.n)(j)
  {
    hide Times, Kernel, Distribution, CsrOk, Abs;
    forall i: nat | i < g.n ensures Moved(g, s, v)(i, j) == Abs(Moved(g, s, u)(i, j)) {
      KernelIsStochastic(g, s, i);
      AbsTimes(u(i), Kernel(g, s, i)(j));
    }
    SumAbs(ColOf(Moved(g, s, u), j), ColOf(Moved(g, s, v), j), g.n);
  }

  // ---------- one step is restart plus damped flow ----------

  ghost function Moving(g: Csr, d: real, s: Vec, r: Vec, j: nat): nat -> real {
    (i: nat) => Times(d, Moved(g, s, At(r))(i, j))
  }

  ghost function Returned(g: Csr, d: real, s: Vec, r: Vec, j: nat): nat -> real {
    (i: nat) => Times(Times(d, At(s)(j)), DanglingAt(g, r)(i))
  }

  /** Pushed and returned mass of one node together follow its kernel. */
  lemma MovingSplits(g: Csr, d: real, s: Vec, r: Vec, i: nat, j: nat)
    requires CsrOk(g) && |s| == |r| == g.n && i < g.n && j < g.n
    ensures Moving(g, d, s, r, j)(i) == PushAt(g, d, r, j)(i) + Returned(g, d, s, r, j)(i)
  {
    var c, w := g.outSum[i], EdgeWeight(g, i, j);
    assert |g.outSum| == g.n;
    hide EdgeWeight, CsrOk, Times;
    TimesUnit(d);
    TimesUnit(w);
    TimesUnit(Kernel(g, s, i)(j));
    TimesUnit(Times(d, At(s)(j)));
    if r[i] == 0.0 {
      assert Share(g, d, r, i) == 0.0 && Moved(g, s, At(r))(i, j) == 0.0;
      assert DanglingAt(g, r)(i) == 0.0;
      assert Returned(g, d, s, r, j)(i) == 0.0;
    } else if c == 0.0 {
      assert Share(g, d, r, i) == 0.0 && Moved(g, s, At(r))(i, j) == Times(r[i], s[j]);
      assert DanglingAt(g, r)(i) == r[i];
      assert Returned(g, d, s, r, j)(i) == Times(Times(d, s[j]), r[i]);
      TimesMiddle(d, r[i], s[j]);
      TimesNest(d, r[i], s[j]);
    } else {
      assert Moved(g, s, At(r))(i, j) == Times(r[i], w / c);
      assert DanglingAt(g, r)(i) == 0.0;
      assert Returned(g, d, s, r, j)(i) == 0.0;
      TimesDivide(Times(d, r[i]), w, c);
      TimesNest(d, r[i], w / c);
    }
  }

  lemma DanglingNonNegative(g: Csr, r: Vec)
    requires forall i :: 0 <= i < |r| ==> r[i] >= 0.0
    ensures Dangling(g, r) >= 0.0
  {
    SumNonNegative(DanglingAt(g, r), |r|);
  }

  lemma TimesNest(d: real, x: real, y: real)
    ensures Times(d, Times(x, y)) == Times(Times(d, x), y)
  {
    assert d * (x * y) == (d * x) * y;
  }

  lemma TimesMiddle(d: real, x: real, y: real)
    ensures Times(Times(d, x), y) == Times(Times(d, y), x)
    ensures y == 0.0 ==> Times(Times(d, x), y) == 0.0
  {
  }

  /** One step, written as the restart share plus the damped flow. */
  lemma StepIsFlow(g: Csr, d: real, s: Vec, r: Vec, j: nat)
    requires CsrOk(g) && |s| == |r| == g.n && j < g.n
    requires forall i :: 0 <= i < |r| ==> r[i] >= 0.0
    ensures Step(g, d, s, r)[j] == Times(1.0 - d, s[j]) + Times(d, Flow(g, s, At(r), g.n)(j))
  {
    var n := g.n;
    hide Times, PushAt, DanglingAt, CsrOk, Moved;
    forall i: nat | i < n
      ensures Moving(g, d, s, r, j)(i) == PushAt(g, d, r, j)(i) + Returned(g, d, s, r, j)(i)
    {
      MovingSplits(g, d, s, r, i, j);
    }
    SumAdd(PushAt(g, d, r, j), Returned(g, d, s, r, j), Moving(g, d, s, r, j), n);
    SumScale(Times(d, s[j]), DanglingAt(g, r), Returned(g, d, s, r, j), n);
    SumScale(d, ColOf(Moved(g, s, At(r)), j), Moving(g, d, s, r, j), n);
    DanglingNonNegative(g, r);
    TimesMiddle(d, s[j], Dangling(g, r));
  }

  ghost function Restarted(d: real, s: Vec): nat -> real { (j: nat) => Times(1.0 - d, At(s)(j)) }

  ghost function Damped(d: real, f: nat -> real): nat -> real { (j: nat) => Times(d, f(j)) }

  /** One step of a distribution is a distribution. */
  lemma StepKeepsMass(g: Csr, d: real, s: Vec, r: Vec)
    requires CsrOk(g) && |s| == |r| == g.n && Distribution(s) && Distribution(r) && 0.0 <= d <= 1.0
    ensures Distribution(Step(g, d, s, r))
  {
    var n, next, flow := g.n, Step(g, d, s, r), Flow(g, s, At(r), g.n);
    hide CsrOk, Flow, StepAt, Times;
    forall j: nat | j < n
      ensures next[j] == Restarted(d, s)(j) + Damped(d, flow)(j) && next[j] >= 0.0
    {
      StepIsFlow(g, d, s, r, j);
      FlowNonNegative(g, s, At(r), j);
      TimesNonNegative(1.0 - d, s[j]);
      TimesNonNegative(d, flow(j));
    }
    SumAdd(Restarted(d, s), Damped(d, flow), At(next), n);
    SumScale(1.0 - d, At(s), Restarted(d, s), n);
    SumScale(d, flow, Damped(d, flow), n);
    FlowTotal(g, s, At(r));
    TimesUnit(d);
    TimesUnit(1.0 - d);
    assert Total(next) == 1.0;
  }

  /** Every iterate is a distribution. */
  lemma {:induction false} IteratesKeepMass(g: Csr, d: real, s: Vec, t: nat)
    requires CsrOk(g) && |s| == g.n && Distribution(s) && 0.0 <= d <= 1.0
    ensures Distribution(Iterate(g, d, s, t))
  {
    if t == 0 {
      IterateFirst(g, d, s);
    } else {
      hide Distribution, CsrOk, Iterate;
      IteratesKeepMass(g, d, s, t - 1);
      IterateNext(g, d, s, t - 1);
      StepKeepsMass(g, d, s, Iterate(g, d, s, t - 1));
    }
  }

  // ---------- contraction ----------

  ghost function Gap(x: Vec, y: Vec): nat -> real { (i: nat) => At(x)(i) - At(y)(i) }

  /** Flow is linear. */
  lemma FlowGap(g: Csr, s: Vec, x: Vec, y: Vec, j: nat)
    requires |x| == |y| == g.n
    ensures Flow(g, s, Gap(x, y), g.n)(j) == Flow(g, s, At(x), g.n)(j) - Flow(g, s, At(y), g.n)(j)
  {
    hide Times, Kernel;
    forall i: nat | i < g.n
      ensures Moved(g, s, At(x))(i, j) == Moved(g, s, Gap(x, y))(i, j) + Moved(g, s, At(y))(i, j)
    {
      TimesGap(At(x)(i), At(y)(i), Kernel(g, s, i)(j));
    }
    SumAdd(ColOf(Moved(g, s, Gap(x, y)), j), ColOf(Moved(g, s, At(y)), j), ColOf(Moved(g, s, At(x)), j), g.n);
  }

  lemma TimesGap(x: real, y: real, c: real)
    ensures Times(x, c) == Times(x - y, c) + Times(y, c)
  {
  }

  lemma DampedGap(d: real, a: real, b: real)
    requires d >= 0.0
    ensures Abs(Times(d, a) - Times(d, b)) == Times(d, Abs(a - b))
  {
  }

  lemma TimesMonotone(d: real, a: real, b: real)
    requires d >= 0.0 && a <= b
    ensures Times(d, a) <= Times(d, b)
  {
  }

  lemma L1Symmetric(x: Vec, y: Vec)
    requires |x| == |y|
    ensures L1(x, y) == L1(y, x) && L1(x, y) >= 0.0
  {
    SumSame(DiffAt(x, y), DiffAt(y, x), |x|);
    SumNonNegative(DiffAt(x, y), |x|);
  }

  lemma StepGap(g: Csr, d: real, s: Vec, x: Vec, y: Vec, j: nat)
    requires CsrOk(g) && |s| == |x| == |y| == g.n && j < g.n && d >= 0.0
    requires Distribution(s) && Distribution(x) && Distribution(y)
    ensures Abs(Step(g, d, s, x)[j] - Step(g, d, s, y)[j]) <= Times(d, Flow(g, s, DiffAt(x, y), g.n)(j))
  {
    hide CsrOk, Flow, StepAt, Times;
    StepIsFlow(g, d, s, x, j);
    StepIsFlow(g, d, s, y, j);
    FlowGap(g, s, x, y, j);
    FlowAbs(g, s, Gap(x, y), DiffAt(x, y), j);
    DampedGap(d, Flow(g, s, At(x), g.n)(j), Flow(g, s, At(y), g.n)(j));
    TimesMonotone(d, Abs(Flow(g, s, Gap(x, y), g.n)(j)), Flow(g, s, DiffAt(x, y), g.n)(j));
  }

  /** One step brings two distributions closer by the damping factor. */
  lemma StepContracts(g: Csr, d: real, s: Vec, x: Vec, y: Vec)
    requires CsrOk(g) && |s| == |x| == |y| == g.n && d >= 0.0
    requires Distribution(s) && Distribution(x) && Distribution(y)
    ensures L1(Step(g, d, s, x), Step(g, d, s, y)) <= Times(d, L1(x, y))
  {
    var n, flow := g.n, Flow(g, s, DiffAt(x, y), g.n);
    var x', y' := Step(g, d, s, x), Step(g, d, s, y);
    hide CsrOk, Flow, StepAt, Times, Distribution;
    forall j: nat | j < n ensures DiffAt(x', y')(j) <= Damped(d, flow)(j) {
      StepGap(g, d, s, x, y, j);
    }
    SumLe(DiffAt(x', y'), Damped(d, flow), n);
    SumScale(d, flow, Damped(d, flow), n);
    FlowTotal(g, s, DiffAt(x, y));
  }

  // ---------- how fast the iteration settles ----------

  ghost function Pow(d: real, t: nat): real { if t == 0 then 1.0 else Times(d, Pow(d, t - 1)) }

  /** Two distributions are at most 2 apart. */
  lemma DistributionsApart(x: Vec, y: Vec)
    requires |x| == |y| && Distribution(x) && Distribution(y)
    ensures L1(x, y) <= 2.0
  {
    var f := (i: nat) => At(x)(i) + At(y)(i);
    SumAdd(At(x), At(y), f, |x|);
    SumLe(DiffAt(x, y), f, |x|);
  }

  /** The L1 change of iteration t + 1 is at most 2 d^t. */
  lemma {:induction false} ChangesShrink(g: Csr, d: real, s: Vec, t: nat)
    requires CsrOk(g) && |s| == g.n && Distribution(s) && 0.0 <= d <= 1.0
    ensures Change(g, d, s, t + 1) <= Times(2.0, Pow(d, t))
    ensures Change(g, d, s, t + 2) <= Times(d, Change(g, d, s, t + 1))
  {
    var r0, r1, r2 := Iterate(g, d, s, t), Iterate(g, d, s, t + 1), Iterate(g, d, s, t + 2);
    IteratesKeepMass(g, d, s, t);
    IteratesKeepMass(g, d, s, t + 1);
    IterateNext(g, d, s, t);
    IterateNext(g, d, s, t + 1);
    hide CsrOk, Step, Distribution, L1, Iterate;
    StepContracts(g, d, s, r1, r0);
    if t == 0 {
      DistributionsApart(r1, r0);
      TimesUnit(2.0);
    } else {
      ChangesShrink(g, d, s, t - 1);
      TimesMonotone(d, Change(g, d, s, t), Times(2.0, Pow(d, t - 1)));
      TimesSwap(d, 2.0, Pow(d, t - 1));
    }
  }

  lemma TimesSwap(d: real, c: real, x: real)
    ensures Times(d, Times(c, x)) == Times(c, Times(d, x))
  {
  }

  lemma {:induction false} PowDouble(d: real, t: nat, bound: real)
    requires d >= 0.0 && Pow(d, t) <= bound
    ensures Pow(d, t + t) <= Times(bound, bound)
  {
    PowNonNegative(d, t);
    PowAdd(d, t, t);
    var p := Pow(d, t);
    hide Pow;
    assert p * p <= bound * p <= bound * bound;
  }

  lemma {:induction false} PowNonNegative(d: real, t: nat)
    requires d >= 0.0
    ensures Pow(d, t) >= 0.0
  {
    if t > 0 {
      PowNonNegative(d, t - 1);
    }
  }

  lemma {:induction false} PowAdd(d: real, t: nat, k: nat)
    ensures Pow(d, t + k) == Times(Pow(d, t), Pow(d, k))
  {
    hide Times;
    if k == 0 {
      TimesUnit(Pow(d, t));
    } else {
      PowAdd(d, t, k - 1);
      assert Pow(d, t + k) == Times(d, Pow(d, t + (k - 1)));
      TimesSwap(d, Pow(d, t), Pow(d, k - 1));
    }
  }

  /** 2 * 0.85^99 is below the default tolerance. */
  lemma DefaultPower()
    ensures Times(2.0, Pow(0.85, 99)) < DEFAULT.tolerance
  {
    assert Pow(0.85, 3) == 0.614125 by {
      assert Pow(0.85, 1) == 0.85;
      assert Pow(0.85, 2) == 0.7225;
    }
    hide Pow;
    PowDouble(0.85, 3, 0.614125);
    PowDouble(0.85, 6, 0.37715);
    PowDouble(0.85, 12, 0.142243);
    PowDouble(0.85, 24, 0.020234);
    PowDouble(0.85, 48, 0.00040942);
    PowAdd(0.85, 96, 3);
    assert Pow(0.85, 96) <= 0.00000016763;
  }

  /** With the default parameters the loop ends because a change fell below the
      tolerance, never because it ran out of iterations. */
  lemma DefaultAlwaysSettles(g: Csr, s: Vec, t: nat)
    requires CsrOk(g) && |s| == g.n && Distribution(s) && StopsAt(g, DEFAULT, s, t)
    ensures 0 < t <= 100 && Change(g, 0.85, s, t) < DEFAULT.tolerance
  {
    DefaultPower();
    ChangesShrink(g, 0.85, s, 99);
    hide CsrOk, Distribution, Change, Pow, Times;
    assert !Runs(g, DEFAULT, s, 100);
    if t > 0 {
      RunsNext(g, DEFAULT, s, t);
    } else {
      RunsNone(g, DEFAULT, s);
    }
  }

  /** A distribution that one step leaves alone. */
  ghost predicate Stationary(g: Csr, d: real, s: Vec, x: Vec) {
    |x| == |s| && Distribution(x) && Step(g, d, s, x) == x
  }

  lemma L1Triangle(x: Vec, y: Vec, z: Vec)
    requires |x| == |y| == |z|
    ensures L1(x, z) <= L1(x, y) + L1(y, z)
  {
    var f := (i: nat) => DiffAt(x, y)(i) + DiffAt(y, z)(i);
    SumAdd(DiffAt(x, y), DiffAt(y, z), f, |x|);
    SumLe(DiffAt(x, z), f, |x|);
  }

  lemma ErrorAlgebra(d: real, e: real, c: real, e0: real)
    requires d >= 0.0 && e <= Times(d, e0) && e0 <= c + e
    ensures Times(1.0 - d, e) <= Times(d, c)
  {
    assert d * e0 <= d * (c + e);
  }

  lemma StepTowards(g: Csr, d: real, s: Vec, r: Vec, x: Vec)
    requires CsrOk(g) && |s| == |r| == g.n && Distribution(s) && Distribution(r) && d >= 0.0 && Stationary(g, d, s, x)
    ensures L1(Step(g, d, s, r), x) <= Times(d, L1(r, x))
  {
    hide CsrOk, Step, Distribution, L1, Times;
    StepContracts(g, d, s, r, x);
  }

  lemma ChangeIs(g: Csr, d: real, s: Vec, t: nat)
    requires t > 0
    ensures Change(g, d, s, t) == L1(Iterate(g, d, s, t), Iterate(g, d, s, t - 1))
  {
  }

  /** The last change bounds the distance to the answer. */
  lemma ChangeBoundsError(g: Csr, d: real, s: Vec, x: Vec, t: nat)
    requires CsrOk(g) && |s| == |x| == g.n && Distribution(s) && 0.0 <= d <= 1.0 && Stationary(g, d, s, x) && t > 0
    ensures Times(1.0 - d, L1(Iterate(g, d, s, t), x)) <= Times(d, Change(g, d, s, t))
  {
    hide *;
    var r, r0 := Iterate(g, d, s, t), Iterate(g, d, s, t - 1);
    IteratesKeepMass(g, d, s, t - 1);
    IterateNext(g, d, s, t - 1);
    StepTowards(g, d, s, r0, x);
    ChangeIs(g, d, s, t);
    L1Triangle(r0, r, x);
    L1Symmetric(r, r0);
    ErrorAlgebra(d, L1(r, x), L1(r, r0), L1(r0, x));
  }

  /** For 0 <= d < 1 the step has at most one stationary distribution. */
  lemma StationaryIsUnique(g: Csr, d: real, s: Vec, x: Vec, y: Vec)
    requires CsrOk(g) && |s| == g.n && Distribution(s) && 0.0 <= d < 1.0
    requires Stationary(g, d, s, x) && Stationary(g, d, s, y)
    ensures x == y
  {
    hide *;
    StationaryApart(g, d, s, x, y);
    ZeroApart(x, y, |x|);
  }

  lemma StationaryApart(g: Csr, d: real, s: Vec, x: Vec, y: Vec)
    requires CsrOk(g) && |s| == g.n && Distribution(s) && 0.0 <= d < 1.0
    requires Stationary(g, d, s, x) && Stationary(g, d, s, y)
    ensures |x| == |y| && Sum(DiffAt(x, y), |x|) <= 0.0
  {
    hide *;
    StationaryParts(g, d, s, x);
    StationaryParts(g, d, s, y);
    StepTowards(g, d, s, x, y);
    ShrinksToZero(d, L1(x, y));
    L1Is(x, y);
  }

  lemma StationaryParts(g: Csr, d: real, s: Vec, x: Vec)
    requires Stationary(g, d, s, x)
    ensures |x| == |s| && Distribution(x) && Step(g, d, s, x) == x
  {
  }

  lemma L1Is(x: Vec, y: Vec)
    requires |x| == |y|
    ensures L1(x, y) == Sum(DiffAt(x, y), |x|)
  {
  }

  lemma ShrinksToZero(d: real, e: real)
    requires d < 1.0 && e <= Times(d, e)
    ensures e <= 0.0
  {
    TimesMonotonePositive(1.0 - d, e);
    assert (1.0 - d) * e == e - Times(d, e);
  }

  lemma TimesMonotonePositive(c: real, e: real)
    requires c > 0.0
    ensures e > 0.0 ==> c * e > 0.0
  {
  }

  lemma {:induction false} ZeroApart(x: Vec, y: Vec, n: nat)
    requires |x| == |y| && n <= |x| && Sum(DiffAt(x, y), n) <= 0.0
    ensures forall i :: 0 <= i < n ==> x[i] == y[i]
  {
    if n > 0 {
      SumNonNegative(DiffAt(x, y), n - 1);
      ZeroApart(x, y, n - 1);
    }
  }

  /** The default call returns a distribution within 17/3 tolerances of the
      stationary one. */
  lemma DefaultIsAccurate(g: Csr, s: Vec, x: Vec, t: nat)
    requires CsrOk(g) && |s| == g.n && Distribution(s)
    requires Stationary(g, 0.85, s, x) && StopsAt(g, DEFAULT, s, t)
    ensures Distribution(Iterate(g, 0.85, s, t))
    ensures 3.0 * L1(Iterate(g, 0.85, s, t), x) < 17.0 * DEFAULT.tolerance
  {
    DefaultAlwaysSettles(g, s, t);
    IteratesKeepMass(g, 0.85, s, t);
    ChangeBoundsError(g, 0.85, s, x, t);
    hide CsrOk, Distribution, Stationary, Iterate, L1, Change;
  }

  /** The restart vector is a distribution whenever some seed counts. */
  lemma RestartIsDistribution(seeds: map<int, real>, n: nat)
    requires Total(SeedMass(seeds, n)) != 0.0
    ensures Distribution(Restart(seeds, n)) && |Restart(seeds, n)| == n
  {
    var m, s := SeedMass(seeds, n), Restart(seeds, n);
    var c := Total(m);
    hide Times;
    SumNonNegative(At(m), n);
    SumScale(1.0 / c, At(m), At(s), n);
    TimesDivide(1.0, 1.0, c);
    forall i | 0 <= i < n ensures s[i] >= 0.0 {
      TimesDivide(m[i], 1.0, c);
      DivideNonNegative(m[i], c);
    }
  }

  // ---------- the answer ----------

  lemma CloseAlgebra(d: real, e: real, e0: real, c0: real, c: real)
    requires 0.0 <= d <= 1.0 && Times(1.0 - d, e0) <= Times(d, c) && c0 <= Times(d, c) && e <= Times(d, e0) + c0
    ensures Times(1.0 - d, e) <= Times(d, c)
  {
    var f, k := 1.0 - d, Times(d, c);
    TimesMonotone(d, Times(f, e0), k);
    TimesMonotone(f, c0, k);
    TimesMonotone(f, e, Times(d, e0) + c0);
    Regroup(d, f, e0, c0, k);
    hide Times;
  }

  lemma Regroup(d: real, f: real, e0: real, c0: real, k: real)
    requires d + f == 1.0
    ensures Times(f, Times(d, e0) + c0) == Times(d, Times(f, e0)) + Times(f, c0)
    ensures Times(d, k) + Times(f, k) == k
  {
    assert f * (d * e0 + c0) == f * (d * e0) + f * c0;
    assert f * (d * e0) == d * (f * e0);
    assert d * k + f * k == (d + f) * k;
  }

  lemma SelfApart(d: real, x: Vec)
    ensures Times(1.0 - d, L1(x, x)) == 0.0
  {
    forall i | 0 <= i < |x| ensures DiffAt(x, x)(i) == 0.0 {
      assert Abs(x[i] - x[i]) == 0.0;
    }
    SumZero(DiffAt(x, x), |x|);
  }

  lemma ChangeShrinksOnce(g: Csr, d: real, s: Vec, t: nat)
    requires CsrOk(g) && |s| == g.n && Distribution(s) && 0.0 <= d <= 1.0 && t > 0
    ensures Change(g, d, s, t + 1) <= Times(d, Change(g, d, s, t))
    ensures Times(d, Change(g, d, s, t)) >= 0.0
  {
    hide *;
    ChangesShrink(g, d, s, t - 1);
    ChangeIs(g, d, s, t);
    L1Symmetric(Iterate(g, d, s, t), Iterate(g, d, s, t - 1));
    TimesNonNegative(d, Change(g, d, s, t));
    assert t - 1 + 2 == t + 1 && t - 1 + 1 == t;
  }

  /** However long the iteration goes on, it stays within the last change. */
  lemma {:induction false} LaterIteratesStayClose(g: Csr, d: real, s: Vec, t: nat, k: nat)
    requires CsrOk(g) && |s| == g.n && Distribution(s) && 0.0 <= d <= 1.0 && t > 0
    ensures Times(1.0 - d, L1(Iterate(g, d, s, t + k), Iterate(g, d, s, t))) <= Times(d, Change(g, d, s, t))
    decreases k
  {
    hide *;
    var r := Iterate(g, d, s, t);
    ChangeShrinksOnce(g, d, s, t);
    if k == 0 {
      SelfApart(d, r);
    } else {
      LaterIteratesStayClose(g, d, s, t, k - 1);
      var last, now, next := Iterate(g, d, s, t + k - 1), Iterate(g, d, s, t + k), Iterate(g, d, s, t + 1);
      IteratesKeepMass(g, d, s, t);
      IteratesKeepMass(g, d, s, t + k - 1);
      IterateNext(g, d, s, t);
      IterateNext(g, d, s, t + k - 1);
      StepContracts(g, d, s, last, r);
      ChangeIs(g, d, s, t + 1);
      L1Triangle(now, next, r);
      CloseAlgebra(d, L1(now, r), L1(last, r), L1(next, r), Change(g, d, s, t));
    }
  }

  /** What PersonalizedPageRank returns under the defaults, from the seeds on: a distribution,
      reached within the cap, that further iteration would move by less than 17/3 tolerances. */
  lemma DefaultAnswer(g: Csr, seeds: map<int, real>, params: Params, rank: Vec, t: nat, k: nat)
    requires CsrOk(g) && Total(SeedMass(seeds, g.n)) != 0.0 && Effective(params) == DEFAULT
    requires StopsAt(g, Effective(params), Restart(seeds, g.n), t)
    requires rank == Iterate(g, Effective(params).damping, Restart(seeds, g.n), t)
    ensures Distribution(rank) && 0 < t <= 100
    ensures 3.0 * L1(Iterate(g, 0.85, Restart(seeds, g.n), t + k), rank) < 17.0 * DEFAULT.tolerance
  {
    var s := Restart(seeds, g.n);
    RestartIsDistribution(seeds, g.n);
    DefaultAlwaysSettles(g, s, t);
    IteratesKeepMass(g, 0.85, s, t);
    LaterIteratesStayClose(g, 0.85, s, t, k);
    hide CsrOk, Distribution, Iterate, L1, Change, Restart, SeedMass, Total, StopsAt;
  }
}
