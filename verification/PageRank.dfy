/** Personalized PageRank of graph/graph.go: the propagation loops, the step they
    compute, and why the iteration keeps mass, contracts and stops in time. */
module PageRank {
  import opened Vectors
  import opened Sums
  import opened WeightedGraph
  import Orders

  datatype Params = Params(damping: real, maxIter: int, tolerance: real)

  const DEFAULT := Params(0.85, 100, 0.000001)

  // ---------- what one iteration computes ----------

  function At(v: Vec): nat -> real { (i: nat) => if i < |v| then v[i] else 0.0 }

  ghost function Total(v: Vec): real { Sum(At(v), |v|) }

  ghost function DiffAt(x: Vec, y: Vec): nat -> real {
    (i: nat) => if i < |x| && i < |y| then Abs(x[i] - y[i]) else 0.0
  }

  /** L1 distance. */
  ghost function L1(x: Vec, y: Vec): real
    requires |x| == |y|
  {
    Sum(DiffAt(x, y), |x|)
  }

  /** What node i sends per unit of edge weight. */
  ghost function Share(g: Csr, d: real, r: Vec, i: nat): real {
    if i >= |r| || i >= |g.outSum| || r[i] == 0.0 || g.outSum[i] == 0.0 then 0.0
    else Times(d, r[i]) / g.outSum[i]
  }

  ghost function PushAt(g: Csr, d: real, r: Vec, j: int): nat -> real {
    (i: nat) => Times(Share(g, d, r, i), EdgeWeight(g, i, j))
  }

  ghost function DanglingAt(g: Csr, r: Vec): nat -> real {
    (i: nat) => if i < |r| && i < |g.outSum| && g.outSum[i] == 0.0 then r[i] else 0.0
  }

  ghost function Dangling(g: Csr, r: Vec): real { Sum(DanglingAt(g, r), |r|) }

  /** Entry j after one iteration: restart mass, pushed mass, returned dangling mass. */
  ghost function StepAt(g: Csr, d: real, s: Vec, r: Vec, j: nat): real
    requires j < |s|
  {
    Times(1.0 - d, s[j]) + Sum(PushAt(g, d, r, j), |r|)
    + (if Dangling(g, r) > 0.0 then Times(Times(d, Dangling(g, r)), s[j]) else 0.0)
  }

  ghost function Step(g: Csr, d: real, s: Vec, r: Vec): (next: Vec)
    ensures |next| == |s| && forall j :: 0 <= j < |s| ==> next[j] == StepAt(g, d, s, r, j)
  {
    seq(|s|, j requires 0 <= j < |s| => StepAt(g, d, s, r, j))
  }

  ghost function Iterate(g: Csr, d: real, s: Vec, t: nat): (r: Vec)
    ensures |r| == |s|
  {
    if t == 0 then s else Step(g, d, s, Iterate(g, d, s, t - 1))
  }

  // ---------- the loops ----------

  lemma TimesSum(c: real, x: real, y: real)
    ensures Times(c, x + y) == Times(c, x) + Times(c, y)
  {
  }

  /** Pushing one node's mass along its row. */
  method PushRow(g: Csr, next: array<real>, i: nat, share: real)
    requires CsrOk(g) && i < g.n == next.Length
    modifies next
    ensures forall j :: 0 <= j < next.Length ==> next[j] == old(next[j]) + Times(share, EdgeWeight(g, i, j))
  {
    assert RowOk(g, i);
    TimesUnit(share);
    hide Times, RowOk;
    var lo, hi := g.rowPtr[i], g.rowPtr[i + 1];
    for q := lo to hi
      invariant forall j :: 0 <= j < next.Length ==>
                  next[j] == old(next[j]) + Times(share, PartWeight(g, j, lo, q))
    {
      var c := g.cols[q];
      TimesSum(share, PartWeight(g, c, lo, q), g.wts[q]);
      next[c] := next[c] + Times(share, g.wts[q]);
    }
  }

  /** The propagation loop over all nodes; returns the mass of nodes without edges. */
  method PushAll(g: Csr, d: real, r: array<real>, next: array<real>) returns (dangling: real)
    requires CsrOk(g) && g.n == next.Length == r.Length && r != next
    modifies next
    ensures forall j :: 0 <= j < next.Length ==> next[j] == old(next[j]) + Sum(PushAt(g, d, r[..], j), r.Length)
    ensures dangling == Dangling(g, r[..])
  {
    ghost var rv := r[..];
    dangling := 0.0;
    for i := 0 to r.Length
      invariant r[..] == rv
      invariant forall j :: 0 <= j < next.Length ==> next[j] == old(next[j]) + Sum(PushAt(g, d, rv, j), i)
      invariant dangling == Sum(DanglingAt(g, rv), i)
    {
      ghost var was := next[..];
      var ri := r[i];
      if ri == 0.0 {
        PushNothing(g, d, rv, i);
      } else if g.outSum[i] == 0.0 {
        dangling := dangling + ri;
        PushNothing(g, d, rv, i);
      } else {
        var share := Times(d, ri) / g.outSum[i];
        hide Times, EdgeWeight;
        PushRow(g, next, i, share);
        assert forall j :: 0 <= j < next.Length ==> next[j] == was[j] + PushAt(g, d, rv, j)(i);
      }
    }
  }

  lemma PushNothing(g: Csr, d: real, r: Vec, i: nat)
    requires i < |r| && (r[i] == 0.0 || (i < |g.outSum| && g.outSum[i] == 0.0))
    ensures forall j :: PushAt(g, d, r, j)(i) == 0.0
  {
    forall j ensures PushAt(g, d, r, j)(i) == 0.0 {
      TimesUnit(EdgeWeight(g, i, j));
    }
  }

  /** One pass of the iteration loop; diff is the L1 change. */
  method StepInPlace(g: Csr, d: real, s: Vec, r: array<real>, next: array<real>) returns (diff: real)
    requires CsrOk(g) && |s| == g.n == next.Length == r.Length && r != next
    modifies r, next
    ensures r[..] == Step(g, d, s, old(r[..])) && diff == L1(r[..], old(r[..]))
  {
    ghost var rv := r[..];
    hide Times;
    for i := 0 to |s|
      invariant forall j :: 0 <= j < i ==> next[j] == Times(1.0 - d, s[j])
      invariant r[..] == rv
    {
      next[i] := Times(1.0 - d, s[i]);
    }
    var dangling := PushAll(g, d, r, next);
    if dangling > 0.0 {
      AddDangling(s, d, dangling, next);
    }
    assert r[..] == rv;
    assert next[..] == Step(g, d, s, rv);
    diff := Replace(r, next);
  }

  method AddDangling(s: Vec, d: real, dangling: real, next: array<real>)
    requires |s| == next.Length
    modifies next
    ensures forall j :: 0 <= j < next.Length ==> next[j] == old(next[j]) + Times(Times(d, dangling), s[j])
  {
    hide Times;
    for i := 0 to |s|
      invariant forall j :: 0 <= j < i ==> next[j] == old(next[j]) + Times(Times(d, dangling), s[j])
      invariant forall j :: i <= j < next.Length ==> next[j] == old(next[j])
    {
      next[i] := next[i] + Times(Times(d, dangling), s[i]);
    }
  }

  method Replace(r: array<real>, next: array<real>) returns (diff: real)
    requires r.Length == next.Length && r != next
    modifies r
    ensures r[..] == next[..] && diff == L1(next[..], old(r[..]))
  {
    ghost var was := r[..];
    diff := 0.0;
    for i := 0 to r.Length
      invariant forall j :: 0 <= j < i ==> r[j] == next[j]
      invariant forall j :: i <= j < r.Length ==> r[j] == was[j]
      invariant diff == Sum(DiffAt(next[..], was), i)
    {
      diff := diff + Abs(next[i] - r[i]);
      r[i] := next[i];
    }
  }

  /** The positive seed mass per node. */
  ghost function SeedMass(seeds: map<int, real>, n: nat): (s: Vec)
    ensures |s| == n
    ensures forall i :: 0 <= i < n ==> s[i] == if i in seeds && seeds[i] > 0.0 then seeds[i] else 0.0
  {
    seq(n, i requires 0 <= i < n => if i in seeds && seeds[i] > 0.0 then seeds[i] else 0.0)
  }

  /** Collecting the seeds, in whatever order the map yields them. */
  method CollectSeeds(seeds: map<int, real>, n: nat) returns (s: array<real>, total: real)
    ensures fresh(s) && s[..] == SeedMass(seeds, n) && total == Total(SeedMass(seeds, n))
  {
    s := new real[n](_ => 0.0);
    total := 0.0;
    var keys := seeds.Keys;
    SumZero(At(s[..]), n);
    while keys != {}
      invariant keys <= seeds.Keys && s.Length == n && fresh(s)
      invariant forall i :: 0 <= i < n ==>
                  s[i] == if i in seeds && i !in keys && seeds[i] > 0.0 then seeds[i] else 0.0
      invariant total == Total(s[..])
      decreases |keys|
    {
      ghost var some := Orders.MemberOf(keys);
      var node: int :| node in keys;
      var m := seeds[node];
      ghost var was := s[..];
      if 0 <= node < n && m > 0.0 {
        s[node] := s[node] + m;
        total := total + m;
        SumUpdate(At(was), At(s[..]), node, n);
      }
      keys := keys - {node};
    }
  }

  /** The restart distribution: seed mass divided by its total. */
  ghost function Restart(seeds: map<int, real>, n: nat): Vec
    requires Total(SeedMass(seeds, n)) != 0.0
  {
    Scale(1.0 / Total(SeedMass(seeds, n)), SeedMass(seeds, n))
  }

  function Effective(p: Params): Params { if p.damping <= 0.0 then DEFAULT else p }

  function Cap(p: Params): nat { if p.maxIter < 0 then 0 else p.maxIter }

  /** The L1 change of iteration k. */
  ghost function Change(g: Csr, d: real, s: Vec, k: nat): real
    requires k > 0
  {
    L1(Iterate(g, d, s, k), Iterate(g, d, s, k - 1))
  }

  /** None of the first t changes is below the tolerance. */
  ghost predicate Runs(g: Csr, p: Params, s: Vec, t: nat) {
    forall k :: 0 < k <= t ==> Change(g, p.damping, s, k) >= p.tolerance
  }

  /** t iterations is where the loop stops: at the first change below the tolerance,
      or at the cap when there is none. */
  ghost predicate StopsAt(g: Csr, p: Params, s: Vec, t: nat) {
    && t <= Cap(p)
    && (Runs(g, p, s, t) ==> t == Cap(p))
    && (t > 0 ==> Runs(g, p, s, t - 1))
  }

  /** PersonalizedPageRank: t counts the iterations. */
  method PersonalizedPageRank(g: Csr, seeds: map<int, real>, params: Params) returns (rank: Vec, ghost t: nat)
    requires CsrOk(g)
    ensures Total(SeedMass(seeds, g.n)) == 0.0 ==> rank == SeedMass(seeds, g.n)
    ensures Total(SeedMass(seeds, g.n)) != 0.0 ==>
              && StopsAt(g, Effective(params), Restart(seeds, g.n), t)
              && rank == Iterate(g, Effective(params).damping, Restart(seeds, g.n), t)
  {
    var p := Effective(params);
    t := 0;
    var s, total := CollectSeeds(seeds, g.n);
    if total == 0.0 {
      rank := s[..];
      return;
    }
    var inv := 1.0 / total;
    ScaleAll(s, inv);
    var sv := s[..];
    assert sv == Restart(seeds, g.n);
    hide Restart, SeedMass, Total, CsrOk, Step, L1;
    rank, t := RunIterations(g, sv, p);
  }

  method ScaleAll(s: array<real>, c: real)
    modifies s
    ensures s[..] == Scale(c, old(s[..]))
  {
    hide Times;
    for i := 0 to s.Length
      invariant forall j :: 0 <= j < i ==> s[j] == Times(c, old(s[j]))
      invariant forall j :: i <= j < s.Length ==> s[j] == old(s[j])
    {
      s[i] := Times(c, s[i]);
    }
    assert forall j :: 0 <= j < s.Length ==> old(s[..])[j] == old(s[j]);
  }

  method RunIterations(g: Csr, s: Vec, p: Params) returns (rank: Vec, ghost t: nat)
    requires CsrOk(g) && |s| == g.n
    ensures StopsAt(g, p, s, t) && rank == Iterate(g, p.damping, s, t)
  {
    var r, next := new real[g.n](i requires 0 <= i < |s| => s[i]), new real[g.n];
    IterateFirst(g, p.damping, s);
    assert r[..] == s;
    hide CsrOk, Step, L1, Runs, Iterate;
    var iter: nat := 0;
    t := 0;
    RunsNone(g, p, s);
    while iter < p.maxIter
      invariant iter == t <= Cap(p)
      invariant r[..] == Iterate(g, p.damping, s, t) && Runs(g, p, s, t)
    {
      IterateNext(g, p.damping, s, t);
      var diff := StepInPlace(g, p.damping, s, r, next);
      iter, t := iter + 1, t + 1;
      RunsNext(g, p, s, t);
      if diff < p.tolerance {
        break;
      }
    }
    rank := r[..];
  }

  lemma RunsNone(g: Csr, p: Params, s: Vec)
    ensures Runs(g, p, s, 0)
  {
  }

  lemma RunsNext(g: Csr, p: Params, s: Vec, t: nat)
    requires t > 0 && Runs(g, p, s, t - 1)
    ensures Runs(g, p, s, t) <==> Change(g, p.damping, s, t) >= p.tolerance
  {
    hide Change;
  }

  lemma IterateFirst(g: Csr, d: real, s: Vec)
    ensures Iterate(g, d, s, 0) == s
  {
  }

  lemma IterateNext(g: Csr, d: real, s: Vec, t: nat)
    ensures Iterate(g, d, s, t + 1) == Step(g, d, s, Iterate(g, d, s, t))
  {
    hide Step;
  }
}
