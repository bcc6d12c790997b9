/** Where the rank goes: along the edges of the graph and nowhere else, one edge per
    iteration, in proportion to the edge weights. */
module PageRankReach {
  import opened Vectors
  import opened Sums
  import opened WeightedGraph
  import opened PageRank
  import opened PageRankLaws

  // ---------- weights of a row ----------

  /** The weights of a row add up to its sum, and none is negative. */
  lemma RowWeights(g: Csr, i: nat)
    requires CsrOk(g) && i < g.n
    ensures Sum(PartWeights(g, g.rowPtr[i], g.rowPtr[i + 1]), g.n) == g.outSum[i]
    ensures forall j: nat :: PartWeights(g, g.rowPtr[i], g.rowPtr[i + 1])(j) == EdgeWeight(g, i, j) >= 0.0
  {
    assert RowOk(g, i);
    PartWeightsTotal(g, g.rowPtr[i], g.rowPtr[i + 1]);
    hide PartWeight, RowTotal;
  }

  lemma EdgeHasSum(g: Csr, i: nat, j: nat)
    requires CsrOk(g) && i < g.n && j < g.n
    ensures EdgeWeight(g, i, j) >= 0.0 && g.outSum[i] >= 0.0
    ensures EdgeWeight(g, i, j) > 0.0 ==> g.outSum[i] > 0.0
  {
    var f := PartWeights(g, g.rowPtr[i], g.rowPtr[i + 1]);
    RowWeights(g, i);
    assert f(j) == EdgeWeight(g, i, j);
    forall k: nat ensures f(k) >= 0.0 {
      assert f(k) == EdgeWeight(g, i, k);
    }
    hide PartWeights, EdgeWeight, CsrOk, Sum;
    SumNonNegative(f, g.n);
    SumPositive(f, g.n);
  }

  // ---------- one node's mass ----------

  /** All of r's mass is on node i. */
  ghost predicate OnlyAt(r: Vec, i: nat) {
    i < |r| && r[i] >= 0.0 && forall k :: 0 <= k < |r| && k != i ==> r[k] == 0.0
  }

  lemma NoDangling(g: Csr, r: Vec, i: nat)
    requires |r| == |g.outSum| && OnlyAt(r, i)
    ensures Dangling(g, r) == if g.outSum[i] == 0.0 then r[i] else 0.0
  {
    SumSingle(DanglingAt(g, r), i, |r|);
  }

  lemma OnePush(g: Csr, d: real, r: Vec, i: nat, j: nat)
    requires |r| == |g.outSum| && OnlyAt(r, i)
    ensures Sum(PushAt(g, d, r, j), |r|) == Times(Share(g, d, r, i), EdgeWeight(g, i, j))
  {
    forall k | 0 <= k < |r| && k != i ensures PushAt(g, d, r, j)(k) == 0.0 {
      TimesUnit(EdgeWeight(g, k, j));
    }
    SumSingle(PushAt(g, d, r, j), i, |r|);
    hide Times, EdgeWeight;
  }

  /** A node with edges passes its damped mass on to its neighbours, to each in proportion to
      the weight of the edge. */
  lemma MassFollowsEdges(g: Csr, d: real, s: Vec, r: Vec, i: nat, j: nat)
    requires CsrOk(g) && |s| == |r| == g.n && i < g.n && j < g.n && OnlyAt(r, i) && g.outSum[i] != 0.0
    ensures (Step(g, d, s, r)[j] - (1.0 - d) * s[j]) * g.outSum[i] == d * r[i] * EdgeWeight(g, i, j)
  {
    hide *;
    SizesMatch(g, s);
    NoDangling(g, r, i);
    OnePush(g, d, r, i, j);
    StepParts(g, d, s, r, j);
    ShareBack(g, d, r, i, EdgeWeight(g, i, j));
  }

  lemma SizesMatch(g: Csr, s: Vec)
    requires CsrOk(g) && |s| == g.n
    ensures |g.outSum| == g.n == |s|
  {
  }

  lemma StepParts(g: Csr, d: real, s: Vec, r: Vec, j: nat)
    requires j < |s| && Dangling(g, r) == 0.0
    ensures Step(g, d, s, r)[j] - (1.0 - d) * s[j] == Sum(PushAt(g, d, r, j), |r|)
  {
    hide Sum, Dangling, PushAt;
  }

  lemma ShareBack(g: Csr, d: real, r: Vec, i: nat, w: real)
    requires i < |r| == |g.outSum| && g.outSum[i] != 0.0
    ensures Times(Share(g, d, r, i), w) * g.outSum[i] == d * r[i] * w
  {
    var c, q := g.outSum[i], Share(g, d, r, i);
    assert q * c == d * r[i];
    assert (q * w) * c == (q * c) * w;
  }

  /** A node without edges gives its damped mass back to the seeds: a step from it is the
      restart vector. */
  lemma IsolatedRestarts(g: Csr, d: real, s: Vec, r: Vec, i: nat)
    requires CsrOk(g) && |s| == |r| == g.n && OnlyAt(r, i) && r[i] == 1.0 && g.outSum[i] == 0.0
    ensures Step(g, d, s, r) == s
  {
    NoDangling(g, r, i);
    hide CsrOk, Dangling, EdgeWeight, Sum;
    forall j | 0 <= j < |s| ensures Step(g, d, s, r)[j] == s[j] {
      OnePush(g, d, r, i, j);
      TimesUnit(EdgeWeight(g, i, j));
      assert (1.0 - d) * s[j] + (d * 1.0) * s[j] == s[j];
    }
  }

  // ---------- which nodes get a rank ----------

  lemma ShareSign(g: Csr, d: real, r: Vec, i: nat)
    requires CsrOk(g) && |r| == g.n && i < g.n && r[i] >= 0.0 && d > 0.0 && g.outSum[i] >= 0.0
    ensures Share(g, d, r, i) >= 0.0
    ensures g.outSum[i] > 0.0 ==> (Share(g, d, r, i) > 0.0 <==> r[i] > 0.0)
  {
    if r[i] != 0.0 && g.outSum[i] != 0.0 {
      PositiveTimes(d, r[i]);
      PositiveQuotient(Times(d, r[i]), g.outSum[i]);
    }
    hide Times;
  }

  lemma PositiveTimes(x: real, y: real)
    requires x >= 0.0 && y >= 0.0
    ensures Times(x, y) >= 0.0 && (Times(x, y) > 0.0 <==> x > 0.0 && y > 0.0)
  {
  }

  lemma PositiveQuotient(x: real, c: real)
    requires x > 0.0 && c > 0.0
    ensures x / c > 0.0
  {
  }

  /** A node has rank after a step exactly when it is a seed, or an edge leads to it from a
      node that had rank before. */
  lemma StepReaches(g: Csr, d: real, s: Vec, r: Vec, j: nat)
    requires CsrOk(g) && |s| == |r| == g.n && j < g.n && 0.0 < d < 1.0
    requires (forall i :: 0 <= i < |s| ==> s[i] >= 0.0) && forall i :: 0 <= i < |r| ==> r[i] >= 0.0
    ensures Step(g, d, s, r)[j] >= 0.0
    ensures Step(g, d, s, r)[j] > 0.0 <==> s[j] > 0.0 || exists i :: 0 <= i < g.n && r[i] > 0.0 && EdgeWeight(g, i, j) > 0.0
  {
    var f := PushAt(g, d, r, j);
    forall i: nat | i < g.n
      ensures f(i) >= 0.0 && (f(i) > 0.0 <==> r[i] > 0.0 && EdgeWeight(g, i, j) > 0.0)
    {
      EdgeHasSum(g, i, j);
      ShareSign(g, d, r, i);
      PositiveTimes(Share(g, d, r, i), EdgeWeight(g, i, j));
      hide Share, EdgeWeight, CsrOk, Times;
    }
    SumNonNegative(f, g.n);
    SumPositive(f, g.n);
    PositiveTimes(1.0 - d, s[j]);
    if Dangling(g, r) > 0.0 {
      PositiveTimes(d, Dangling(g, r));
      PositiveTimes(Times(d, Dangling(g, r)), s[j]);
    }
    hide Share, EdgeWeight, CsrOk, Times, Dangling, PushAt, Sum;
  }

  /** A walk along edges. */
  ghost predicate IsWalk(g: Csr, p: seq<nat>) {
    && |p| > 0 && (forall k :: 0 <= k < |p| ==> p[k] < g.n)
    && forall k :: 0 < k < |p| ==> EdgeWeight(g, p[k - 1], p[k]) > 0.0
  }

  /** A walk of at most t edges from a seed to j. */
  ghost predicate Reached(g: Csr, s: Vec, t: nat, j: nat) {
    exists p :: IsWalk(g, p) && |p| <= t + 1 && p[0] < |s| && s[p[0]] > 0.0 && p[|p| - 1] == j
  }

  lemma WalkOn(g: Csr, s: Vec, t: nat, i: nat, j: nat)
    requires Reached(g, s, t, i) && i < g.n && j < g.n && EdgeWeight(g, i, j) > 0.0
    ensures Reached(g, s, t + 1, j)
  {
    hide EdgeWeight;
    var p :| IsWalk(g, p) && |p| <= t + 1 && p[0] < |s| && s[p[0]] > 0.0 && p[|p| - 1] == i;
    assert IsWalk(g, p + [j]);
  }

  lemma WalkBack(g: Csr, s: Vec, t: nat, j: nat) returns (i: nat)
    requires |s| == g.n && j < g.n && Reached(g, s, t + 1, j) && !(s[j] > 0.0)
    ensures i < g.n && Reached(g, s, t, i) && EdgeWeight(g, i, j) > 0.0
  {
    hide EdgeWeight;
    var p :| IsWalk(g, p) && |p| <= t + 2 && p[0] < |s| && s[p[0]] > 0.0 && p[|p| - 1] == j;
    var front := p[..|p| - 1];
    i := front[|front| - 1];
    assert IsWalk(g, front);
  }

  /** After t iterations exactly the nodes at most t edges from a seed have rank. */
  lemma {:induction false} RankReaches(g: Csr, d: real, s: Vec, t: nat, j: nat)
    requires CsrOk(g) && |s| == g.n && j < g.n && 0.0 < d < 1.0 && Distribution(s)
    ensures Iterate(g, d, s, t)[j] > 0.0 <==> Reached(g, s, t, j)
    decreases t
  {
    hide CsrOk, Distribution, Step, EdgeWeight, Reached;
    if t == 0 {
      NoSteps(g, s, j);
    } else {
      var r := Iterate(g, d, s, t - 1);
      IteratesKeepMass(g, d, s, t - 1);
      NonNegatives(s);
      NonNegatives(r);
      StepReaches(g, d, s, r, j);
      IterateNext(g, d, s, t - 1);
      if s[j] > 0.0 {
        SeedIsReached(g, s, t, j);
      } else if i :| 0 <= i < g.n && r[i] > 0.0 && EdgeWeight(g, i, j) > 0.0 {
        RankReaches(g, d, s, t - 1, i);
        WalkOn(g, s, t - 1, i, j);
      } else if Reached(g, s, t, j) {
        var i := WalkBack(g, s, t - 1, j);
        RankReaches(g, d, s, t - 1, i);
      }
    }
  }

  lemma NonNegatives(v: Vec)
    requires Distribution(v)
    ensures forall i :: 0 <= i < |v| ==> v[i] >= 0.0
  {
  }

  lemma SeedIsReached(g: Csr, s: Vec, t: nat, j: nat)
    requires j < g.n && j < |s| && s[j] > 0.0
    ensures Reached(g, s, t, j)
  {
    assert IsWalk(g, [j]);
  }

  lemma NoSteps(g: Csr, s: Vec, j: nat)
    requires |s| == g.n && j < g.n
    ensures Reached(g, s, 0, j) <==> s[j] > 0.0
  {
    if s[j] > 0.0 {
      SeedIsReached(g, s, 0, j);
    }
    hide EdgeWeight;
  }

  /** The same from the seeds of the call: rank goes to the nodes within reach of a node with
      positive seed mass. */
  lemma SeedsReach(g: Csr, d: real, seeds: map<int, real>, t: nat, j: nat)
    requires CsrOk(g) && j < g.n && 0.0 < d < 1.0 && Total(SeedMass(seeds, g.n)) != 0.0
    ensures Iterate(g, d, Restart(seeds, g.n), t)[j] > 0.0 <==>
            exists p :: IsWalk(g, p) && |p| <= t + 1 && p[0] in seeds && seeds[p[0]] > 0.0 && p[|p| - 1] == j
  {
    var s := Restart(seeds, g.n);
    RestartIsDistribution(seeds, g.n);
    RankReaches(g, d, s, t, j);
    hide CsrOk, Iterate, EdgeWeight, Distribution;
    forall i | 0 <= i < g.n ensures s[i] > 0.0 <==> i in seeds && seeds[i] > 0.0 {
      RestartSign(seeds, g.n, i);
    }
    hide Restart, SeedMass, Total;
    assert Reached(g, s, t, j) <==>
           exists p :: IsWalk(g, p) && |p| <= t + 1 && p[0] in seeds && seeds[p[0]] > 0.0 && p[|p| - 1] == j;
  }

  lemma RestartSign(seeds: map<int, real>, n: nat, i: nat)
    requires i < n && Total(SeedMass(seeds, n)) != 0.0
    ensures Restart(seeds, n)[i] > 0.0 <==> i in seeds && seeds[i] > 0.0
  {
    var m := SeedMass(seeds, n);
    SumNonNegative(At(m), n);
    PositiveQuotient(1.0, Total(m));
    PositiveTimes(1.0 / Total(m), m[i]);
    hide Times, Total;
  }

  // ---------- the undamped answer ----------

  ghost predicate Symmetric(g: Csr) {
    forall i: nat, j: nat :: i < g.n && j < g.n ==> EdgeWeight(g, i, j) == EdgeWeight(g, j, i)
  }

  ghost function Degrees(g: Csr): Vec {
    Scale(if Total(g.outSum) == 0.0 then 1.0 else 1.0 / Total(g.outSum), g.outSum)
  }

  /** Without damping and without isolated nodes, rank in proportion to the weight at a node
      is stationary on a graph whose edges go both ways. */
  lemma DegreesAreStationary(g: Csr, s: Vec)
    requires CsrOk(g) && Symmetric(g) && g.n > 0 && |s| == g.n && forall i :: 0 <= i < g.n ==> g.outSum[i] != 0.0
    ensures Stationary(g, 1.0, s, Degrees(g))
  {
    var x, n := Degrees(g), g.n;
    DegreesAre(g);
    hide EdgeWeight, Sum, Total, Distribution;
    NoneDangles(g, x);
    forall j | 0 <= j < n ensures Step(g, 1.0, s, x)[j] == x[j] {
      Inflow(g, x, j);
      TimesUnit(s[j]);
      hide PushAt, CsrOk, Symmetric, Dangling, Scale;
    }
    assert Step(g, 1.0, s, x) == x;
  }

  lemma DegreesAre(g: Csr)
    requires CsrOk(g) && g.n > 0 && forall i :: 0 <= i < g.n ==> g.outSum[i] != 0.0
    ensures Total(g.outSum) > 0.0 && Distribution(Degrees(g)) && |Degrees(g)| == g.n
  {
    forall i: nat | i < g.n ensures g.outSum[i] > 0.0 {
      EdgeHasSum(g, i, i);
    }
    hide CsrOk, EdgeWeight;
    var f, c := At(g.outSum), Total(g.outSum);
    SumPositive(f, g.n);
    assert f(0) > 0.0;
    PositiveQuotient(1.0, c);
    SumScale(1.0 / c, f, At(Degrees(g)), g.n);
    TimesDivide(1.0, c, c);
    TimesDivide(c, 1.0, c);
    forall i | 0 <= i < g.n ensures Degrees(g)[i] >= 0.0 {
      PositiveTimes(1.0 / c, g.outSum[i]);
    }
    hide Times;
  }

  lemma NoneDangles(g: Csr, x: Vec)
    requires |x| == |g.outSum| && forall i :: 0 <= i < |x| ==> g.outSum[i] != 0.0
    ensures Dangling(g, x) == 0.0
  {
    SumZero(DanglingAt(g, x), |x|);
  }

  /** What flows into j is in proportion to its own weights. */
  lemma Inflow(g: Csr, x: Vec, j: nat)
    requires CsrOk(g) && Symmetric(g) && j < g.n && Total(g.outSum) > 0.0 && x == Degrees(g)
    requires forall i :: 0 <= i < g.n ==> g.outSum[i] != 0.0
    ensures |x| == g.n && Sum(PushAt(g, 1.0, x, j), |x|) == x[j]
  {
    var c, row := 1.0 / Total(g.outSum), PartWeights(g, g.rowPtr[j], g.rowPtr[j + 1]);
    RowWeights(g, j);
    forall i: nat | i < g.n ensures PushAt(g, 1.0, x, j)(i) == Times(c, row(i)) {
      assert EdgeWeight(g, i, j) == EdgeWeight(g, j, i) == row(i);
      EvenShare(c, g.outSum[i]);
      TimesUnit(x[i]);
      hide EdgeWeight, PartWeights, CsrOk, Symmetric;
      PositiveQuotient(1.0, Total(g.outSum));
      ZeroShare(c, g.outSum[i]);
      hide Times, Total;
    }
    SumScale(c, row, PushAt(g, 1.0, x, j), g.n);
  }

  lemma EvenShare(c: real, w: real)
    requires w != 0.0
    ensures Times(c, w) / w == c
  {
  }

  lemma ZeroShare(c: real, w: real)
    requires c > 0.0 && w != 0.0
    ensures Times(c, w) != 0.0
  {
  }

  /** Some edge of positive weight was added at i. */
  ghost predicate HasEdge(n: nat, edges: seq<Edge>, i: nat) {
    exists j: nat :: j < n && MaxWeight(n, edges, i, j) > 0.0
  }

  /** A built graph without isolated nodes meets all that. */
  lemma BuiltDegreesAreStationary(g: Csr, n: nat, adj: seq<map<int, real>>, edges: seq<Edge>, s: Vec)
    requires Adjacency(n, adj, edges) && IsCsrOf(g, n, adj) && n > 0 && |s| == n
    requires forall i :: 0 <= i < n ==> HasEdge(n, edges, i)
    ensures Stationary(g, 1.0, s, Degrees(g))
  {
    BuiltIsOk(g, n, adj, edges);
    BuiltSize(g, n, adj);
    hide CsrOk, IsCsrOf, Adjacency, EdgeWeight, MaxWeight, Stationary;
    forall i: nat, j: nat | i < n && j < n ensures EdgeWeight(g, i, j) == EdgeWeight(g, j, i) {
      BuiltEdges(g, n, adj, edges, i, j);
    }
    forall i: nat | i < n ensures g.outSum[i] != 0.0 {
      assert HasEdge(n, edges, i);
      var j: nat :| j < n && MaxWeight(n, edges, i, j) > 0.0;
      BuiltEdges(g, n, adj, edges, i, j);
      EdgeHasSum(g, i, j);
    }
    DegreesAreStationary(g, s);
  }

  lemma BuiltSize(g: Csr, n: nat, adj: seq<map<int, real>>)
    requires IsCsrOf(g, n, adj)
    ensures g.n == n && |g.outSum| == n
  {
  }
}
