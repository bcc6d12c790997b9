/** The graph of graph/graph.go: a builder that keeps the strongest weight per
    undirected edge, frozen into compressed sparse rows. */
module WeightedGraph {
  import opened Orders

  /** One AddEdge call. */
  datatype Edge = Edge(a: int, b: int, w: real)

  datatype Csr = Csr(n: nat, rowPtr: seq<nat>, cols: seq<int>, wts: seq<real>, outSum: seq<real>)

  // ---------- the strongest weight of a pair ----------

  /** AddEdge ignores loops, nodes out of range and weights that are not positive. */
  predicate Counts(n: nat, e: Edge) {
    e.a != e.b && 0 <= e.a < n && 0 <= e.b < n && e.w > 0.0
  }

  predicate Joins(e: Edge, i: int, j: int) {
    (e.a == i && e.b == j) || (e.a == j && e.b == i)
  }

  ghost function MaxWeight(n: nat, edges: seq<Edge>, i: int, j: int): real {
    if |edges| == 0 then 0.0
    else
      var rest, e := MaxWeight(n, edges[..|edges| - 1], i, j), edges[|edges| - 1];
      if Counts(n, e) && Joins(e, i, j) && e.w > rest then e.w else rest
  }

  /** MaxWeight is the greatest counted weight of the pair, or 0 when there is none. */
  lemma {:induction false} MaxWeightIsGreatest(n: nat, edges: seq<Edge>, i: int, j: int)
    ensures forall e :: e in edges && Counts(n, e) && Joins(e, i, j) ==> e.w <= MaxWeight(n, edges, i, j)
    ensures MaxWeight(n, edges, i, j) == 0.0 ||
            exists e :: e in edges && Counts(n, e) && Joins(e, i, j) && e.w == MaxWeight(n, edges, i, j)
    ensures MaxWeight(n, edges, i, j) >= 0.0
  {
    if |edges| > 0 {
      var k := |edges| - 1;
      MaxWeightIsGreatest(n, edges[..k], i, j);
      assert edges == edges[..k] + [edges[k]];
    }
  }

  lemma {:induction false} MaxWeightSymmetric(n: nat, edges: seq<Edge>, i: int, j: int)
    ensures MaxWeight(n, edges, i, j) == MaxWeight(n, edges, j, i)
    ensures i == j || !(0 <= i < n) || !(0 <= j < n) ==> MaxWeight(n, edges, i, j) == 0.0
  {
    if |edges| > 0 {
      MaxWeightSymmetric(n, edges[..|edges| - 1], i, j);
    }
  }

  /** The order of the AddEdge calls does not matter. */
  lemma MaxWeightAnyOrder(n: nat, edges: seq<Edge>, other: seq<Edge>, i: int, j: int)
    requires Rearranged(edges, other)
    ensures MaxWeight(n, edges, i, j) == MaxWeight(n, other, i, j)
  {
    SameMembers(edges, other);
    MaxWeightIsGreatest(n, edges, i, j);
    MaxWeightIsGreatest(n, other, i, j);
  }

  lemma MaxWeightSnoc(n: nat, edges: seq<Edge>, e: Edge, i: int, j: int)
    ensures MaxWeight(n, edges + [e], i, j)
         == (var rest := MaxWeight(n, edges, i, j);
             if Counts(n, e) && Joins(e, i, j) && e.w > rest then e.w else rest)
  {
    assert (edges + [e])[..|edges|] == edges;
  }

  // ---------- the builder ----------

  /** The adjacency maps hold exactly the strongest positive weight of every pair. */
  ghost predicate Adjacency(n: nat, adj: seq<map<int, real>>, edges: seq<Edge>) {
    && |adj| == n
    && forall i, j :: 0 <= i < n ==>
         && (j in adj[i] <==> MaxWeight(n, edges, i, j) > 0.0)
         && (j in adj[i] ==> adj[i][j] == MaxWeight(n, edges, i, j))
  }

  lemma AdjacencyBounds(n: nat, adj: seq<map<int, real>>, edges: seq<Edge>, a: int, b: int)
    requires Adjacency(n, adj, edges)
    ensures |adj| == n
  {
  }

  /** An edge that is invalid, or no stronger than what is there, changes nothing. */
  lemma AdjacencyIgnored(n: nat, adj: seq<map<int, real>>, edges: seq<Edge>, e: Edge)
    requires Adjacency(n, adj, edges)
    requires Counts(n, e) ==> e.b in adj[e.a] && e.w <= adj[e.a][e.b]
    ensures Adjacency(n, adj, edges + [e])
  {
    forall i, j | 0 <= i < n
      ensures MaxWeight(n, edges + [e], i, j) == MaxWeight(n, edges, i, j)
    {
      MaxWeightSnoc(n, edges, e, i, j);
      if Counts(n, e) && Joins(e, i, j) {
        MaxWeightSymmetric(n, edges, e.a, e.b);
      }
    }
    hide MaxWeight;
  }

  /** A stronger edge is written in both directions. */
  lemma AdjacencyUpdated(n: nat, adj: seq<map<int, real>>, edges: seq<Edge>, e: Edge)
    requires Adjacency(n, adj, edges) && Counts(n, e)
    requires e.b in adj[e.a] ==> e.w > adj[e.a][e.b]
    ensures Adjacency(n, WithEdge(adj, e.a, e.b, e.w), edges + [e])
  {
    var after := WithEdge(adj, e.a, e.b, e.w);
    hide MaxWeight;
    forall i, j | 0 <= i < n
      ensures (j in after[i] <==> MaxWeight(n, edges + [e], i, j) > 0.0)
      ensures j in after[i] ==> after[i][j] == MaxWeight(n, edges + [e], i, j)
    {
      MaxWeightSnoc(n, edges, e, i, j);
      MaxWeightSymmetric(n, edges, e.a, e.b);
      MaxWeightIsGreatest(n, edges, i, j);
    }
  }

  ghost function WithEdge(adj: seq<map<int, real>>, a: nat, b: nat, w: real): (r: seq<map<int, real>>)
    requires a < |adj| && b < |adj|
    ensures |r| == |adj|
  {
    var atA: map<int, real> := adj[a][b := w];
    var half := adj[a := atA];
    var atB: map<int, real> := half[b][a := w];
    half[b := atB]
  }

  class Builder {
    const n: nat
    var adj: seq<map<int, real>>
    ghost var edges: seq<Edge> // the AddEdge calls so far

    ghost predicate Valid()
      reads this
    {
      Adjacency(n, adj, edges)
    }

    constructor (n: nat)
      ensures Valid() && this.n == n && edges == []
    {
      this.n := n;
      adj := seq(n, _ => map[]);
      edges := [];
    }

    method AddEdge(a: int, b: int, w: real)
      requires Valid()
      modifies this
      ensures Valid() && edges == old(edges) + [Edge(a, b, w)]
    {
      ghost var e, was := Edge(a, b, w), adj;
      edges := edges + [e];
      hide MaxWeight, Adjacency;
      AdjacencyBounds(n, adj, old(edges), a, b);
      if a == b || a < 0 || b < 0 || a >= n || b >= n || w <= 0.0 {
        AdjacencyIgnored(n, adj, old(edges), e);
        return;
      }
      var i: nat, j: nat := a, b;
      if j !in adj[i] || w > adj[i][j] {
        var atI: map<int, real> := adj[i][j := w];
        adj := adj[i := atI];
        var atJ: map<int, real> := adj[j][i := w];
        adj := adj[j := atJ];
        AdjacencyUpdated(n, was, old(edges), e);
      } else {
        AdjacencyIgnored(n, adj, old(edges), e);
      }
    }

    /** Build: rows in node order, columns ascending within a row. */
    method Build() returns (g: Csr)
      requires Valid()
      ensures IsCsrOf(g, n, adj)
    {
      assert |adj| == n;
      hide *;
      var total := CountEntries();
      var rowPtr, cols, wts, outSum := new nat[n + 1], new int[total], new real[total], new real[n];
      FillRows(rowPtr, cols, wts, outSum);
      g := Csr(n, rowPtr[..], cols[..], wts[..], outSum[..]);
      RowsAll(adj, rowPtr[..], cols[..], wts[..], outSum[..]);
    }

    method CountEntries() returns (total: nat)
      ensures total == RowStart(adj, |adj|)
    {
      hide *;
      RowStartFirst(adj);
      total := 0;
      for i := 0 to |adj|
        invariant total == RowStart(adj, i)
      {
        total := total + |adj[i]|;
        RowStartNext(adj, i);
      }
    }

    /** The emitting loop of Build, with its running position. */
    method FillRows(rowPtr: array<nat>, cols: array<int>, wts: array<real>, outSum: array<real>)
      requires rowPtr.Length == |adj| + 1 && outSum.Length == |adj| && wts != outSum
      requires cols.Length == wts.Length == RowStart(adj, |adj|)
      modifies rowPtr, cols, wts, outSum
      ensures Rows(adj, rowPtr[..], cols[..], wts[..], outSum[..], |adj|)
      ensures rowPtr[|adj|] == RowStart(adj, |adj|)
    {
      hide *;
      var n, pos := |adj|, 0;
      RowStartFirst(adj);
      RowsNone(adj, rowPtr[..], cols[..], wts[..], outSum[..]);
      for i := 0 to n
        invariant pos == RowStart(adj, i)
        invariant Rows(adj, rowPtr[..], cols[..], wts[..], outSum[..], i)
      {
        RowStartNext(adj, i);
        RowStartGrows(adj, i + 1, n);
        ghost var ps, cs, ws, ss := rowPtr[..], cols[..], wts[..], outSum[..];
        rowPtr[i] := pos;
        outSum[i] := FillRow(adj[i], cols, wts, pos);
        RowsNext(adj, ps, cs, ws, ss, rowPtr[..], cols[..], wts[..], outSum[..], i, pos);
        pos := pos + |adj[i]|;
      }
      ghost var ps := rowPtr[..];
      rowPtr[n] := pos;
      RowsPointer(adj, ps, rowPtr[..], cols[..], wts[..], outSum[..], n);
    }
  }

  // ---------- rows ----------

  ghost function RowStart(adj: seq<map<int, real>>, i: nat): nat
    requires i <= |adj|
  {
    if i == 0 then 0 else RowStart(adj, i - 1) + |adj[i - 1]|
  }

  lemma {:induction false} RowStartGrows(adj: seq<map<int, real>>, i: nat, j: nat)
    requires i <= j <= |adj|
    ensures RowStart(adj, i) <= RowStart(adj, j)
    decreases j
  {
    if i < j {
      RowStartGrows(adj, i, j - 1);
    }
  }

  /** The sum of the weights at positions lo..hi. */
  ghost function RowTotal(wts: seq<real>, lo: nat, hi: nat): real
    decreases hi
  {
    if lo >= hi || hi > |wts| then 0.0 else RowTotal(wts, lo, hi - 1) + wts[hi - 1]
  }

  /** Positions lo..hi hold the entries of m, columns strictly ascending. */
  ghost predicate RowIs(m: map<int, real>, cols: seq<int>, wts: seq<real>, lo: nat, hi: nat) {
    && lo <= hi <= |cols| == |wts| && hi - lo == |m|
    && (forall p, q :: lo <= p < q < hi ==> cols[p] < cols[q])
    && (forall p :: lo <= p < hi ==> cols[p] in m && wts[p] == m[cols[p]])
    && (forall j :: j in m ==> exists p :: lo <= p < hi && cols[p] == j)
  }

  ghost predicate IsCsrOf(g: Csr, n: nat, adj: seq<map<int, real>>) {
    && g.n == n == |adj| && |g.rowPtr| == n + 1 && |g.outSum| == n
    && g.rowPtr[0] == 0 && g.rowPtr[n] == |g.cols| == |g.wts|
    && forall i :: 0 <= i < n ==>
         && RowIs(adj[i], g.cols, g.wts, g.rowPtr[i], g.rowPtr[i + 1])
         && g.outSum[i] == RowTotal(g.wts, g.rowPtr[i], g.rowPtr[i + 1])
  }

  lemma {:induction false} RowTotalSame(ws: seq<real>, ws': seq<real>, lo: nat, hi: nat)
    requires lo <= hi <= |ws| == |ws'| && forall p :: lo <= p < hi ==> ws[p] == ws'[p]
    ensures RowTotal(ws, lo, hi) == RowTotal(ws', lo, hi)
    decreases hi
  {
    if lo < hi {
      RowTotalSame(ws, ws', lo, hi - 1);
    }
  }

  lemma RowFrame(m: map<int, real>, cols: seq<int>, wts: seq<real>, cols': seq<int>, wts': seq<real>, lo: nat, hi: nat)
    requires RowIs(m, cols, wts, lo, hi) && |cols'| == |cols| && |wts'| == |wts|
    requires forall p :: 0 <= p < hi ==> cols'[p] == cols[p] && wts'[p] == wts[p]
    ensures RowIs(m, cols', wts', lo, hi) && RowTotal(wts', lo, hi) == RowTotal(wts, lo, hi)
  {
    RowTotalSame(wts, wts', lo, hi);
    forall j | j in m ensures exists p :: lo <= p < hi && cols'[p] == j {
      var p :| lo <= p < hi && cols[p] == j;
      assert cols'[p] == j;
    }
  }

  lemma RowStartFirst(adj: seq<map<int, real>>)
    ensures RowStart(adj, 0) == 0
  {
  }

  lemma RowStartNext(adj: seq<map<int, real>>, i: nat)
    requires i < |adj|
    ensures RowStart(adj, i + 1) == RowStart(adj, i) + |adj[i]|
  {
  }

  /** Row m was written from position lo on, with its sum. */
  ghost predicate RowDone(m: map<int, real>, cols: seq<int>, wts: seq<real>, lo: nat, sum: real) {
    RowIs(m, cols, wts, lo, lo + |m|) && sum == RowTotal(wts, lo, lo + |m|)
  }

  /** The first i rows are written. */
  ghost predicate Rows(adj: seq<map<int, real>>, starts: seq<nat>, cols: seq<int>, wts: seq<real>, sums: seq<real>, i: nat) {
    i <= |starts| && i <= |sums| && i <= |adj| &&
    forall k :: 0 <= k < i ==> starts[k] == RowStart(adj, k) && RowDone(adj[k], cols, wts, starts[k], sums[k])
  }

  lemma RowsNone(adj: seq<map<int, real>>, starts: seq<nat>, cols: seq<int>, wts: seq<real>, sums: seq<real>)
    ensures Rows(adj, starts, cols, wts, sums, 0)
  {
  }

  lemma RowDoneFrame(m: map<int, real>, cols: seq<int>, wts: seq<real>, cols': seq<int>, wts': seq<real>,
                     lo: nat, sum: real, end: nat)
    requires RowDone(m, cols, wts, lo, sum) && lo + |m| <= end <= |cols| && |cols'| == |cols| == |wts'| == |wts|
    requires forall p :: 0 <= p < end ==> cols'[p] == cols[p] && wts'[p] == wts[p]
    ensures RowDone(m, cols', wts', lo, sum)
  {
    hide RowIs, RowTotal;
    RowFrame(m, cols, wts, cols', wts', lo, lo + |m|);
  }

  /** Writing row i behind the first i rows. */
  lemma RowsNext(adj: seq<map<int, real>>, starts: seq<nat>, cols: seq<int>, wts: seq<real>, sums: seq<real>,
                 starts': seq<nat>, cols': seq<int>, wts': seq<real>, sums': seq<real>, i: nat, pos: nat)
    requires Rows(adj, starts, cols, wts, sums, i) && i < |adj| && pos == RowStart(adj, i) <= |cols|
    requires |cols'| == |cols| == |wts'| == |wts| && i < |starts'| == |starts| && i < |sums'| == |sums|
    requires forall p :: 0 <= p < pos ==> cols'[p] == cols[p] && wts'[p] == wts[p]
    requires forall k :: 0 <= k < i ==> starts'[k] == starts[k] && sums'[k] == sums[k]
    requires starts'[i] == pos && RowDone(adj[i], cols', wts', pos, sums'[i])
    ensures Rows(adj, starts', cols', wts', sums', i + 1)
  {
    hide RowDone, RowStart;
    forall k | 0 <= k < i
      ensures RowDone(adj[k], cols', wts', starts[k], sums[k])
    {
      EarlierRow(adj, starts, cols, wts, sums, cols', wts', i, pos, k);
    }
  }

  lemma EarlierRow(adj: seq<map<int, real>>, starts: seq<nat>, cols: seq<int>, wts: seq<real>, sums: seq<real>,
                   cols': seq<int>, wts': seq<real>, i: nat, pos: nat, k: nat)
    requires Rows(adj, starts, cols, wts, sums, i) && k < i < |adj| && pos == RowStart(adj, i) <= |cols|
    requires |cols'| == |cols| == |wts'| == |wts|
    requires forall p :: 0 <= p < pos ==> cols'[p] == cols[p] && wts'[p] == wts[p]
    ensures RowDone(adj[k], cols', wts', starts[k], sums[k])
  {
    hide RowDone, RowStart;
    RowStartNext(adj, k);
    RowStartGrows(adj, k + 1, i);
    RowDoneFrame(adj[k], cols, wts, cols', wts', starts[k], sums[k], pos);
  }

  lemma RowsPointer(adj: seq<map<int, real>>, starts: seq<nat>, starts': seq<nat>, cols: seq<int>, wts: seq<real>,
                    sums: seq<real>, i: nat)
    requires Rows(adj, starts, cols, wts, sums, i) && |starts'| == |starts|
    requires forall k :: 0 <= k < i ==> starts'[k] == starts[k]
    ensures Rows(adj, starts', cols, wts, sums, i)
  {
    hide RowDone, RowStart;
  }

  lemma RowsAll(adj: seq<map<int, real>>, ptr: seq<nat>, cols: seq<int>, wts: seq<real>, sums: seq<real>)
    requires Rows(adj, ptr, cols, wts, sums, |adj|) && |ptr| == |adj| + 1 && |sums| == |adj|
    requires |cols| == |wts| == ptr[|adj|] == RowStart(adj, |adj|)
    ensures IsCsrOf(Csr(|adj|, ptr, cols, wts, sums), |adj|, adj)
  {
    RowStartFirst(adj);
    hide RowIs, RowTotal, RowStart;
    forall i | 0 <= i < |adj|
      ensures RowIs(adj[i], cols, wts, ptr[i], ptr[i + 1]) && sums[i] == RowTotal(wts, ptr[i], ptr[i + 1])
    {
      RowStartNext(adj, i);
      assert RowDone(adj[i], cols, wts, ptr[i], sums[i]);
      assert i + 1 < |adj| ==> ptr[i + 1] == RowStart(adj, i + 1);
    }
    assert |adj| > 0 ==> ptr[0] == RowStart(adj, 0);
  }

  // ---------- what Build promises about the edges ----------

  /** A well-formed sparse-row graph with positive weights. */
  ghost predicate CsrOk(g: Csr) {
    && |g.rowPtr| == g.n + 1 && |g.outSum| == g.n && |g.cols| == |g.wts|
    && (forall i :: 0 <= i < g.n ==> RowOk(g, i))
    && (forall p :: 0 <= p < |g.cols| ==> 0 <= g.cols[p] < g.n && g.wts[p] > 0.0)
  }

  ghost predicate RowOk(g: Csr, i: nat)
    requires i + 1 < |g.rowPtr| && i < |g.outSum|
  {
    g.rowPtr[i] <= g.rowPtr[i + 1] <= |g.cols| && g.outSum[i] == RowTotal(g.wts, g.rowPtr[i], g.rowPtr[i + 1])
  }

  /** The weight that positions lo..hi hold for column j. */
  ghost function PartWeight(g: Csr, j: int, lo: nat, hi: nat): real
    decreases hi
  {
    if lo >= hi || hi > |g.cols| || hi > |g.wts| then 0.0
    else PartWeight(g, j, lo, hi - 1) + (if g.cols[hi - 1] == j then g.wts[hi - 1] else 0.0)
  }

  ghost function EdgeWeight(g: Csr, i: nat, j: int): real {
    if i + 1 < |g.rowPtr| then PartWeight(g, j, g.rowPtr[i], g.rowPtr[i + 1]) else 0.0
  }

  lemma {:induction false} PartWeightOfRow(g: Csr, m: map<int, real>, j: int, lo: nat, hi: nat, end: nat)
    requires RowIs(m, g.cols, g.wts, lo, hi) && lo <= end <= hi
    ensures PartWeight(g, j, lo, end)
         == if exists p :: lo <= p < end && g.cols[p] == j then m[j] else 0.0
    decreases end
  {
    if lo < end {
      PartWeightOfRow(g, m, j, lo, hi, end - 1);
      if g.cols[end - 1] == j {
        assert forall p :: lo <= p < end - 1 ==> g.cols[p] < j;
      }
    }
  }

  /** Every row of the built graph holds its adjacency map. */
  lemma BuiltRow(g: Csr, n: nat, adj: seq<map<int, real>>, i: nat, j: int)
    requires IsCsrOf(g, n, adj) && i < n
    ensures EdgeWeight(g, i, j) == if j in adj[i] then adj[i][j] else 0.0
  {
    PartWeightOfRow(g, adj[i], j, g.rowPtr[i], g.rowPtr[i + 1], g.rowPtr[i + 1]);
  }

  /** The built graph holds the strongest weight added per pair: it is symmetric,
      has no loops, and does not depend on the order of the calls. */
  lemma BuiltEdges(g: Csr, n: nat, adj: seq<map<int, real>>, edges: seq<Edge>, i: nat, j: nat)
    requires Adjacency(n, adj, edges) && IsCsrOf(g, n, adj) && i < n && j < n
    ensures EdgeWeight(g, i, j) == MaxWeight(n, edges, i, j)
    ensures EdgeWeight(g, i, j) == EdgeWeight(g, j, i) && EdgeWeight(g, i, i) == 0.0
  {
    MaxWeightSymmetric(n, edges, i, j);
    MaxWeightSymmetric(n, edges, i, i);
    hide IsCsrOf, EdgeWeight, MaxWeight;
    forall a, b: int | 0 <= a < n ensures EdgeWeight(g, a, b) == MaxWeight(n, edges, a, b) {
      BuiltRow(g, n, adj, a, b);
      MaxWeightIsGreatest(n, edges, a, b);
    }
  }

  lemma {:induction false} RowOfPosition(g: Csr, n: nat, adj: seq<map<int, real>>, p: nat, k: nat) returns (i: nat)
    requires IsCsrOf(g, n, adj) && k <= n && p < g.rowPtr[k]
    ensures i < k && g.rowPtr[i] <= p < g.rowPtr[i + 1]
    decreases k
  {
    if p >= g.rowPtr[k - 1] {
      i := k - 1;
    } else {
      i := RowOfPosition(g, n, adj, p, k - 1);
    }
  }

  lemma BuiltIsOk(g: Csr, n: nat, adj: seq<map<int, real>>, edges: seq<Edge>)
    requires Adjacency(n, adj, edges) && IsCsrOf(g, n, adj)
    ensures CsrOk(g)
  {
    forall p | 0 <= p < |g.cols| ensures 0 <= g.cols[p] < g.n && g.wts[p] > 0.0 {
      var i := RowOfPosition(g, n, adj, p, n);
      MaxWeightSymmetric(n, edges, i, g.cols[p]);
    }
    hide RowTotal;
  }

  const ASCENDING: (int, int) -> bool := (a: int, b: int) => a < b

  lemma AscendingOrder()
    ensures StrictWeak(ASCENDING)
  {
  }

  /** The keys of a row in ascending order. */
  method SortedKeys(m: map<int, real>) returns (row: seq<int>)
    ensures |row| == |m| && (forall x :: x in row <==> x in m)
    ensures forall p, q :: 0 <= p < q < |row| ==> row[p] < row[q]
  {
    var keys: set<int> := m.Keys;
    var ks: seq<int> := [];
    while keys != {}
      invariant keys <= m.Keys && |ks| + |keys| == |m|
      invariant Distinct(ks) && forall x :: x in ks <==> x in m && x !in keys
      decreases |keys|
    {
      ghost var some := MemberOf(keys);
      var j: int :| j in keys;
      DistinctSnoc(ks, j);
      ks := ks + [j];
      keys := keys - {j};
    }
    AscendingOrder();
    row := SortBy(ASCENDING, ks);
    SameMembers(ks, row);
    RearrangedDistinct(ks, row);
  }

  /** Emitting one row at position pos. */
  method FillRow(m: map<int, real>, cols: array<int>, wts: array<real>, pos: nat) returns (s: real)
    requires pos + |m| <= cols.Length == wts.Length
    modifies cols, wts
    ensures RowDone(m, cols[..], wts[..], pos, s)
    ensures forall p :: 0 <= p < pos ==> cols[p] == old(cols[p]) && wts[p] == old(wts[p])
  {
    var row := SortedKeys(m);
    s := 0.0;
    hide RowIs;
    for k := 0 to |row|
      invariant s == RowTotal(wts[..], pos, pos + k)
      invariant forall p :: 0 <= p < pos ==> cols[p] == old(cols[p]) && wts[p] == old(wts[p])
      invariant forall p :: pos <= p < pos + k ==> cols[p] == row[p - pos] && wts[p] == m[row[p - pos]]
    {
      var w := m[row[k]];
      ghost var ws := wts[..];
      cols[pos + k] := row[k];
      wts[pos + k] := w;
      RowTotalSame(ws, wts[..], pos, pos + k);
      s := s + w;
    }
    RowForm(m, row, cols[..], wts[..], pos);
  }

  lemma RowForm(m: map<int, real>, row: seq<int>, cols: seq<int>, wts: seq<real>, pos: nat)
    requires |row| == |m| && (forall x :: x in row <==> x in m)
    requires forall p, q :: 0 <= p < q < |row| ==> row[p] < row[q]
    requires pos + |m| <= |cols| == |wts|
    requires forall p :: pos <= p < pos + |row| ==> cols[p] == row[p - pos] && wts[p] == m[row[p - pos]]
    ensures RowIs(m, cols, wts, pos, pos + |m|)
  {
    forall j | j in m ensures exists p :: pos <= p < pos + |m| && cols[p] == j {
      var k :| 0 <= k < |row| && row[k] == j;
      assert cols[pos + k] == j;
    }
  }
}
