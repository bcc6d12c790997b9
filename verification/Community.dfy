/** Label propagation of graph/community.go: labels stay within connected components, a
    run that settles is stable, and compaction is an exact partition. */
module Communities {
  import opened Orders
  import opened WeightedGraph

  // ---------- shuffle ----------

  function Swapped(s: seq<nat>, i: nat, j: nat): (r: seq<nat>)
    requires i < |s| && j < |s|
    ensures |r| == |s|
  {
    s[i := s[j]][j := s[i]]
  }

  /** Fisher-Yates from position i down, drawing from a stream of random numbers. */
  function Shuffled(s: seq<nat>, random: nat -> nat, from: nat, i: int): seq<nat>
    requires i < |s|
    decreases i
  {
    if i <= 0 then s else Shuffled(Swapped(s, i, random(from) % (i + 1)), random, from + 1, i - 1)
  }

  lemma SwappedKeeps(s: seq<nat>, i: nat, j: nat)
    requires i < |s| && j < |s|
    ensures multiset(Swapped(s, i, j)) == multiset(s)
  {
  }

  lemma {:induction false} ShuffledKeeps(s: seq<nat>, random: nat -> nat, from: nat, i: int)
    requires i < |s|
    ensures multiset(Shuffled(s, random, from, i)) == multiset(s)
    decreases i
  {
    if i > 0 {
      SwappedKeeps(s, i, random(from) % (i + 1));
      ShuffledKeeps(Swapped(s, i, random(from) % (i + 1)), random, from + 1, i - 1);
    }
  }

  // ----- every order, from exactly one choice of draws -----

  ghost predicate Distinct(s: seq<nat>) { forall i, j :: 0 <= i < j < |s| ==> s[i] != s[j] }

  /** Two positions are exchanged, and no other entry moves. */
  lemma SwappedAt(s: seq<nat>, i: nat, j: nat)
    requires i < |s| && j < |s|
    ensures Swapped(s, i, j)[i] == s[j] && Swapped(s, i, j)[j] == s[i]
    ensures forall k :: 0 <= k < |s| && k != i && k != j ==> Swapped(s, i, j)[k] == s[k]
    ensures Distinct(s) ==> Distinct(Swapped(s, i, j))
  {
  }

  lemma {:induction false} ShuffledTail(s: seq<nat>, random: nat -> nat, from: nat, i: int)
    requires i < |s|
    ensures var r := Shuffled(s, random, from, i); |r| == |s| && forall k :: 0 <= k < |s| && k > i ==> r[k] == s[k]
    decreases i
  {
    if i > 0 {
      var j := random(from) % (i + 1);
      SwappedAt(s, i, j);
      ShuffledTail(Swapped(s, i, j), random, from + 1, i - 1);
      hide Swapped;
    }
  }

  /** The k-th draw of a shuffle that starts at position i. */
  function DrawAt(random: nat -> nat, from: nat, i: int, k: nat): nat
    requires k <= i
  {
    random(from + k) % (i - k + 1)
  }

  lemma DrawLater(random: nat -> nat, from: nat, i: int)
    ensures forall k :: 0 < k <= i ==> DrawAt(random, from, i, k) == DrawAt(random, from + 1, i - 1, k - 1)
  {
  }

  lemma FirstDraw(s: seq<nat>, random: nat -> nat, from: nat, i: int)
    requires 0 < i < |s|
    ensures Shuffled(s, random, from, i) == Shuffled(Swapped(s, i, DrawAt(random, from, i, 0)), random, from + 1, i - 1)
    ensures DrawAt(random, from, i, 0) <= i
    ensures |Shuffled(s, random, from, i)| == |s| && Shuffled(s, random, from, i)[i] == s[DrawAt(random, from, i, 0)]
  {
    var j := random(from) % (i + 1);
    SwappedAt(s, i, j);
    ShuffledTail(s, random, from, i);
    ShuffledTail(Swapped(s, i, j), random, from + 1, i - 1);
    hide Swapped;
  }

  /** The order says which draws were made. */
  lemma {:induction false} DrawsAreDetermined(s: seq<nat>, random: nat -> nat, other: nat -> nat, from: nat, i: int)
    requires i < |s| && Distinct(s) && Shuffled(s, random, from, i) == Shuffled(s, other, from, i)
    ensures forall k :: 0 <= k < i ==> DrawAt(random, from, i, k) == DrawAt(other, from, i, k)
    decreases i
  {
    hide Swapped, Shuffled, DrawAt;
    if i > 0 {
      var a, b := DrawAt(random, from, i, 0), DrawAt(other, from, i, 0);
      FirstDraw(s, random, from, i);
      FirstDraw(s, other, from, i);
      assert s[a] == s[b];
      SwappedAt(s, i, a);
      DrawsAreDetermined(Swapped(s, i, a), random, other, from + 1, i - 1);
      DrawLater(random, from, i);
      DrawLater(other, from, i);
    }
  }

  /** Only the draws from here on matter. */
  lemma {:induction false} SameDraws(s: seq<nat>, random: nat -> nat, other: nat -> nat, from: nat, i: int)
    requires i < |s| && forall k :: k >= from ==> random(k) == other(k)
    ensures Shuffled(s, random, from, i) == Shuffled(s, other, from, i)
    decreases i
  {
    if i > 0 {
      SameDraws(Swapped(s, i, random(from) % (i + 1)), random, other, from + 1, i - 1);
      hide Swapped;
    }
  }

  /** Every order of the same entries comes from some draws. */
  lemma {:induction false} EveryOrderIsDrawn(s: seq<nat>, order: seq<nat>, from: nat, i: int) returns (random: nat -> nat)
    requires i < |s| == |order| && Distinct(s) && multiset(order) == multiset(s)
    requires forall k :: 0 <= k < |s| && k > i ==> order[k] == s[k]
    ensures Shuffled(s, random, from, i) == order
    decreases i
  {
    hide *;
    if i <= 0 {
      random := n => 0;
      SameAtZero(s, order);
      NothingDrawn(s, random, from, i);
    } else {
      var j := WhereIs(s, order, i);
      SwappedAt(s, i, j);
      SwappedKeeps(s, i, j);
      var t := Swapped(s, i, j);
      TailAgrees(s, t, order, i, j);
      var rest := EveryOrderIsDrawn(t, order, from + 1, i - 1);
      random := n => if n == from then j else rest(n);
      SameDraws(t, random, rest, from + 1, i - 1);
      DrawIs(random, from, i, j);
      FirstDraw(s, random, from, i);
    }
  }

  lemma NothingDrawn(s: seq<nat>, random: nat -> nat, from: nat, i: int)
    requires i < |s| && i <= 0
    ensures Shuffled(s, random, from, i) == s
  {
  }

  lemma TailAgrees(s: seq<nat>, t: seq<nat>, order: seq<nat>, i: nat, j: nat)
    requires j <= i < |s| == |t| == |order| && t[i] == s[j] == order[i]
    requires forall k :: 0 <= k < |s| && k != i && k != j ==> t[k] == s[k]
    requires forall k :: 0 <= k < |s| && k > i ==> order[k] == s[k]
    ensures forall k :: 0 <= k < |t| && k > i - 1 ==> order[k] == t[k]
  {
  }

  lemma DrawIs(random: nat -> nat, from: nat, i: nat, j: nat)
    requires random(from) == j <= i
    ensures DrawAt(random, from, i, 0) == j
  {
  }

  lemma SameAtZero(s: seq<nat>, order: seq<nat>)
    requires |order| == |s| && multiset(order) == multiset(s) && forall k :: 0 < k < |s| ==> order[k] == s[k]
    ensures order == s
  {
    if |s| > 0 {
      assert s == [s[0]] + s[1..] && order == [order[0]] + order[1..];
      assert s[1..] == order[1..];
      assert multiset([s[0]]) == multiset(s) - multiset(s[1..]) == multiset([order[0]]);
      assert s[0] in multiset([order[0]]);
    }
  }

  lemma WhereIs(s: seq<nat>, order: seq<nat>, i: nat) returns (j: nat)
    requires i < |s| == |order| && Distinct(s) && multiset(order) == multiset(s)
    requires forall k :: 0 <= k < |s| && k > i ==> order[k] == s[k]
    ensures j <= i && s[j] == order[i]
  {
    assert order[i] in multiset(order);
    assert order[i] in multiset(s);
    j :| 0 <= j < |s| && s[j] == order[i];
    if j > i {
      assert order[j] == order[i];
      TwiceInOrder(s, order, i, j);
    }
  }

  lemma TwiceInOrder(s: seq<nat>, order: seq<nat>, i: nat, j: nat)
    requires i < j < |s| == |order| && Distinct(s) && multiset(order) == multiset(s)
    ensures order[i] != order[j]
  {
    if order[i] == order[j] {
      var x := order[i];
      assert order == order[..j] + [order[j]] + order[j + 1..];
      assert x in order[..j];
      assert multiset(order)[x] >= 2;
      OnceIn(s, x);
    }
  }

  lemma {:induction false} OnceIn(s: seq<nat>, x: nat)
    requires Distinct(s)
    ensures multiset(s)[x] <= 1
    decreases |s|
  {
    if |s| > 0 {
      var n := |s| - 1;
      OnceIn(s[..n], x);
      assert s == s[..n] + [s[n]];
      if x == s[n] {
        assert x !in s[..n];
        assert x !in multiset(s[..n]);
      }
    }
  }

  /** The shuffle in place; returns how many random numbers were used in all. */
  method Shuffle(order: array<nat>, random: nat -> nat, from: nat) returns (used: nat)
    modifies order
    ensures order[..] == Shuffled(old(order[..]), random, from, order.Length - 1)
    ensures used == from + if order.Length == 0 then 0 else order.Length - 1
  {
    used := from;
    var i := order.Length - 1;
    while i > 0
      invariant -1 <= i < order.Length && (order.Length > 0 ==> i >= 0) && used == from + (if order.Length == 0 then 0 else order.Length - 1 - i)
      invariant Shuffled(order[..], random, used, i) == Shuffled(old(order[..]), random, from, order.Length - 1)
    {
      var j := random(used) % (i + 1);
      ShuffledNext(order[..], random, used, i);
      SwapInPlace(order, i, j);
      hide Swapped, Shuffled;
      used := used + 1;
      i := i - 1;
    }
  }

  lemma ShuffledNext(s: seq<nat>, random: nat -> nat, from: nat, i: int)
    requires 0 < i < |s|
    ensures Shuffled(s, random, from, i) == Shuffled(Swapped(s, i, random(from) % (i + 1)), random, from + 1, i - 1)
  {
  }

  method SwapInPlace(a: array<nat>, i: nat, j: nat)
    requires i < a.Length && j < a.Length
    modifies a
    ensures a[..] == Swapped(old(a[..]), i, j)
  {
    a[i], a[j] := a[j], a[i];
  }

  // ---------- the label a node adopts ----------

  /** The weight that the entries lo..hi of a row give to a label. */
  ghost function LabelWeight(g: Csr, labels: seq<nat>, lab: nat, lo: nat, hi: nat): real
    requires CsrOk(g) && |labels| == g.n && hi <= |g.cols|
    decreases hi
  {
    if lo >= hi then 0.0
    else LabelWeight(g, labels, lab, lo, hi - 1) + if labels[g.cols[hi - 1]] == lab then g.wts[hi - 1] else 0.0
  }

  /** Some entry of lo..hi carries the label. */
  ghost predicate Carried(g: Csr, labels: seq<nat>, lab: nat, lo: nat, hi: nat)
    requires CsrOk(g) && |labels| == g.n && hi <= |g.cols|
  {
    exists p :: lo <= p < hi && labels[g.cols[p]] == lab
  }

  /** The weights of all labels in the first part of a row. */
  ghost predicate Tally(g: Csr, labels: seq<nat>, lo: nat, hi: nat, weights: map<nat, real>)
    requires CsrOk(g) && |labels| == g.n && hi <= |g.cols|
  {
    && (forall lab :: lab in weights <==> Carried(g, labels, lab, lo, hi))
    && (forall lab :: lab in weights ==> weights[lab] == LabelWeight(g, labels, lab, lo, hi))
  }

  lemma {:induction false} UncarriedWeighsNothing(g: Csr, labels: seq<nat>, lab: nat, lo: nat, hi: nat)
    requires CsrOk(g) && |labels| == g.n && hi <= |g.cols| && !Carried(g, labels, lab, lo, hi)
    ensures LabelWeight(g, labels, lab, lo, hi) == 0.0
    decreases hi
  {
    if lo < hi {
      assert labels[g.cols[hi - 1]] != lab;
      assert !Carried(g, labels, lab, lo, hi - 1);
      UncarriedWeighsNothing(g, labels, lab, lo, hi - 1);
    }
  }

  lemma TallyNext(g: Csr, labels: seq<nat>, lo: nat, p: nat, weights: map<nat, real>)
    requires CsrOk(g) && |labels| == g.n && lo <= p < |g.cols| && Tally(g, labels, lo, p, weights)
    ensures var lab := labels[g.cols[p]];
            Tally(g, labels, lo, p + 1, weights[lab := (if lab in weights then weights[lab] else 0.0) + g.wts[p]])
  {
    var lab := labels[g.cols[p]];
    if lab !in weights {
      UncarriedWeighsNothing(g, labels, lab, lo, p);
    }
    CarriedNext(g, labels, lo, p);
    hide Carried, CsrOk;
  }

  lemma CarriedNext(g: Csr, labels: seq<nat>, lo: nat, p: nat)
    requires CsrOk(g) && |labels| == g.n && lo <= p < |g.cols|
    ensures forall l :: Carried(g, labels, l, lo, p + 1) <==> Carried(g, labels, l, lo, p) || l == labels[g.cols[p]]
  {
    forall l ensures Carried(g, labels, l, lo, p + 1) <==> Carried(g, labels, l, lo, p) || l == labels[g.cols[p]] {
      if Carried(g, labels, l, lo, p) {
        var q :| lo <= q < p && labels[g.cols[q]] == l;
        assert lo <= q < p + 1;
      }
    }
  }

  /** The heaviest label of a tally, the smallest one among equals. */
  ghost predicate Heaviest(weights: map<nat, real>, best: nat) {
    best in weights &&
    forall lab :: lab in weights ==> weights[lab] < weights[best] || (weights[lab] == weights[best] && best <= lab)
  }

  /** There is only one, so the map's order does not matter. */
  lemma HeaviestIsUnique(weights: map<nat, real>, a: nat, b: nat)
    requires Heaviest(weights, a) && Heaviest(weights, b)
    ensures a == b
  {
  }

  method PickHeaviest(weights: map<nat, real>, own: nat) returns (best: nat)
    requires weights != map[] && forall lab :: lab in weights ==> weights[lab] > 0.0
    ensures Heaviest(weights, best)
  {
    best := own;
    var bestW := -1.0;
    var left := weights.Keys;
    var lab0 :| lab0 in weights;
    while left != {}
      invariant left <= weights.Keys
      invariant bestW == -1.0 ==> left == weights.Keys
      invariant bestW != -1.0 ==> best in weights && bestW == weights[best]
      invariant bestW != -1.0 ==> forall l :: l in weights && l !in left ==>
                  weights[l] < bestW || (weights[l] == bestW && best <= l)
      decreases |left|
    {
      ghost var some := MemberOf(left);
      var lab: nat :| lab in left;
      var w := weights[lab];
      if w > bestW || (w == bestW && lab < best) {
        best := lab;
        bestW := w;
      }
      left := left - {lab};
    }
    assert lab0 !in left;
  }

  /** The label node would adopt: the heaviest among its neighbours. */
  ghost predicate Adopts(g: Csr, labels: seq<nat>, node: nat, best: nat)
    requires CsrOk(g) && |labels| == g.n && node < g.n
  {
    RowOk(g, node) &&
    exists weights :: Tally(g, labels, g.rowPtr[node], g.rowPtr[node + 1], weights) && Heaviest(weights, best)
  }

  /** The weights of a row decide, so the label is determined. */
  lemma AdoptedIsUnique(g: Csr, labels: seq<nat>, node: nat, a: nat, b: nat)
    requires CsrOk(g) && |labels| == g.n && node < g.n && Adopts(g, labels, node, a) && Adopts(g, labels, node, b)
    ensures a == b
  {
    var lo, hi := g.rowPtr[node], g.rowPtr[node + 1];
    var v :| Tally(g, labels, lo, hi, v) && Heaviest(v, a);
    var w :| Tally(g, labels, lo, hi, w) && Heaviest(w, b);
    TallyIsUnique(g, labels, lo, hi, v, w);
    hide Tally;
    HeaviestIsUnique(v, a, b);
  }

  lemma TallyIsUnique(g: Csr, labels: seq<nat>, lo: nat, hi: nat, v: map<nat, real>, w: map<nat, real>)
    requires CsrOk(g) && |labels| == g.n && hi <= |g.cols| && Tally(g, labels, lo, hi, v) && Tally(g, labels, lo, hi, w)
    ensures v == w
  {
    hide Carried, LabelWeight, CsrOk;
    assert forall lab :: lab in v <==> lab in w;
  }

  lemma {:induction false} CarriedWeighs(g: Csr, labels: seq<nat>, lab: nat, lo: nat, hi: nat)
    requires CsrOk(g) && |labels| == g.n && hi <= |g.cols|
    ensures LabelWeight(g, labels, lab, lo, hi) >= 0.0
    ensures Carried(g, labels, lab, lo, hi) ==> LabelWeight(g, labels, lab, lo, hi) > 0.0
    decreases hi
  {
    if lo < hi {
      CarriedWeighs(g, labels, lab, lo, hi - 1);
      CarriedNext(g, labels, lo, hi - 1);
      hide Carried;
    }
  }

  /** Visiting one node that has neighbours. */
  method BestLabel(g: Csr, labels: array<nat>, node: nat) returns (best: nat)
    requires CsrOk(g) && labels.Length == g.n && node < g.n && g.rowPtr[node] < g.rowPtr[node + 1]
    ensures Adopts(g, labels[..], node, best)
  {
    assert RowOk(g, node);
    ghost var ls := labels[..];
    var lo, hi := g.rowPtr[node], g.rowPtr[node + 1];
    var weights: map<nat, real> := map[];
    for p := lo to hi
      invariant Tally(g, ls, lo, p, weights)
    {
      TallyNext(g, ls, lo, p, weights);
      hide Tally;
      var lab := labels[g.cols[p]];
      weights := weights[lab := (if lab in weights then weights[lab] else 0.0) + g.wts[p]];
    }
    forall lab | lab in weights ensures weights[lab] > 0.0 {
      CarriedWeighs(g, ls, lab, lo, hi);
    }
    assert Carried(g, ls, ls[g.cols[lo]], lo, hi);
    assert ls[g.cols[lo]] in weights;
    best := PickHeaviest(weights, labels[node]);
  }

  // ---------- components ----------

  /** No edge leaves the set. */
  ghost predicate Separate(g: Csr, s: set<nat>) {
    CsrOk(g) && forall i, p :: 0 <= i < g.n && RowOk(g, i) && g.rowPtr[i] <= p < g.rowPtr[i + 1] ==> (i in s <==> EndOf(g, p) in s)
  }

  function EndOf(g: Csr, p: nat): nat {
    if p < |g.cols| && g.cols[p] >= 0 then g.cols[p] else 0
  }

  ghost predicate SameSide(g: Csr, labels: seq<nat>, s: set<nat>) {
    |labels| == g.n && forall i :: 0 <= i < g.n ==> (i in s <==> labels[i] in s)
  }

  /** Every label is a node of its own component: on the same side of every set that no
      edge leaves. */
  ghost predicate Within(g: Csr, labels: seq<nat>) {
    |labels| == g.n && forall s :: Separate(g, s) ==> SameSide(g, labels, s)
  }

  /** Isolated nodes keep their own label. */
  ghost predicate LonersStay(g: Csr, labels: seq<nat>) {
    CsrOk(g) && |labels| == g.n &&
    forall i :: 0 <= i < g.n && RowOk(g, i) && g.rowPtr[i] == g.rowPtr[i + 1] ==> labels[i] == i
  }

  lemma AdoptedStaysWithin(g: Csr, labels: seq<nat>, node: nat, best: nat)
    requires CsrOk(g) && Within(g, labels) && node < g.n && Adopts(g, labels, node, best)
    ensures Within(g, labels[node := best])
  {
    var lo, hi := g.rowPtr[node], g.rowPtr[node + 1];
    var weights :| Tally(g, labels, lo, hi, weights) && Heaviest(weights, best);
    assert Carried(g, labels, best, lo, hi);
    var p :| lo <= p < hi && labels[g.cols[p]] == best;
    forall s | Separate(g, s) ensures SameSide(g, labels[node := best], s) {
      assert SameSide(g, labels, s);
      assert RowOk(g, node);
      assert node in s <==> EndOf(g, p) in s;
      assert EndOf(g, p) in s <==> labels[EndOf(g, p)] in s;
    }
  }

  // ---------- the sweeps ----------

  /** Every node with neighbours carries the label it would adopt. */
  ghost predicate Stable(g: Csr, labels: seq<nat>) {
    CsrOk(g) && |labels| == g.n &&
    forall i :: 0 <= i < g.n && RowOk(g, i) && g.rowPtr[i] < g.rowPtr[i + 1] ==> Adopts(g, labels, i, labels[i])
  }

  /** order lists every node. */
  ghost predicate Covers(order: seq<nat>, n: nat) { forall i: nat :: i in order <==> i < n }

  lemma ShuffledCovers(a: seq<nat>, b: seq<nat>, n: nat)
    requires multiset(a) == multiset(b) && Covers(a, n)
    ensures Covers(b, n)
  {
    forall i: nat ensures i in b <==> i < n {
      assert i in a <==> i in multiset(a);
      assert i in b <==> i in multiset(b);
    }
  }

  /** Visiting a node: without neighbours nothing happens, else it adopts a label. */
  ghost predicate Visited(g: Csr, before: seq<nat>, node: nat, after: seq<nat>) {
    && CsrOk(g) && |before| == |after| == g.n && node < g.n && RowOk(g, node)
    && if g.rowPtr[node] == g.rowPtr[node + 1] then after == before
       else Adopts(g, before, node, after[node]) && after == before[node := after[node]]
  }

  function Front(order: seq<nat>): seq<nat>
    requires |order| > 0
  {
    order[..|order| - 1]
  }

  function Last(order: seq<nat>): nat
    requires |order| > 0
  {
    order[|order| - 1]
  }

  /** Visiting nodes in order, each seeing the labels adopted before it. */
  ghost predicate Swept(g: Csr, order: seq<nat>, before: seq<nat>, after: seq<nat>)
    decreases |order|
  {
    if |order| == 0 then after == before
    else exists mid :: Swept(g, Front(order), before, mid) && Visited(g, mid, Last(order), after)
  }

  lemma SweptNext(g: Csr, order: seq<nat>, k: nat, before: seq<nat>, mid: seq<nat>, after: seq<nat>)
    requires k < |order| && Swept(g, order[..k], before, mid) && Visited(g, mid, order[k], after)
    ensures Swept(g, order[..k + 1], before, after)
  {
    assert Front(order[..k + 1]) == order[..k] && Last(order[..k + 1]) == order[k];
  }

  lemma VisitedIsUnique(g: Csr, before: seq<nat>, node: nat, a: seq<nat>, b: seq<nat>)
    requires Visited(g, before, node, a) && Visited(g, before, node, b)
    ensures a == b
  {
    if g.rowPtr[node] != g.rowPtr[node + 1] {
      AdoptedIsUnique(g, before, node, a[node], b[node]);
    }
  }

  /** A sweep is determined by the graph, the order and the labels before it. */
  lemma {:induction false} SweptIsUnique(g: Csr, order: seq<nat>, before: seq<nat>, a: seq<nat>, b: seq<nat>)
    requires Swept(g, order, before, a) && Swept(g, order, before, b)
    ensures a == b
    decreases |order|
  {
    hide Visited;
    if |order| > 0 {
      var v :| Swept(g, Front(order), before, v) && Visited(g, v, Last(order), a);
      var w :| Swept(g, Front(order), before, w) && Visited(g, w, Last(order), b);
      SweptIsUnique(g, Front(order), before, v, w);
      VisitedIsUnique(g, v, Last(order), a, b);
    }
  }

  /** One sweep; changed tells exactly whether some label did. */
  method Sweep(g: Csr, order: seq<nat>, labels: array<nat>) returns (changed: bool)
    requires CsrOk(g) && labels.Length == g.n && Covers(order, g.n) && Distinct(order)
    requires Within(g, labels[..]) && LonersStay(g, labels[..])
    modifies labels
    ensures Swept(g, order, old(labels[..]), labels[..])
    ensures Within(g, labels[..]) && LonersStay(g, labels[..])
    ensures changed <==> labels[..] != old(labels[..])
    ensures !changed ==> Stable(g, labels[..])
  {
    changed := false;
    ghost var start := labels[..];
    assert order[..0] == [] && order[..|order|] == order;
    SweptNone(g, start);
    ProgressStarts(g, order, start);
    hide *;
    for k := 0 to |order|
      invariant Within(g, labels[..]) && LonersStay(g, labels[..]) && Swept(g, order[..k], start, labels[..])
      invariant Progress(g, order, k, start, labels[..], changed)
    {
      ghost var was := labels[..];
      CoveredNode(g, order, k);
      var moves := Visit(g, labels, order[k]);
      SweptNext(g, order, k, start, was, labels[..]);
      ProgressNext(g, order, k, start, was, labels[..], changed);
      changed := changed || moves;
    }
    ProgressDone(g, order, start, labels[..], changed);
  }

  lemma CoveredNode(g: Csr, order: seq<nat>, k: nat)
    requires Covers(order, g.n) && k < |order|
    ensures order[k] < g.n
  {
    assert order[k] in order;
  }

  /** After k visits: what changed, and that nodes not visited yet keep their labels. */
  ghost predicate Progress(g: Csr, order: seq<nat>, k: nat, start: seq<nat>, now: seq<nat>, changed: bool) {
    && k <= |order| && |start| == |now| == g.n && (forall j :: 0 <= j < |order| ==> order[j] < g.n)
    && (!changed ==> now == start)
    && (changed ==> exists j :: 0 <= j < k && now[order[j]] != start[order[j]])
    && (forall j :: k <= j < |order| ==> now[order[j]] == start[order[j]])
    && (!changed ==> forall j :: 0 <= j < k ==> Settled(g, start, order[j]))
  }

  lemma ProgressStarts(g: Csr, order: seq<nat>, start: seq<nat>)
    requires Covers(order, g.n) && |start| == g.n
    ensures Progress(g, order, 0, start, start, false)
  {
    forall j | 0 <= j < |order| ensures order[j] < g.n {
      assert order[j] in order;
    }
  }

  lemma ProgressNext(g: Csr, order: seq<nat>, k: nat, start: seq<nat>, was: seq<nat>, now: seq<nat>, changed: bool)
    requires Distinct(order) && k < |order| && Progress(g, order, k, start, was, changed) && Visited(g, was, order[k], now)
    ensures Progress(g, order, k + 1, start, now, changed || now[order[k]] != was[order[k]])
  {
    hide Adopts;
    var node := order[k];
    assert forall j :: 0 <= j < |order| && j != k ==> order[j] != node;
    assert forall j :: 0 <= j < |order| && j != k ==> now[order[j]] == was[order[j]];
    if now[node] == was[node] {
      assert now == was;
    }
    if now[node] == was[node] && !changed {
      assert Settled(g, start, node);
    }
  }

  lemma ProgressDone(g: Csr, order: seq<nat>, start: seq<nat>, now: seq<nat>, changed: bool)
    requires CsrOk(g) && Covers(order, g.n) && Progress(g, order, |order|, start, now, changed)
    ensures changed <==> now != start
    ensures !changed ==> Stable(g, now)
  {
    if !changed {
      AllSettled(g, start, order);
    }
    hide Settled, Stable;
  }

  /** The body of the sweep; tells whether the node's label changed. */
  method Visit(g: Csr, labels: array<nat>, node: nat) returns (moves: bool)
    requires CsrOk(g) && labels.Length == g.n && node < g.n && Within(g, labels[..]) && LonersStay(g, labels[..])
    modifies labels
    ensures Visited(g, old(labels[..]), node, labels[..])
    ensures moves <==> labels[node] != old(labels[node])
    ensures Within(g, labels[..]) && LonersStay(g, labels[..])
  {
    assert RowOk(g, node);
    hide Within, LonersStay, Adopts, Visited;
    moves := false;
    ghost var was := labels[..];
    if g.rowPtr[node + 1] - g.rowPtr[node] == 0 {
      VisitedLoner(g, was, node);
      return;
    }
    var best := BestLabel(g, labels, node);
    AdoptedStaysWithin(g, was, node, best);
    LonersKeep(g, was, node, best);
    VisitedAdopts(g, was, node, best);
    if best != labels[node] {
      labels[node] := best;
      moves := true;
    }
    assert labels[..] == was[node := best];
  }

  lemma SweptNone(g: Csr, labels: seq<nat>)
    ensures Swept(g, [], labels, labels)
  {
  }

  lemma VisitedLoner(g: Csr, labels: seq<nat>, node: nat)
    requires CsrOk(g) && |labels| == g.n && node < g.n && RowOk(g, node) && g.rowPtr[node] == g.rowPtr[node + 1]
    ensures Visited(g, labels, node, labels)
  {
  }

  lemma VisitedAdopts(g: Csr, labels: seq<nat>, node: nat, best: nat)
    requires CsrOk(g) && |labels| == g.n && node < g.n && RowOk(g, node) && g.rowPtr[node] < g.rowPtr[node + 1]
    requires Adopts(g, labels, node, best)
    ensures Visited(g, labels, node, labels[node := best])
  {
  }

  ghost predicate Settled(g: Csr, labels: seq<nat>, node: nat) {
    CsrOk(g) && |labels| == g.n && node < g.n &&
    (RowOk(g, node) && g.rowPtr[node] < g.rowPtr[node + 1] ==> Adopts(g, labels, node, labels[node]))
  }

  lemma AllSettled(g: Csr, labels: seq<nat>, order: seq<nat>)
    requires CsrOk(g) && |labels| == g.n && Covers(order, g.n)
    requires forall j :: 0 <= j < |order| ==> Settled(g, labels, order[j])
    ensures Stable(g, labels)
  {
    hide Adopts;
    forall i: nat | i < g.n && RowOk(g, i) && g.rowPtr[i] < g.rowPtr[i + 1] ensures Adopts(g, labels, i, labels[i]) {
      assert i in order;
      assert Settled(g, labels, i);
    }
  }

  lemma LonersKeep(g: Csr, labels: seq<nat>, node: nat, best: nat)
    requires LonersStay(g, labels) && node < g.n && RowOk(g, node) && g.rowPtr[node] < g.rowPtr[node + 1]
    ensures LonersStay(g, labels[node := best])
  {
  }

  // ---------- compact ----------

  ghost predicate Ascending(s: seq<nat>) { forall i, j :: 0 <= i < j < |s| ==> s[i] < s[j] }

  /** Exactly the nodes of community c. */
  ghost predicate Lists(list: seq<nat>, out: seq<nat>, c: nat) {
    forall i: nat :: i in list <==> i < |out| && out[i] == c
  }

  /** Communities are numbered by their smallest member. */
  ghost predicate HeadsAscend(members: seq<seq<nat>>) {
    forall c, d :: 0 <= c < d < |members| && |members[c]| > 0 && |members[d]| > 0 ==> members[c][0] < members[d][0]
  }

  /** The first n nodes, numbered by first appearance of their label. */
  ghost predicate Numbered(labels: seq<nat>, n: nat, out: seq<nat>, members: seq<seq<nat>>, remap: map<nat, nat>) {
    && n <= |labels| && |out| == n
    && (forall i :: 0 <= i < n ==> labels[i] in remap && out[i] == remap[labels[i]])
    && (forall l :: l in remap ==> remap[l] < |members|)
    && (forall l, m :: l in remap && m in remap && remap[l] == remap[m] ==> l == m)
    && (forall c :: 0 <= c < |members| ==> |members[c]| > 0 && Ascending(members[c]))
    && (forall c :: 0 <= c < |members| ==> Lists(members[c], out, c))
    && HeadsAscend(members)
  }

  /** Nodes share a community exactly when they share a label; every community lists its
      members, ascending, and none is empty; smallest members ascend. */
  ghost predicate IsPartition(labels: seq<nat>, out: seq<nat>, members: seq<seq<nat>>) {
    && |out| == |labels|
    && (forall i :: 0 <= i < |out| ==> out[i] < |members|)
    && (forall i, j :: 0 <= i < |out| && 0 <= j < |out| ==> (out[i] == out[j] <==> labels[i] == labels[j]))
    && (forall c :: 0 <= c < |members| ==> |members[c]| > 0 && Ascending(members[c]))
    && (forall c :: 0 <= c < |members| ==> Lists(members[c], out, c))
    && HeadsAscend(members)
  }

  lemma NewLabel(labels: seq<nat>, n: nat, out: seq<nat>, members: seq<seq<nat>>, remap: map<nat, nat>)
    requires Numbered(labels, n, out, members, remap) && n < |labels| && labels[n] !in remap
    ensures Numbered(labels, n + 1, out + [|members|], members + [[n]], remap[labels[n] := |members|])
  {
    var ms, os := members + [[n]], out + [|members|];
    assert forall k :: 0 <= k < n ==> out[k] < |members|;
    forall c | 0 <= c < |members| ensures members[c][0] < n {
      assert Lists(members[c], out, c) && members[c][0] in members[c];
    }
    forall c | 0 <= c < |ms| ensures Lists(ms[c], os, c) {
      if c < |members| {
        assert Lists(members[c], out, c);
        ListsOther(members[c], out, c, |members|);
      } else {
        ListsFresh(out, |members|);
      }
    }
  }

  lemma ListsOther(list: seq<nat>, out: seq<nat>, c: nat, d: nat)
    requires Lists(list, out, c) && d != c
    ensures Lists(list, out + [d], c)
  {
    forall i: nat ensures i in list <==> i < |out + [d]| && (out + [d])[i] == c {
      assert i in list <==> i < |out| && out[i] == c;
    }
  }

  lemma ListsMore(list: seq<nat>, out: seq<nat>, c: nat)
    requires Lists(list, out, c)
    ensures Lists(list + [|out|], out + [c], c)
  {
    forall i: nat ensures i in list + [|out|] <==> i < |out + [c]| && (out + [c])[i] == c {
      assert i in list <==> i < |out| && out[i] == c;
    }
  }

  lemma ListsFresh(out: seq<nat>, c: nat)
    requires forall k :: 0 <= k < |out| ==> out[k] < c
    ensures Lists([|out|], out + [c], c)
  {
  }

  lemma OldLabel(labels: seq<nat>, n: nat, out: seq<nat>, members: seq<seq<nat>>, remap: map<nat, nat>)
    requires Numbered(labels, n, out, members, remap) && n < |labels| && labels[n] in remap
    ensures remap[labels[n]] < |members|
    ensures Numbered(labels, n + 1, out + [remap[labels[n]]],
                     members[remap[labels[n]] := members[remap[labels[n]]] + [n]], remap)
  {
    var c0 := remap[labels[n]];
    var ms, os := members[c0 := members[c0] + [n]], out + [c0];
    assert Lists(members[c0], out, c0);
    forall k | 0 <= k < |members[c0]| ensures members[c0][k] < n {
      var i := members[c0][k];
      assert i in members[c0];
    }
    assert Ascending(ms[c0]);
    ListsMore(members[c0], out, c0);
    forall c | 0 <= c < |ms| ensures Lists(ms[c], os, c) {
      if c != c0 {
        assert Lists(members[c], out, c);
        ListsOther(members[c], out, c, c0);
      }
    }
  }

  method Compact(labels: seq<nat>) returns (out: seq<nat>, members: seq<seq<nat>>)
    ensures IsPartition(labels, out, members)
  {
    var remap: map<nat, nat> := map[];
    out, members := [], [];
    for node := 0 to |labels|
      invariant Numbered(labels, node, out, members, remap)
    {
      var lab := labels[node];
      if lab !in remap {
        NewLabel(labels, node, out, members, remap);
        hide Numbered;
        var c := |members|;
        remap := remap[lab := c];
        members := members + [[node]];
        out := out + [c];
      } else {
        OldLabel(labels, node, out, members, remap);
        hide Numbered;
        var c := remap[lab];
        members := members[c := members[c] + [node]];
        out := out + [c];
      }
    }
    NumberedIsPartition(labels, out, members, remap);
  }

  lemma NumberedIsPartition(labels: seq<nat>, out: seq<nat>, members: seq<seq<nat>>, remap: map<nat, nat>)
    requires Numbered(labels, |labels|, out, members, remap)
    ensures IsPartition(labels, out, members)
  {
  }

  // ---------- there is only one such partition ----------

  lemma {:induction false} AscendingIsUnique(a: seq<nat>, b: seq<nat>)
    requires Ascending(a) && Ascending(b) && forall x :: x in a <==> x in b
    ensures a == b
    decreases |a|
  {
    if |a| == 0 {
      FirstIsIn(b);
    } else {
      var m := |a| - 1;
      assert a[m] in b;
      var n := |b| - 1;
      LastIsLargest(a);
      LastIsLargest(b);
      assert b[n] in a;
      assert a[m] == b[n];
      AscendingIsUnique(a[..m], b[..n]);
      assert a == a[..m] + [a[m]] && b == b[..n] + [b[n]];
    }
  }

  lemma FirstIsIn(a: seq<nat>)
    ensures |a| > 0 ==> a[0] in a
  {
  }

  lemma LastIsLargest(a: seq<nat>)
    requires Ascending(a) && |a| > 0
    ensures var m := |a| - 1;
            && (forall x :: x in a ==> x <= a[m]) && (forall x :: x in a[..m] <==> x in a && x != a[m])
            && Ascending(a[..m])
  {
    var m := |a| - 1;
    assert forall i :: 0 <= i < m ==> a[i] < a[m] && a[..m][i] == a[i];
    assert a == a[..m] + [a[m]];
  }

  /** The first node of a community: every node before it is in a community before it, and
      every earlier community has such a node. */
  lemma FirstOfCommunity(labels: seq<nat>, out: seq<nat>, members: seq<seq<nat>>, i: nat)
    requires IsPartition(labels, out, members) && i < |labels| && forall j :: 0 <= j < i ==> labels[j] != labels[i]
    ensures forall j :: 0 <= j < i ==> out[j] < out[i]
    ensures forall c: nat :: c < out[i] ==> c in out[..i]
  {
    var ci := out[i];
    HeadOf(labels, out, members, i);
    assert out[members[ci][0]] == ci;
    assert members[ci][0] == i;
    forall j | 0 <= j < i ensures out[j] < ci {
      HeadOf(labels, out, members, j);
      assert out[j] != ci;
    }
    forall c: nat | c < ci ensures c in out[..i] {
      assert Lists(members[c], out, c) && members[c][0] in members[c];
      assert members[c][0] < members[ci][0];
      assert out[..i][members[c][0]] == c;
    }
  }

  /** The smallest member of a node's community. */
  lemma HeadOf(labels: seq<nat>, out: seq<nat>, members: seq<seq<nat>>, i: nat)
    requires IsPartition(labels, out, members) && i < |labels|
    ensures |members[out[i]]| > 0 && members[out[i]][0] <= i && out[members[out[i]][0]] == out[i]
  {
    var list := members[out[i]];
    assert Lists(list, out, out[i]) && i in list && list[0] in list && Ascending(list);
    var k :| 0 <= k < |list| && list[k] == i;
    assert k > 0 ==> list[0] < list[k];
  }

  /** The least number above all of used, when every smaller one is used. */
  lemma NewNumberIs(used: seq<nat>, a: nat, b: nat)
    requires (forall k :: 0 <= k < |used| ==> used[k] < a && used[k] < b)
    requires (forall c: nat :: c < a ==> c in used) && (forall c: nat :: c < b ==> c in used)
    ensures a == b
  {
    assert a < b ==> a in used;
    assert b < a ==> b in used;
  }

  lemma {:induction false} NumberingIsUnique(labels: seq<nat>, out1: seq<nat>, members1: seq<seq<nat>>,
                                             out2: seq<nat>, members2: seq<seq<nat>>, n: nat)
    requires IsPartition(labels, out1, members1) && IsPartition(labels, out2, members2) && n <= |labels|
    ensures out1[..n] == out2[..n]
  {
    if n > 0 {
      var i := n - 1;
      NumberingIsUnique(labels, out1, members1, out2, members2, i);
      assert forall j :: 0 <= j < i ==> out1[..i][j] == out1[j] && out2[..i][j] == out2[j];
      if forall j :: 0 <= j < i ==> labels[j] != labels[i] {
        FirstOfCommunity(labels, out1, members1, i);
        FirstOfCommunity(labels, out2, members2, i);
        NewNumberIs(out1[..i], out1[i], out2[i]);
      } else {
        var j :| 0 <= j < i && labels[j] == labels[i];
        assert out1[j] == out1[i] && out2[j] == out2[i];
      }
      assert out1[i] == out2[i];
    }
  }

  lemma PartitionIsUnique(labels: seq<nat>, out1: seq<nat>, members1: seq<seq<nat>>, out2: seq<nat>, members2: seq<seq<nat>>)
    requires IsPartition(labels, out1, members1) && IsPartition(labels, out2, members2)
    ensures out1 == out2 && members1 == members2
  {
    NumberingIsUnique(labels, out1, members1, out2, members2, |labels|);
    assert out1[..|labels|] == out1 && out2[..|labels|] == out2;
    SameCount(labels, out1, members1, members2);
    SameCount(labels, out1, members2, members1);
    forall c | 0 <= c < |members1| ensures members1[c] == members2[c] {
      assert Lists(members1[c], out1, c) && Lists(members2[c], out1, c);
      AscendingIsUnique(members1[c], members2[c]);
    }
  }

  lemma SameCount(labels: seq<nat>, out: seq<nat>, members1: seq<seq<nat>>, members2: seq<seq<nat>>)
    requires IsPartition(labels, out, members1) && IsPartition(labels, out, members2)
    ensures |members1| <= |members2|
  {
    if |members1| > 0 {
      var c := |members1| - 1;
      assert Lists(members1[c], out, c) && members1[c][0] in members1[c];
    }
  }

  // ---------- DetectCommunities ----------

  const DEFAULT_SWEEPS := 20

  /** Random numbers drawn by t shuffles of n nodes. */
  function Draws(n: nat, t: nat): nat {
    if t == 0 then 0 else Draws(n, t - 1) + if n == 0 then 0 else n - 1
  }

  /** The visiting order of sweep t; order 0 is the nodes as numbered. */
  function OrderAt(n: nat, random: nat -> nat, t: nat): (r: seq<nat>)
    ensures |r| == n
  {
    if t == 0 then seq(n, i => i)
    else
      var before := OrderAt(n, random, t - 1);
      ShuffledKeeps(before, random, Draws(n, t - 1), n - 1);
      SameMembers(before, Shuffled(before, random, Draws(n, t - 1), n - 1));
      Shuffled(before, random, Draws(n, t - 1), n - 1)
  }

  lemma {:induction false} OrderCovers(n: nat, random: nat -> nat, t: nat)
    ensures Covers(OrderAt(n, random, t), n) && Distinct(OrderAt(n, random, t))
  {
    if t == 0 {
      StartCovers(OrderAt(n, random, t), n);
    } else {
      OrderCovers(n, random, t - 1);
      var before := OrderAt(n, random, t - 1);
      ShuffledKeeps(before, random, Draws(n, t - 1), n - 1);
      ShuffledCovers(before, OrderAt(n, random, t), n);
      RearrangedDistinct(before, OrderAt(n, random, t));
    }
  }

  /** The labels after t sweeps. */
  ghost predicate LabelsAt(g: Csr, random: nat -> nat, t: nat, labels: seq<nat>) {
    if t == 0 then labels == seq(g.n, i => i)
    else exists before :: Swept(g, OrderAt(g.n, random, t), before, labels) && LabelsAt(g, random, t - 1, before)
  }

  /** Sweep t + 1 changes nothing. */
  ghost predicate Still(g: Csr, random: nat -> nat, t: nat, labels: seq<nat>) {
    Swept(g, OrderAt(g.n, random, t + 1), labels, labels)
  }

  /** The labels after the last sweep that changed one, or after all sweeps allowed. */
  ghost predicate Outcome(g: Csr, iters: nat, random: nat -> nat, sweeps: nat, labels: seq<nat>) {
    && sweeps <= iters && LabelsAt(g, random, sweeps, labels)
    && (sweeps < iters ==> Still(g, random, sweeps, labels))
    && (forall i: nat, l: seq<nat> :: i < sweeps && LabelsAt(g, random, i, l) ==> !Still(g, random, i, l))
  }

  lemma {:induction false} LabelsAreUnique(g: Csr, random: nat -> nat, t: nat, a: seq<nat>, b: seq<nat>)
    requires LabelsAt(g, random, t, a) && LabelsAt(g, random, t, b)
    ensures a == b
  {
    hide Swept, OrderAt;
    if t > 0 {
      var order := OrderAt(g.n, random, t);
      var v :| Swept(g, order, v, a) && LabelsAt(g, random, t - 1, v);
      var w :| Swept(g, order, w, b) && LabelsAt(g, random, t - 1, w);
      LabelsAreUnique(g, random, t - 1, v, w);
      SweptIsUnique(g, order, v, a, b);
    }
  }

  /** The graph, the seed and the limit determine the communities, map order or not. */
  lemma CommunitiesAreDetermined(g: Csr, iters: nat, random: nat -> nat,
                                 sweeps1: nat, labels1: seq<nat>, out1: seq<nat>, members1: seq<seq<nat>>,
                                 sweeps2: nat, labels2: seq<nat>, out2: seq<nat>, members2: seq<seq<nat>>)
    requires Outcome(g, iters, random, sweeps1, labels1) && IsPartition(labels1, out1, members1)
    requires Outcome(g, iters, random, sweeps2, labels2) && IsPartition(labels2, out2, members2)
    ensures sweeps1 == sweeps2 && labels1 == labels2 && out1 == out2 && members1 == members2
  {
    NoSooner(g, iters, random, sweeps1, labels1, sweeps2, labels2);
    NoSooner(g, iters, random, sweeps2, labels2, sweeps1, labels1);
    hide IsPartition;
    LabelsAreUnique(g, random, sweeps1, labels1, labels2);
    PartitionIsUnique(labels1, out1, members1, out2, members2);
  }

  lemma NoSooner(g: Csr, iters: nat, random: nat -> nat, sweeps1: nat, labels1: seq<nat>, sweeps2: nat, labels2: seq<nat>)
    requires Outcome(g, iters, random, sweeps1, labels1) && Outcome(g, iters, random, sweeps2, labels2)
    ensures sweeps1 <= sweeps2
  {
    hide LabelsAt, Still;
  }

  /** DetectCommunities: the communities are the classes of labels that stay within
      components and leave isolated nodes alone; fewer sweeps than allowed means the
      labels are stable. */
  method DetectCommunities(g: Csr, maxIter: int, random: nat -> nat)
    returns (out: seq<nat>, members: seq<seq<nat>>, ghost labels: seq<nat>, ghost sweeps: nat)
    requires CsrOk(g)
    ensures Outcome(g, Limit(maxIter), random, sweeps, labels) && IsPartition(labels, out, members)
    ensures Within(g, labels) && LonersStay(g, labels)
    ensures sweeps < Limit(maxIter) ==> Stable(g, labels)
    ensures Uncrossed(g, out) && LonersAlone(g, out, members)
  {
    var n := g.n;
    var lab := new nat[n](i => i);
    assert lab[..] == seq(n, i => i);
    StartWithin(g, lab[..]);
    sweeps := 0;
    if n == 0 {
      labels := lab[..];
      SweptNone(g, labels);
      NothingCrossed(g);
      return [], [], labels, 0;
    }
    var order := new nat[n](i => i);
    assert order[..] == OrderAt(n, random, 0);
    hide *;
    OutcomeStarts(g, random, lab[..]);
    sweeps := RunSweeps(g, Limit(maxIter), random, order, lab);
    labels := lab[..];
    out, members := Compact(lab[..]);
    WithinIsUncrossed(g, labels, out, members);
  }

  /** No community crosses a set that no edge leaves, and so none crosses components. */
  ghost predicate Uncrossed(g: Csr, out: seq<nat>) {
    |out| == g.n && forall s, i, j :: Separate(g, s) && 0 <= i < g.n && 0 <= j < g.n && out[i] == out[j] && i in s ==> j in s
  }

  /** No edge leaves or enters the node. */
  ghost predicate Isolated(g: Csr, i: nat)
    requires CsrOk(g) && i < g.n
  {
    RowOk(g, i) && g.rowPtr[i] == g.rowPtr[i + 1] && forall p :: 0 <= p < |g.cols| ==> g.cols[p] != i
  }

  /** An isolated node is a community of its own. */
  ghost predicate LonersAlone(g: Csr, out: seq<nat>, members: seq<seq<nat>>) {
    CsrOk(g) && |out| == g.n &&
    forall i :: 0 <= i < g.n && Isolated(g, i) ==> out[i] < |members| && members[out[i]] == [i]
  }

  lemma NothingCrossed(g: Csr)
    requires CsrOk(g) && g.n == 0
    ensures Uncrossed(g, []) && LonersAlone(g, [], [])
  {
  }

  lemma WithinIsUncrossed(g: Csr, labels: seq<nat>, out: seq<nat>, members: seq<seq<nat>>)
    requires CsrOk(g) && Within(g, labels) && LonersStay(g, labels) && IsPartition(labels, out, members)
    ensures Uncrossed(g, out) && LonersAlone(g, out, members)
  {
    SidesAreKept(g, labels, out, members);
    forall i: nat | i < g.n && Isolated(g, i)
      ensures out[i] < |members| && members[out[i]] == [i]
    {
      LonerIsAlone(g, labels, out, members, i);
    }
  }

  lemma SidesAreKept(g: Csr, labels: seq<nat>, out: seq<nat>, members: seq<seq<nat>>)
    requires Within(g, labels) && IsPartition(labels, out, members)
    ensures Uncrossed(g, out)
  {
    hide Separate, Lists, Ascending, HeadsAscend;
    forall s, i, j | Separate(g, s) && 0 <= i < g.n && 0 <= j < g.n && out[i] == out[j] && i in s ensures j in s {
      assert SameSide(g, labels, s);
      assert labels[i] == labels[j];
    }
  }

  lemma LonerIsAlone(g: Csr, labels: seq<nat>, out: seq<nat>, members: seq<seq<nat>>, i: nat)
    requires CsrOk(g) && Uncrossed(g, out) && IsPartition(labels, out, members)
    requires i < g.n && Isolated(g, i)
    ensures out[i] < |members| && members[out[i]] == [i]
  {
    SeparateAlone(g, i);
    var list := members[out[i]];
    assert Lists(list, out, out[i]) && i in list;
    forall j | j in list ensures j == i {
      assert out[j] == out[i] && i in {i} && j in {i};
    }
    AscendingIsUnique(list, [i]);
  }

  lemma SeparateAlone(g: Csr, i: nat)
    requires CsrOk(g) && i < g.n && Isolated(g, i)
    ensures Separate(g, {i})
  {
  }

  function Limit(maxIter: int): nat { if maxIter <= 0 then DEFAULT_SWEEPS else maxIter }

  /** Labels after t sweeps, each of which changed some. */
  ghost predicate Moving(g: Csr, random: nat -> nat, t: nat, labels: seq<nat>) {
    && LabelsAt(g, random, t, labels)
    && (forall i: nat, l: seq<nat> :: i < t && LabelsAt(g, random, i, l) ==> !Still(g, random, i, l))
  }

  lemma OutcomeStarts(g: Csr, random: nat -> nat, labels: seq<nat>)
    requires |labels| == g.n && forall i :: 0 <= i < g.n ==> labels[i] == i
    ensures Moving(g, random, 0, labels) && Draws(g.n, 0) == 0
  {
  }

  lemma MovingNext(g: Csr, random: nat -> nat, t: nat, before: seq<nat>, after: seq<nat>)
    requires Moving(g, random, t, before) && Swept(g, OrderAt(g.n, random, t + 1), before, after) && before != after
    ensures Moving(g, random, t + 1, after)
  {
    forall i: nat, l: seq<nat> | i < t + 1 && LabelsAt(g, random, i, l) ensures !Still(g, random, i, l) {
      if i == t {
        LabelsAreUnique(g, random, t, l, before);
        if Still(g, random, t, l) {
          SweptIsUnique(g, OrderAt(g.n, random, t + 1), before, before, after);
        }
      }
    }
  }

  lemma OrderNext(n: nat, random: nat -> nat, t: nat, draws: nat)
    requires n > 0 && draws == Draws(n, t)
    ensures OrderAt(n, random, t + 1) == Shuffled(OrderAt(n, random, t), random, draws, n - 1)
    ensures Draws(n, t + 1) == draws + n - 1
  {
  }

  lemma OutcomeIs(g: Csr, iters: nat, random: nat -> nat, sweeps: nat, labels: seq<nat>)
    requires Moving(g, random, sweeps, labels) && sweeps <= iters
    requires sweeps < iters ==> Swept(g, OrderAt(g.n, random, sweeps + 1), labels, labels)
    ensures Outcome(g, iters, random, sweeps, labels)
  {
  }

  /** The loop of sweeps. */
  method RunSweeps(g: Csr, iters: nat, random: nat -> nat, order: array<nat>, lab: array<nat>) returns (ghost sweeps: nat)
    requires CsrOk(g) && g.n == lab.Length == order.Length > 0 && order != lab && Draws(g.n, 0) == 0
    requires order[..] == OrderAt(g.n, random, 0) && Moving(g, random, 0, lab[..])
    requires Within(g, lab[..]) && LonersStay(g, lab[..])
    modifies order, lab
    ensures Outcome(g, iters, random, sweeps, lab[..])
    ensures Within(g, lab[..]) && LonersStay(g, lab[..])
    ensures sweeps < iters ==> Stable(g, lab[..])
  {
    hide *;
    var used := 0;
    var iter := 0;
    while iter < iters
      invariant 0 <= iter <= iters && used == Draws(g.n, iter) && order[..] == OrderAt(g.n, random, iter)
      invariant Moving(g, random, iter, lab[..])
      invariant Within(g, lab[..]) && LonersStay(g, lab[..])
    {
      ghost var was := lab[..];
      OrderNext(g.n, random, iter, used);
      OrderCovers(g.n, random, iter + 1);
      used := Shuffle(order, random, used);
      var changed := Sweep(g, order[..], lab);
      if !changed {
        OutcomeIs(g, iters, random, iter, lab[..]);
        return iter;
      }
      MovingNext(g, random, iter, was, lab[..]);
      iter := iter + 1;
    }
    OutcomeIs(g, iters, random, iter, lab[..]);
    sweeps := iter;
  }

  lemma StartWithin(g: Csr, labels: seq<nat>)
    requires CsrOk(g) && |labels| == g.n && forall i :: 0 <= i < g.n ==> labels[i] == i
    ensures Within(g, labels) && LonersStay(g, labels)
  {
  }

  lemma StartCovers(order: seq<nat>, n: nat)
    requires |order| == n && forall i :: 0 <= i < n ==> order[i] == i
    ensures Covers(order, n)
  {
    forall i: nat ensures i in order <==> i < n {
      if i < n {
        assert order[i] == i;
      }
    }
  }
}
