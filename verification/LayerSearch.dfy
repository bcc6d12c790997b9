/** The traversals of index/hnsw.go on one layer: greedy descent and the
    best-first search with two heaps and a visited set. */
module LayerSearch {
  import opened Orders
  import opened Heaps
  import opened Links

  datatype Candidate = Candidate(id: nat, dist: real)

  const CLOSER: (Candidate, Candidate) -> bool := (a: Candidate, b: Candidate) => a.dist < b.dist
  const FURTHER: (Candidate, Candidate) -> bool := (a: Candidate, b: Candidate) => a.dist > b.dist

  lemma CandidateOrders()
    ensures StrictWeak(CLOSER) && StrictWeak(FURTHER)
  {
  }

  ghost function Cand(dist: nat -> real, v: nat): Candidate { Candidate(v, dist(v)) }

  ghost function Ids(out: seq<Candidate>): set<nat> { set c | c in out :: c.id }

  ghost predicate SortedByDist(out: seq<Candidate>) {
    forall i, j :: 0 <= i < j < |out| ==> out[i].dist <= out[j].dist
  }

  ghost predicate DistinctIds(out: seq<Candidate>) {
    forall i, j :: 0 <= i < j < |out| ==> out[i].id != out[j].id
  }

  /** No member of r is further than d. */
  ghost predicate Within(r: set<Candidate>, d: real) {
    forall c :: c in r ==> c.dist <= d
  }

  /** What a layer search promises about its result and the nodes it visited. */
  ghost predicate LayerResult(nodes: seq<Node>, level: nat, dist: nat -> real, ep: nat, ef: nat,
                              accept: nat -> bool, visited: set<nat>, out: seq<Candidate>)
  {
    && ep in visited
    && (forall v :: v in visited ==> OnLayer(nodes, level, v) && Reachable(nodes, level, ep, v))
    && (forall c :: c in out ==> c.id in visited && accept(c.id) && c.dist == dist(c.id))
    && DistinctIds(out) && SortedByDist(out) && |out| <= ef
    // out holds the best ef accepted nodes of those visited
    && (forall v :: v in visited && accept(v) && v !in Ids(out) ==>
          |out| == ef && forall c :: c in out ==> c.dist <= dist(v))
    // every neighbour of a returned node was visited
    && (forall c :: c in out ==> Expanded(nodes, level, visited, c.id))
    // a result that is not full means that nothing reachable was left unvisited
    && (|out| < ef ==> Closed(nodes, level, visited))
  }

  /** What a result says without naming the visited nodes: sorted accepted nodes of the
      layer, and neither the start nor a neighbour of a result was wrongly left out. */
  ghost predicate LocallyBest(nodes: seq<Node>, level: nat, dist: nat -> real, ep: nat, ef: nat,
                              accept: nat -> bool, out: seq<Candidate>)
  {
    && DistinctIds(out) && SortedByDist(out) && |out| <= ef
    && (forall c :: c in out ==> Reachable(nodes, level, ep, c.id) && accept(c.id) && c.dist == dist(c.id))
    && (accept(ep) && ep !in Ids(out) ==> |out| == ef && Beyond(out, dist(ep)))
    && (forall c, nb :: c in out && nb in LinksOf(nodes, level, c.id) && accept(nb) && nb !in Ids(out) ==>
          |out| == ef && Beyond(out, dist(nb)))
  }

  /** No result is further than d. */
  ghost predicate Beyond(out: seq<Candidate>, d: real) { forall c :: c in out ==> c.dist <= d }

  lemma ResultIsLocallyBest(nodes: seq<Node>, level: nat, dist: nat -> real, ep: nat, ef: nat,
                            accept: nat -> bool, visited: set<nat>, out: seq<Candidate>)
    requires LayerResult(nodes, level, dist, ep, ef, accept, visited, out)
    ensures LocallyBest(nodes, level, dist, ep, ef, accept, out)
  {
    hide Reachable, OnLayer, LinksOf, DistinctIds, SortedByDist;
    forall c, nb | c in out && nb in LinksOf(nodes, level, c.id) && accept(nb) && nb !in Ids(out)
      ensures |out| == ef && Beyond(out, dist(nb))
    {
      assert Expanded(nodes, level, visited, c.id);
      assert nb in visited;
    }
  }

  // ---------- the loop invariant ----------

  /** Frontier f and result r, both as sets, while the nodes in open are being expanded. */
  ghost predicate SearchInv(nodes: seq<Node>, level: nat, dist: nat -> real, ep: nat, ef: nat,
                            accept: nat -> bool, seen: set<nat>, f: set<Candidate>, r: set<Candidate>,
                            open: set<nat>)
  {
    && ep in seen
    && (forall v :: v in seen ==> OnLayer(nodes, level, v) && Reachable(nodes, level, ep, v))
    && (forall c :: c in f ==> c.id in seen && c == Cand(dist, c.id))
    && (forall c :: c in r ==> c.id in seen && c == Cand(dist, c.id) && accept(c.id))
    && |r| <= ef
    && (forall v :: v in seen && accept(v) && Cand(dist, v) !in r ==> |r| == ef && Within(r, dist(v)))
    && (forall v :: v in seen ==> Settled(nodes, level, dist, ef, seen, f, r, open, v))
  }

  /** v waits in the frontier, is being expanded, is expanded, or was too far to matter. */
  ghost predicate Settled(nodes: seq<Node>, level: nat, dist: nat -> real, ef: nat,
                          seen: set<nat>, f: set<Candidate>, r: set<Candidate>, open: set<nat>, v: nat)
  {
    || Cand(dist, v) in f
    || v in open
    || Expanded(nodes, level, seen, v)
    || (Cand(dist, v) !in r && |r| == ef && Within(r, dist(v)))
  }

  lemma InvStart(nodes: seq<Node>, level: nat, dist: nat -> real, ep: nat, ef: nat, accept: nat -> bool)
    requires ef >= 1 && OnLayer(nodes, level, ep)
    ensures SearchInv(nodes, level, dist, ep, ef, accept, {ep}, {Cand(dist, ep)},
                      if accept(ep) then {Cand(dist, ep)} else {}, {})
  {
    ReachSelf(nodes, level, ep);
  }

  /** Popping c moves it from the frontier to the open nodes. */
  lemma InvPop(nodes: seq<Node>, level: nat, dist: nat -> real, ep: nat, ef: nat, accept: nat -> bool,
               seen: set<nat>, f: set<Candidate>, r: set<Candidate>, c: Candidate)
    requires SearchInv(nodes, level, dist, ep, ef, accept, seen, f, r, {}) && c in f
    ensures SearchInv(nodes, level, dist, ep, ef, accept, seen, f - {c}, r, {c.id})
  {
    forall v | v in seen ensures Settled(nodes, level, dist, ef, seen, f - {c}, r, {c.id}, v) {
      assert Settled(nodes, level, dist, ef, seen, f, r, {}, v);
    }
  }

  /** Once all links of the open node are visited it counts as expanded. */
  lemma InvClose(nodes: seq<Node>, level: nat, dist: nat -> real, ep: nat, ef: nat, accept: nat -> bool,
                 seen: set<nat>, f: set<Candidate>, r: set<Candidate>, x: nat)
    requires SearchInv(nodes, level, dist, ep, ef, accept, seen, f, r, {x})
    requires Expanded(nodes, level, seen, x)
    ensures SearchInv(nodes, level, dist, ep, ef, accept, seen, f, r, {})
  {
    forall v | v in seen ensures Settled(nodes, level, dist, ef, seen, f, r, {}, v) {
      assert Settled(nodes, level, dist, ef, seen, f, r, {x}, v);
    }
  }

  /** A new node that is not better than a full result is only marked. */
  lemma InvSkip(nodes: seq<Node>, level: nat, dist: nat -> real, ep: nat, ef: nat, accept: nat -> bool,
                seen: set<nat>, f: set<Candidate>, r: set<Candidate>, open: set<nat>, x: nat)
    requires SearchInv(nodes, level, dist, ep, ef, accept, seen, f, r, open)
    requires x !in seen && OnLayer(nodes, level, x) && Reachable(nodes, level, ep, x)
    requires |r| == ef && Within(r, dist(x))
    ensures SearchInv(nodes, level, dist, ep, ef, accept, seen + {x}, f, r, open)
  {
    forall v | v in seen + {x} ensures Settled(nodes, level, dist, ef, seen + {x}, f, r, open, v) {
      assert v in seen ==> Settled(nodes, level, dist, ef, seen, f, r, open, v);
    }
  }

  /** A new node that is better than a full result, or comes while there is room,
      enters the frontier and, when accepted, the result. */
  lemma InvPush(nodes: seq<Node>, level: nat, dist: nat -> real, ep: nat, ef: nat, accept: nat -> bool,
                seen: set<nat>, f: set<Candidate>, r: set<Candidate>, r': set<Candidate>,
                open: set<nat>, x: nat)
    requires SearchInv(nodes, level, dist, ep, ef, accept, seen, f, r, open)
    requires x !in seen && OnLayer(nodes, level, x) && Reachable(nodes, level, ep, x)
    requires |r| < ef || exists w :: w in r && dist(x) < w.dist
    requires !accept(x) ==> r' == r
    requires accept(x) && |r| < ef ==> r' == r + {Cand(dist, x)}
    requires accept(x) && |r| == ef ==>
               exists w :: w in r + {Cand(dist, x)} && r' == r + {Cand(dist, x)} - {w} && Within(r', w.dist)
    ensures SearchInv(nodes, level, dist, ep, ef, accept, seen + {x}, f + {Cand(dist, x)}, r', open)
  {
    var cx := Cand(dist, x);
    assert cx !in r;
    assert |r + {cx}| == |r| + 1;
    if accept(x) && |r| == ef {
      var w :| w in r + {cx} && r' == r + {cx} - {w} && Within(r', w.dist);
      assert |r'| == ef;
    }
    assert |r| == ef ==> |r'| == ef;
    forall v | v in seen && |r| == ef && Within(r, dist(v)) ensures Within(r', dist(v)) {
    }
    forall v | v in seen + {x} && accept(v) && Cand(dist, v) !in r'
      ensures |r'| == ef && Within(r', dist(v))
    {
      if v != x && Cand(dist, v) !in r {
        assert |r| == ef && Within(r, dist(v));
      }
    }
    forall v | v in seen + {x}
      ensures Settled(nodes, level, dist, ef, seen + {x}, f + {cx}, r', open, v)
    {
      if v != x {
        assert Settled(nodes, level, dist, ef, seen, f, r, open, v);
        if Cand(dist, v) !in r && |r| == ef && Within(r, dist(v)) {
          assert Cand(dist, v) !in r';
        }
      }
    }
  }

  /** Nothing left to explore that could change the result. */
  ghost predicate Finished(nodes: seq<Node>, level: nat, ef: nat, seen: set<nat>, r: set<Candidate>) {
    && (forall c :: c in r ==> Expanded(nodes, level, seen, c.id))
    && (|r| < ef ==> Closed(nodes, level, seen))
  }

  /** The early stop: the nearest frontier node is beyond the worst of a full result. */
  lemma FinishedEarly(nodes: seq<Node>, level: nat, dist: nat -> real, ep: nat, ef: nat, accept: nat -> bool,
                      seen: set<nat>, f: set<Candidate>, r: set<Candidate>, c: Candidate)
    requires SearchInv(nodes, level, dist, ep, ef, accept, seen, f, r, {}) && |r| == ef
    requires c in f && forall x :: x in f ==> c.dist <= x.dist
    requires forall x :: x in r ==> x.dist < c.dist
    ensures Finished(nodes, level, ef, seen, r)
  {
    forall x | x in r ensures Expanded(nodes, level, seen, x.id) {
      assert Settled(nodes, level, dist, ef, seen, f, r, {}, x.id);
    }
  }

  lemma FinishedEmpty(nodes: seq<Node>, level: nat, dist: nat -> real, ep: nat, ef: nat, accept: nat -> bool,
                      seen: set<nat>, r: set<Candidate>)
    requires SearchInv(nodes, level, dist, ep, ef, accept, seen, {}, r, {})
    ensures Finished(nodes, level, ef, seen, r)
  {
    forall v | v in seen ensures Expanded(nodes, level, seen, v) || (|r| == ef && Cand(dist, v) !in r) {
      assert Settled(nodes, level, dist, ef, seen, {}, r, {}, v);
    }
  }

  /** The sorted copy of a finished result is a layer result. */
  lemma ResultForm(nodes: seq<Node>, level: nat, dist: nat -> real, ep: nat, ef: nat, accept: nat -> bool,
                   seen: set<nat>, f: set<Candidate>, r: set<Candidate>, out: seq<Candidate>)
    requires SearchInv(nodes, level, dist, ep, ef, accept, seen, f, r, {})
    requires Finished(nodes, level, ef, seen, r)
    requires multiset(out) == multiset(r) && SortedBy(CLOSER, out)
    ensures LayerResult(nodes, level, dist, ep, ef, accept, seen, out)
  {
    SetAsSeq(r, out);
    forall i, j | 0 <= i < j < |out| ensures out[i].id != out[j].id {
      assert out[i] in r && out[j] in r;
    }
    forall v | v in seen && accept(v) && v !in Ids(out)
      ensures |out| == ef && forall c :: c in out ==> c.dist <= dist(v)
    {
      assert Cand(dist, v) in r ==> Cand(dist, v) in out;
    }
  }

  lemma SetAsSeq<T>(s: set<T>, q: seq<T>)
    requires multiset(q) == multiset(s)
    ensures |q| == |s| && Distinct(q) && forall x :: x in q <==> x in s
  {
    assert |multiset(q)| == |q| && |multiset(s)| == |s|;
    assert forall x :: x in q <==> x in multiset(q);
    MultisetDistinct(q);
  }

  ghost function AllIds(nodes: seq<Node>, level: nat): set<nat> {
    set i: nat | i < |nodes| && OnLayer(nodes, level, i)
  }

  /** The two heaps hold the frontier and the result as sets. */
  ghost predicate HeapsHold(cand: Heap<Candidate>, result: Heap<Candidate>, f: set<Candidate>, r: set<Candidate>)
    reads cand, result
  {
    && cand != result && cand.less == CLOSER && result.less == FURTHER
    && cand.Valid() && result.Valid()
    && multiset(cand.a) == multiset(f) && multiset(result.a) == multiset(r)
  }

  lemma HeapSet(q: seq<Candidate>, s: set<Candidate>)
    requires multiset(q) == multiset(s)
    ensures |q| == |s| && forall x :: x in q <==> x in s
  {
    SetAsSeq(s, q);
  }

  lemma InvFacts(nodes: seq<Node>, level: nat, dist: nat -> real, ep: nat, ef: nat, accept: nat -> bool,
                 seen: set<nat>, f: set<Candidate>, r: set<Candidate>, open: set<nat>)
    requires SearchInv(nodes, level, dist, ep, ef, accept, seen, f, r, open)
    ensures |r| <= ef && seen <= AllIds(nodes, level)
    ensures forall v :: v in seen ==> Reachable(nodes, level, ep, v)
    ensures forall c :: c in f ==> c.id in seen
    ensures forall v :: v !in seen ==> Cand(dist, v) !in f && Cand(dist, v) !in r
  {
    forall v | v in seen ensures v in AllIds(nodes, level) {
      assert OnLayer(nodes, level, v);
    }
  }

  lemma MultisetAdd(s: set<Candidate>, x: Candidate)
    requires x !in s
    ensures multiset(s + {x}) == multiset(s) + multiset{x}
  {
  }

  lemma MultisetRemove(s: set<Candidate>, x: Candidate)
    requires x in s
    ensures multiset(s - {x}) == multiset(s) - multiset{x}
  {
  }

  /** Inserting a candidate into the result and dropping the furthest when over full. */
  method Offer(result: Heap<Candidate>, ghost r: set<Candidate>, x: Candidate, ef: nat)
    returns (ghost r': set<Candidate>)
    requires result.less == FURTHER && result.Valid() && multiset(result.a) == multiset(r)
    requires x !in r && |r| <= ef
    modifies result`a
    ensures result.Valid() && multiset(result.a) == multiset(r')
    ensures |r| < ef ==> r' == r + {x}
    ensures |r| == ef ==> exists w :: w in r + {x} && r' == r + {x} - {w} && Within(r', w.dist)
  {
    HeapSet(result.a, r);
    result.Push(x);
    MultisetAdd(r, x);
    r' := r + {x};
    assert |r'| == |r| + 1;
    HeapSet(result.a, r');
    if |result.a| > ef {
      var w := result.Pop();
      assert w in r';
      MultisetRemove(r', w);
      r' := r' - {w};
      assert Within(r', w.dist);
    }
  }

  /** The loop over one node's links. */
  method ExpandNode(nodes: seq<Node>, dist: nat -> real, ep: nat, ef: nat, level: nat, accept: nat -> bool, x: nat,
                    cand: Heap<Candidate>, result: Heap<Candidate>, seen0: set<nat>,
                    ghost f0: set<Candidate>, ghost r0: set<Candidate>)
    returns (seen: set<nat>, ghost f: set<Candidate>, ghost r: set<Candidate>)
    requires ef >= 1 && SoundLayer(nodes, level) && x in seen0
    requires HeapsHold(cand, result, f0, r0)
    requires SearchInv(nodes, level, dist, ep, ef, accept, seen0, f0, r0, {x})
    modifies cand`a, result`a
    ensures HeapsHold(cand, result, f, r)
    ensures SearchInv(nodes, level, dist, ep, ef, accept, seen, f, r, {})
    ensures seen0 <= seen <= AllIds(nodes, level)
    ensures if seen == seen0 then |cand.a| == old(|cand.a|) else Left(nodes, level, seen) < Left(nodes, level, seen0)
  {
    hide SearchInv, StrictWeak, Ordered, CLOSER, FURTHER, AllIds, Left;
    seen, f, r := seen0, f0, r0;
    var friends := LinksOf(nodes, level, x);
    InvFacts(nodes, level, dist, ep, ef, accept, seen, f, r, {x});
    for k := 0 to |friends|
      invariant HeapsHold(cand, result, f, r)
      invariant SearchInv(nodes, level, dist, ep, ef, accept, seen, f, r, {x})
      invariant seen0 <= seen <= AllIds(nodes, level)
      invariant seen == seen0 ==> |cand.a| == old(|cand.a|)
      invariant forall j :: 0 <= j < k ==> friends[j] in seen
    {
      var nb := friends[k];
      if nb in seen {
        continue;
      }
      InvFacts(nodes, level, dist, ep, ef, accept, seen, f, r, {x});
      ReachStep(nodes, level, ep, x, nb);
      HeapSet(result.a, r);
      var d := dist(nb);
      if |result.a| < ef || d < result.a[0].dist {
        assert |r| < ef || result.a[0] in r;
        cand.Push(Candidate(nb, d));
        MultisetAdd(f, Candidate(nb, d));
        ghost var r' := r;
        if accept(nb) {
          r' := Offer(result, r, Candidate(nb, d), ef);
        }
        InvPush(nodes, level, dist, ep, ef, accept, seen, f, r, r', {x}, nb);
        f, r := f + {Candidate(nb, d)}, r';
      } else {
        WorstBounds(result, r, d);
        InvSkip(nodes, level, dist, ep, ef, accept, seen, f, r, {x}, nb);
      }
      seen := seen + {nb};
      InvFacts(nodes, level, dist, ep, ef, accept, seen, f, r, {x});
    }
    InvClose(nodes, level, dist, ep, ef, accept, seen, f, r, x);
    LeftShrinks(nodes, level, seen0, seen);
  }

  /** How many nodes of the layer are not visited yet. */
  ghost function Left(nodes: seq<Node>, level: nat, seen: set<nat>): nat {
    |AllIds(nodes, level) - seen|
  }

  lemma LeftShrinks(nodes: seq<Node>, level: nat, seen0: set<nat>, seen: set<nat>)
    requires seen0 <= seen <= AllIds(nodes, level)
    ensures seen == seen0 || Left(nodes, level, seen) < Left(nodes, level, seen0)
  {
    var a, b := AllIds(nodes, level) - seen, AllIds(nodes, level) - seen0;
    if seen != seen0 {
      assert a < b;
      SmallerSet(a, b);
    }
  }

  lemma SmallerSet(a: set<nat>, b: set<nat>)
    requires a < b
    ensures |a| < |b|
  {
    assert b == a + (b - a);
  }

  lemma StopBounds(result: Heap<Candidate>, before: seq<Candidate>, f: set<Candidate>, r: set<Candidate>, c: Candidate)
    requires multiset(before) == multiset(f) && forall x :: x in before ==> !CLOSER(x, c)
    requires result.less == FURTHER && result.Valid() && multiset(result.a) == multiset(r)
    requires |result.a| > 0 && c.dist > result.a[0].dist
    ensures forall x :: x in f ==> c.dist <= x.dist
    ensures forall x :: x in r ==> x.dist < c.dist
  {
    HeapSet(before, f);
    HeapSet(result.a, r);
    RootIsFirst(FURTHER, result.a);
  }

  lemma WorstBounds(result: Heap<Candidate>, r: set<Candidate>, d: real)
    requires result.less == FURTHER && result.Valid() && multiset(result.a) == multiset(r)
    requires |result.a| > 0 && result.a[0].dist <= d
    ensures Within(r, d)
  {
    HeapSet(result.a, r);
    RootIsFirst(FURTHER, result.a);
  }

  /** The heaps and the visited mark a search starts from. */
  method StartSearch(nodes: seq<Node>, dist: nat -> real, ep: nat, ef: nat, level: nat, accept: nat -> bool)
    returns (cand: Heap<Candidate>, result: Heap<Candidate>, ghost f: set<Candidate>, ghost r: set<Candidate>)
    requires ef >= 1 && OnLayer(nodes, level, ep)
    ensures fresh(cand) && fresh(result) && HeapsHold(cand, result, f, r) && |cand.a| > 0
    ensures SearchInv(nodes, level, dist, ep, ef, accept, {ep}, f, r, {})
  {
    CandidateOrders();
    cand := new Heap<Candidate>(CLOSER);
    result := new Heap<Candidate>(FURTHER);
    cand.Push(Candidate(ep, dist(ep)));
    f, r := {Cand(dist, ep)}, {};
    if accept(ep) {
      result.Push(Candidate(ep, dist(ep)));
      r := {Cand(dist, ep)};
    }
    InvStart(nodes, level, dist, ep, ef, accept);
  }

  /** searchLayerFiltered: best-first search from ep with search width ef. Every node
      is traversed; only accepted ones enter the result. */
  method SearchLayerFiltered(nodes: seq<Node>, dist: nat -> real, ep: nat, ef: nat, level: nat, accept: nat -> bool)
    returns (out: seq<Candidate>, ghost visited: set<nat>)
    requires ef >= 1 && OnLayer(nodes, level, ep) && SoundLayer(nodes, level)
    ensures LayerResult(nodes, level, dist, ep, ef, accept, visited, out)
    ensures LocallyBest(nodes, level, dist, ep, ef, accept, out)
  {
    hide SearchInv, StrictWeak, LocallyBest, Ordered, CLOSER, FURTHER, Finished, AllIds, Left;
    var seen := {ep};
    var cand, result;
    ghost var f, r;
    cand, result, f, r := StartSearch(nodes, dist, ep, ef, level, accept);
    InvFacts(nodes, level, dist, ep, ef, accept, seen, f, r, {});
    while |cand.a| > 0
      invariant fresh(cand) && fresh(result) && HeapsHold(cand, result, f, r)
      invariant SearchInv(nodes, level, dist, ep, ef, accept, seen, f, r, {})
      invariant seen <= AllIds(nodes, level)
      invariant |cand.a| == 0 ==> Finished(nodes, level, ef, seen, r)
      decreases Left(nodes, level, seen), |cand.a|
    {
      HeapSet(cand.a, f);
      HeapSet(result.a, r);
      InvFacts(nodes, level, dist, ep, ef, accept, seen, f, r, {});
      ghost var before := cand.a;
      var c := cand.Pop();
      assert c == before[0] && c in f;
      if |result.a| >= ef && c.dist > result.a[0].dist {
        StopBounds(result, before, f, r, c);
        FinishedEarly(nodes, level, dist, ep, ef, accept, seen, f, r, c);
        break;
      }
      InvPop(nodes, level, dist, ep, ef, accept, seen, f, r, c);
      MultisetRemove(f, c);
      f := f - {c};
      seen, f, r := ExpandNode(nodes, dist, ep, ef, level, accept, c.id, cand, result, seen, f, r);
      if |cand.a| == 0 {
        HeapSet(cand.a, f);
        FinishedEmpty(nodes, level, dist, ep, ef, accept, seen, r);
      }
    }
    CandidateOrders();
    out := SortBy(CLOSER, result.a);
    ResultForm(nodes, level, dist, ep, ef, accept, seen, f, r, out);
    visited := seen;
    ResultIsLocallyBest(nodes, level, dist, ep, ef, accept, visited, out);
  }

  // ---------- greedy descent ----------

  ghost function CloserOnes(nodes: seq<Node>, level: nat, dist: nat -> real, d: real): set<nat> {
    set i: nat | i < |nodes| && OnLayer(nodes, level, i) && dist(i) < d
  }

  lemma CloserShrinks(nodes: seq<Node>, level: nat, dist: nat -> real, best: nat, d: real)
    requires OnLayer(nodes, level, best) && dist(best) < d
    ensures |CloserOnes(nodes, level, dist, dist(best))| < |CloserOnes(nodes, level, dist, d)|
  {
    assert best in CloserOnes(nodes, level, dist, d);
    SmallerSet(CloserOnes(nodes, level, dist, dist(best)), CloserOnes(nodes, level, dist, d));
  }

  /** The k-th link of node a is its nearest, the first of equals, and closer than a. */
  ghost predicate IsStep(nodes: seq<Node>, level: nat, dist: nat -> real, a: nat, k: nat) {
    var links := LinksOf(nodes, level, a);
    && k < |links| && dist(links[k]) < dist(a)
    && (forall j :: 0 <= j < |links| ==> dist(links[k]) <= dist(links[j]))
    && (forall j :: 0 <= j < k ==> dist(links[k]) < dist(links[j]))
  }

  ghost predicate Steps(nodes: seq<Node>, level: nat, dist: nat -> real, a: nat, b: nat) {
    exists k: nat :: IsStep(nodes, level, dist, a, k) && LinksOf(nodes, level, a)[k] == b
  }

  /** No link of the node leads closer. */
  ghost predicate IsNearestAround(nodes: seq<Node>, level: nat, dist: nat -> real, a: nat) {
    forall nb :: nb in LinksOf(nodes, level, a) ==> dist(a) <= dist(nb)
  }

  /** A walk of steepest steps down to a node that none of its links improves on. */
  ghost predicate IsDescent(nodes: seq<Node>, level: nat, dist: nat -> real, p: seq<nat>) {
    |p| > 0 && forall k :: 0 < k < |p| ==> Steps(nodes, level, dist, p[k - 1], p[k])
  }

  ghost predicate Descends(nodes: seq<Node>, level: nat, dist: nat -> real, a: nat, b: nat) {
    && IsNearestAround(nodes, level, dist, b)
    && exists p :: IsDescent(nodes, level, dist, p) && p[0] == a && p[|p| - 1] == b
  }

  lemma StepIsUnique(nodes: seq<Node>, level: nat, dist: nat -> real, a: nat, b: nat, c: nat)
    requires Steps(nodes, level, dist, a, b)
    ensures Steps(nodes, level, dist, a, c) ==> b == c
    ensures !IsNearestAround(nodes, level, dist, a)
  {
    var links := LinksOf(nodes, level, a);
    var j: nat :| IsStep(nodes, level, dist, a, j) && links[j] == b;
    assert links[j] in links;
    if Steps(nodes, level, dist, a, c) {
      var k: nat :| IsStep(nodes, level, dist, a, k) && links[k] == c;
      assert j == k;
    }
  }

  lemma {:induction false} DescentPrefix(nodes: seq<Node>, level: nat, dist: nat -> real, p: seq<nat>, q: seq<nat>, k: nat)
    requires IsDescent(nodes, level, dist, p) && IsDescent(nodes, level, dist, q) && p[0] == q[0]
    requires k < |p| <= |q|
    ensures p[k] == q[k]
  {
    if k > 0 {
      DescentPrefix(nodes, level, dist, p, q, k - 1);
      StepIsUnique(nodes, level, dist, p[k - 1], p[k], q[k]);
    }
  }

  lemma DescentNotLonger(nodes: seq<Node>, level: nat, dist: nat -> real, p: seq<nat>, q: seq<nat>)
    requires IsDescent(nodes, level, dist, p) && IsDescent(nodes, level, dist, q) && p[0] == q[0]
    requires |p| <= |q| && IsNearestAround(nodes, level, dist, p[|p| - 1])
    ensures |p| == |q| && p[|p| - 1] == q[|q| - 1]
  {
    DescentPrefix(nodes, level, dist, p, q, |p| - 1);
    if |p| < |q| {
      StepIsUnique(nodes, level, dist, q[|p| - 1], q[|p|], q[|p|]);
    }
  }

  /** Where a descent ends is determined. */
  lemma DescentIsUnique(nodes: seq<Node>, level: nat, dist: nat -> real, a: nat, b: nat, c: nat)
    requires Descends(nodes, level, dist, a, b) && Descends(nodes, level, dist, a, c)
    ensures b == c
  {
    hide IsNearestAround, Steps;
    var p :| IsDescent(nodes, level, dist, p) && p[0] == a && p[|p| - 1] == b;
    var q :| IsDescent(nodes, level, dist, q) && q[0] == a && q[|q| - 1] == c;
    if |p| <= |q| {
      DescentNotLonger(nodes, level, dist, p, q);
    } else {
      DescentNotLonger(nodes, level, dist, q, p);
    }
  }

  /** greedyDescend: move to the closest neighbour until no link of the current node
      leads closer. */
  method GreedyDescend(nodes: seq<Node>, dist: nat -> real, ep: nat, level: nat) returns (best: nat)
    requires OnLayer(nodes, level, ep) && SoundLayer(nodes, level)
    ensures OnLayer(nodes, level, best) && Reachable(nodes, level, ep, best)
    ensures dist(best) <= dist(ep)
    ensures Descends(nodes, level, dist, ep, best)
  {
    ReachSelf(nodes, level, ep);
    best := ep;
    ghost var walk := [ep];
    while true
      invariant OnLayer(nodes, level, best) && Reachable(nodes, level, ep, best)
      invariant dist(best) <= dist(ep)
      invariant IsDescent(nodes, level, dist, walk) && walk[0] == ep && walk[|walk| - 1] == best
      decreases |CloserOnes(nodes, level, dist, dist(best))|
    {
      hide IsDescent;
      var from, improved := best, false;
      var friends := LinksOf(nodes, level, from);
      ghost var at := 0;
      for k := 0 to |friends|
        invariant improved ==> dist(best) < dist(from)
        invariant improved ==> 0 <= at < k && friends[at] == best && forall j :: 0 <= j < at ==> dist(best) < dist(friends[j])
        invariant !improved ==> best == from
        invariant OnLayer(nodes, level, best) && Reachable(nodes, level, ep, best)
        invariant dist(best) <= dist(from)
        invariant forall j :: 0 <= j < k ==> dist(best) <= dist(friends[j])
      {
        var nb := friends[k];
        var d := dist(nb);
        if d < dist(best) {
          ReachStep(nodes, level, ep, from, nb);
          best, improved := nb, true;
          at := k;
        }
      }
      if !improved {
        return;
      }
      assert IsStep(nodes, level, dist, from, at);
      DescentNext(nodes, level, dist, walk, best);
      walk := walk + [best];
      CloserShrinks(nodes, level, dist, best, dist(from));
    }
  }

  lemma DescentNext(nodes: seq<Node>, level: nat, dist: nat -> real, p: seq<nat>, b: nat)
    requires IsDescent(nodes, level, dist, p) && Steps(nodes, level, dist, p[|p| - 1], b)
    ensures IsDescent(nodes, level, dist, p + [b])
  {
    hide Steps;
  }

  // ---------- exhaustive searches ----------

  /** The accepted nodes that can be reached from ep. */
  ghost function AcceptedReach(nodes: seq<Node>, level: nat, ep: nat, accept: nat -> bool): set<nat> {
    set v: nat | v < |nodes| && Reachable(nodes, level, ep, v) && accept(v)
  }

  /** out lists the k members of s nearest under dist, nearest first. */
  ghost predicate KNearest(out: seq<Candidate>, s: set<nat>, dist: nat -> real, k: nat) {
    && |out| == (if k <= |s| then k else |s|)
    && SortedByDist(out) && DistinctIds(out)
    && (forall c :: c in out ==> c.id in s && c.dist == dist(c.id))
    && (forall v :: v in s && v !in Ids(out) ==> forall c :: c in out ==> c.dist <= dist(v))
  }

  lemma {:induction false} IdsSize(out: seq<Candidate>)
    requires DistinctIds(out)
    ensures |Ids(out)| == |out|
  {
    if |out| > 0 {
      var n := |out| - 1;
      IdsSize(out[..n]);
      assert out == out[..n] + [out[n]];
      assert Ids(out) == Ids(out[..n]) + {out[n].id};
      forall c | c in out[..n] ensures c.id != out[n].id {
      }
    }
  }

  lemma SubsetSize(a: set<nat>, b: set<nat>)
    requires a <= b
    ensures |a| <= |b| && (|a| == |b| ==> a == b)
  {
    if a != b {
      SmallerSet(a, b);
    }
  }

  /** With a width no smaller than the number of accepted reachable nodes, the search
      returns all of them, nearest first: it is a brute-force scan. */
  lemma WideSearchIsExhaustive(nodes: seq<Node>, level: nat, dist: nat -> real, ep: nat, ef: nat,
                               accept: nat -> bool, visited: set<nat>, out: seq<Candidate>)
    requires LayerResult(nodes, level, dist, ep, ef, accept, visited, out)
    requires ef >= |AcceptedReach(nodes, level, ep, accept)|
    ensures Ids(out) == AcceptedReach(nodes, level, ep, accept)
    ensures KNearest(out, AcceptedReach(nodes, level, ep, accept), dist, ef)
  {
    var reach := AcceptedReach(nodes, level, ep, accept);
    IdsSize(out);
    forall v | v in Ids(out) ensures v in reach {
      assert OnLayer(nodes, level, v) && Reachable(nodes, level, ep, v);
    }
    SubsetSize(Ids(out), reach);
    if |out| < ef {
      forall v | v in reach ensures v in Ids(out) {
        ClosedReach(nodes, level, visited, ep, v);
      }
    }
  }

  function Top(cands: seq<Candidate>, k: nat): seq<Candidate> {
    if |cands| > k then cands[..k] else cands
  }

  /** The first k of the ef nearest are the k nearest. */
  lemma FirstOfNearest(out: seq<Candidate>, s: set<nat>, dist: nat -> real, ef: nat, k: nat)
    requires KNearest(out, s, dist, ef) && k <= ef
    ensures KNearest(Top(out, k), s, dist, k)
  {
    if |out| > k {
      var o := out[..k];
      assert forall i :: 0 <= i < k ==> out[i] in o;
      forall v | v in s && v !in Ids(o) ensures forall c :: c in o ==> c.dist <= dist(v) {
        if v in Ids(out) {
          var j :| 0 <= j < |out| && out[j].id == v;
          assert k <= j;
        }
      }
    }
  }
}
