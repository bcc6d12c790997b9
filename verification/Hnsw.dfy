/** The HNSW index of index/hnsw.go: layered insertion and search, the relation
    every insertion satisfies, and the structure it keeps. */
module HnswIndex {
  import opened Vectors
  import opened Cosines
  import opened Orders
  import opened Links
  import opened LayerSearch

  // ---------- distances and neighbour selection ----------

  /** 1 - dot product; vectors in one index have equal length. */
  function Distance(x: Vec, y: Vec): real {
    if |x| == |y| then 1.0 - Dot(x, y) else 0.0
  }

  function DistTo(data: seq<Vec>, q: Vec): nat -> real {
    (i: nat) => if i < |data| then Distance(q, data[i]) else 0.0
  }

  function Between(data: seq<Vec>, a: nat, b: nat): real {
    if a < |data| && b < |data| then Distance(data[a], data[b]) else 0.0
  }

  const ALL: nat -> bool := (i: nat) => true

  /** Some selected node is closer to c than c is to the query. */
  ghost predicate Crowded(data: seq<Vec>, selected: seq<nat>, c: Candidate) {
    exists s :: s in selected && Between(data, c.id, s) < c.dist
  }

  /** The neighbour heuristic after looking at the first n candidates. */
  ghost function SelectedTo(data: seq<Vec>, cands: seq<Candidate>, m: nat, n: nat): seq<nat>
    requires n <= |cands|
  {
    if n == 0 then []
    else
      var s := SelectedTo(data, cands, m, n - 1);
      if |s| >= m || Crowded(data, s, cands[n - 1]) then s else s + [cands[n - 1].id]
  }

  ghost function Selected(data: seq<Vec>, cands: seq<Candidate>, m: nat): seq<nat> {
    SelectedTo(data, cands, m, |cands|)
  }

  lemma {:induction false} SelectedToFacts(data: seq<Vec>, cands: seq<Candidate>, m: nat, n: nat)
    requires n <= |cands| && DistinctIds(cands)
    ensures var s := SelectedTo(data, cands, m, n);
      && |s| <= m && Distinct(s) && (n > 0 && m > 0 ==> |s| > 0 && s[0] == cands[0].id)
      && forall x :: x in s ==> exists i :: 0 <= i < n && cands[i].id == x
  {
    if n > 0 {
      SelectedToFacts(data, cands, m, n - 1);
      var s := SelectedTo(data, cands, m, n - 1);
      forall x | x in s ensures x != cands[n - 1].id {
        var i :| 0 <= i < n - 1 && cands[i].id == x;
      }
      DistinctSnoc(s, cands[n - 1].id);
    }
  }

  /** The selection is a distinct, bounded choice of candidates that starts with the
      nearest one. */
  lemma SelectedFacts(data: seq<Vec>, cands: seq<Candidate>, m: nat)
    requires DistinctIds(cands)
    ensures var s := Selected(data, cands, m);
      && |s| <= m && Distinct(s) && (|cands| > 0 && m > 0 ==> |s| > 0 && s[0] == cands[0].id)
      && forall x :: x in s ==> exists c :: c in cands && c.id == x
  {
    SelectedToFacts(data, cands, m, |cands|);
  }

  lemma {:induction false} SelectedToGrows(data: seq<Vec>, cands: seq<Candidate>, m: nat, k: nat, n: nat)
    requires k <= n <= |cands|
    ensures SelectedTo(data, cands, m, k) <= SelectedTo(data, cands, m, n)
    decreases n
  {
    if k < n {
      SelectedToGrows(data, cands, m, k, n - 1);
    }
  }

  /** The heuristic spreads links: a candidate left out while there was room is
      closer to a selected neighbour than to the query. */
  lemma SelectedCovers(data: seq<Vec>, cands: seq<Candidate>, m: nat, k: nat)
    requires k < |cands| && cands[k].id !in Selected(data, cands, m)
    ensures |Selected(data, cands, m)| >= m || Crowded(data, Selected(data, cands, m), cands[k])
  {
    SelectedToGrows(data, cands, m, k, |cands|);
    SelectedToGrows(data, cands, m, k + 1, |cands|);
    var s, t := SelectedTo(data, cands, m, k), Selected(data, cands, m);
    assert forall x :: x in s ==> x in t;
    var s' := SelectedTo(data, cands, m, k + 1);
    assert forall x :: x in s' ==> x in t;
    var c := cands[k];
    assert s' == if |s| >= m || Crowded(data, s, c) then s else s + [c.id];
    assert (s + [c.id])[|s|] == c.id;
  }

  /** And a selected candidate is no closer to any neighbour selected before it. */
  lemma {:induction false} SelectedSpread(data: seq<Vec>, cands: seq<Candidate>, m: nat, n: nat, j: nat, i: nat)
    requires n <= |cands| && i < j < |SelectedTo(data, cands, m, n)|
    ensures exists k :: 0 <= k < n && cands[k].id == SelectedTo(data, cands, m, n)[j]
              && cands[k].dist <= Between(data, cands[k].id, SelectedTo(data, cands, m, n)[i])
  {
    var s := SelectedTo(data, cands, m, n - 1);
    if j < |s| {
      SelectedSpread(data, cands, m, n - 1, j, i);
    } else {
      assert s[i] in s && !Crowded(data, s, cands[n - 1]);
      assert cands[n - 1].id == SelectedTo(data, cands, m, n)[j];
    }
  }

  method SelectNeighbors(data: seq<Vec>, cands: seq<Candidate>, m: nat) returns (selected: seq<nat>)
    ensures selected == Selected(data, cands, m)
  {
    selected := [];
    for n := 0 to |cands|
      invariant selected == SelectedTo(data, cands, m, n)
    {
      var c := cands[n];
      if |selected| < m {
        var good := true;
        for i := 0 to |selected|
          invariant good <==> !Crowded(data, selected[..i], c)
        {
          assert selected[..i + 1] == selected[..i] + [selected[i]];
          if Between(data, c.id, selected[i]) < c.dist {
            good := false;
          }
          assert selected[i] in selected[..i + 1];
        }
        assert selected[..|selected|] == selected;
        if good {
          selected := selected + [c.id];
        }
      }
    }
  }

  // ---------- back links ----------

  ghost function Rated(data: seq<Vec>, node: nat, friends: seq<nat>): (r: seq<Candidate>)
    ensures |r| == |friends|
  {
    seq(|friends|, i requires 0 <= i < |friends| => Candidate(friends[i], Between(data, node, friends[i])))
  }

  /** r re-selects friends down to m: the heuristic run over them, nearest first. */
  ghost predicate IsPruned(data: seq<Vec>, node: nat, friends: seq<nat>, m: nat, r: seq<nat>) {
    exists cands :: Rearranged(Rated(data, node, friends), cands) && SortedBy(CLOSER, cands)
                    && r == Selected(data, cands, m)
  }

  method PruneConnections(data: seq<Vec>, node: nat, friends: seq<nat>, m: nat) returns (r: seq<nat>)
    ensures IsPruned(data, node, friends, m, r)
  {
    var cands: seq<Candidate> := [];
    for i := 0 to |friends|
      invariant |cands| == i
      invariant forall k :: 0 <= k < i ==> cands[k] == Candidate(friends[k], Between(data, node, friends[k]))
    {
      cands := cands + [Candidate(friends[i], Between(data, node, friends[i]))];
    }
    assert cands == Rated(data, node, friends);
    CandidateOrders();
    var sorted := SortBy(CLOSER, cands);
    r := SelectNeighbors(data, sorted, m);
  }

  lemma RatedDistinct(data: seq<Vec>, node: nat, friends: seq<nat>, cands: seq<Candidate>)
    requires Distinct(friends) && Rearranged(Rated(data, node, friends), cands)
    ensures |cands| == |friends| && DistinctIds(cands) && forall c :: c in cands ==> c.id in friends
  {
    var rated := Rated(data, node, friends);
    SameMembers(rated, cands);
    assert Distinct(rated);
    RearrangedDistinct(rated, cands);
    forall c | c in cands ensures c.id in friends && c == Candidate(c.id, Between(data, node, c.id)) {
      assert c in rated;
    }
    forall i, j | 0 <= i < j < |cands| ensures cands[i].id != cands[j].id {
      assert cands[i] in cands && cands[j] in cands;
    }
  }

  lemma PrunedFacts(data: seq<Vec>, node: nat, friends: seq<nat>, m: nat, r: seq<nat>)
    requires IsPruned(data, node, friends, m, r) && Distinct(friends)
    ensures |r| <= m && Distinct(r) && (forall x :: x in r ==> x in friends)
    ensures |friends| > 0 && m > 0 ==> |r| > 0
  {
    var cands :| Rearranged(Rated(data, node, friends), cands) && SortedBy(CLOSER, cands)
                 && r == Selected(data, cands, m);
    RatedDistinct(data, node, friends, cands);
    SelectedFacts(data, cands, m);
  }

  /** What adding the back link to cur makes of node i's list. */
  ghost predicate LinkedBack(data: seq<Vec>, f: seq<nat>, f': seq<nat>, cur: nat, i: nat, cap: nat) {
    if |f| + 1 <= cap then f' == f + [cur] else IsPruned(data, i, f + [cur], cap, f')
  }

  lemma LinkedBackFacts(data: seq<Vec>, f: seq<nat>, f': seq<nat>, cur: nat, i: nat, cap: nat)
    requires LinkedBack(data, f, f', cur, i, cap) && Distinct(f) && cur !in f && cap > 0
    ensures |f'| <= cap && Distinct(f') && |f'| > 0 && forall x :: x in f' ==> x in f || x == cur
  {
    assert Distinct(f + [cur]);
    if |f| + 1 > cap {
      PrunedFacts(data, i, f + [cur], cap, f');
    }
  }

  // ---------- the invariant of the link structure ----------

  function Cap(l: nat, m: nat, m0: nat): nat { if l == 0 then m0 else m }

  ghost predicate ListOk(nodes: seq<Node>, i: nat, l: nat, f: seq<nat>, cap: nat) {
    |f| <= cap && Distinct(f) && i !in f && forall x :: x in f ==> x < |nodes| && l <= nodes[x].level
  }

  ghost predicate NodesOk(nodes: seq<Node>, m: nat, m0: nat) {
    && (forall i :: 0 <= i < |nodes| ==> |nodes[i].friends| == nodes[i].level + 1)
    && (forall i, l :: 0 <= i < |nodes| && 0 <= l <= nodes[i].level ==>
          ListOk(nodes, i, l, LinksOf(nodes, l, i), Cap(l, m, m0)))
  }

  /** The structure kept over every run of Add. */
  ghost predicate GraphOk(nodes: seq<Node>, entry: int, top: nat, m: nat, m0: nat) {
    && NodesOk(nodes, m, m0)
    && (entry == -1 <==> |nodes| == 0)
    && (|nodes| > 0 ==>
          && 0 <= entry < |nodes| && nodes[entry].level == top
          && forall i :: 0 <= i < |nodes| ==> nodes[i].level <= top)
    && (|nodes| >= 2 ==> forall i :: 0 <= i < |nodes| ==> LinksOf(nodes, 0, i) != [])
  }

  lemma OkIsSound(nodes: seq<Node>, m: nat, m0: nat, l: nat)
    requires NodesOk(nodes, m, m0)
    ensures SoundLayer(nodes, l)
  {
    forall i, x | x in LinksOf(nodes, l, i) ensures OnLayer(nodes, l, x) {
      assert ListOk(nodes, i, l, LinksOf(nodes, l, i), Cap(l, m, m0));
    }
  }

  // ---------- the descent through the layers ----------

  /** eps[k] is where the greedy descents from the entry node on the top layer stand after
      k layers, the last of them on layer l. */
  ghost predicate IsDescended(nodes: seq<Node>, dist: nat -> real, entry: int, top: nat, l: nat, eps: seq<nat>) {
    && l <= top && |eps| == top - l + 1 && eps[0] == entry
    && forall k :: 0 < k < |eps| ==> Descends(nodes, top - k + 1, dist, eps[k - 1], eps[k])
  }

  /** The descents from the entry node end at ep when they reach layer l. */
  ghost predicate Descended(nodes: seq<Node>, dist: nat -> real, entry: int, top: nat, l: nat, ep: nat) {
    exists eps :: IsDescended(nodes, dist, entry, top, l, eps) && eps[|eps| - 1] == ep
  }

  lemma DescendedStarts(nodes: seq<Node>, dist: nat -> real, entry: nat, top: nat)
    ensures Descended(nodes, dist, entry, top, top, entry)
  {
    assert IsDescended(nodes, dist, entry, top, top, [entry]);
  }

  lemma DescendedNext(nodes: seq<Node>, dist: nat -> real, entry: int, top: nat, l: nat, ep: nat, best: nat)
    requires Descended(nodes, dist, entry, top, l, ep) && l > 0 && Descends(nodes, l, dist, ep, best)
    ensures Descended(nodes, dist, entry, top, l - 1, best)
  {
    hide Descends;
    var eps :| IsDescended(nodes, dist, entry, top, l, eps) && eps[|eps| - 1] == ep;
    assert IsDescended(nodes, dist, entry, top, l - 1, eps + [best]);
  }

  lemma {:induction false} DescendedPrefix(nodes: seq<Node>, dist: nat -> real, entry: int, top: nat, l: nat,
                                           a: seq<nat>, b: seq<nat>, k: nat)
    requires IsDescended(nodes, dist, entry, top, l, a) && IsDescended(nodes, dist, entry, top, l, b) && k < |a|
    ensures a[k] == b[k]
  {
    hide Descends;
    if k > 0 {
      DescendedPrefix(nodes, dist, entry, top, l, a, b, k - 1);
      DescentIsUnique(nodes, top - k + 1, dist, a[k - 1], a[k], b[k]);
    }
  }

  /** Graph and query determine where the search on a layer starts. */
  lemma DescendedIsUnique(nodes: seq<Node>, dist: nat -> real, entry: int, top: nat, l: nat, ep: nat, ep': nat)
    requires Descended(nodes, dist, entry, top, l, ep) && Descended(nodes, dist, entry, top, l, ep')
    ensures ep == ep'
  {
    var a :| IsDescended(nodes, dist, entry, top, l, a) && a[|a| - 1] == ep;
    var b :| IsDescended(nodes, dist, entry, top, l, b) && b[|b| - 1] == ep';
    DescendedPrefix(nodes, dist, entry, top, l, a, b, |a| - 1);
  }

  // ---------- what one insertion does to one layer ----------

  /** Layer l of the graph before, searched from ep, gives the candidates whose selection
      becomes the new node's list; the selected nodes get back links; nothing else on the
      layer changes. The nearest candidate is where the layer below is searched from. */
  ghost predicate LayerInserted(before: seq<Node>, after: seq<Node>, data: seq<Vec>, q: Vec,
                                cur: nat, l: nat, ef: nat, cap: nat, ep: nat, next: nat)
  {
    exists visited: set<nat>, cands: seq<Candidate> ::
      && OnLayer(before, l, ep)
      && LayerResult(before, l, DistTo(data, q), ep, ef, ALL, visited, cands)
      && LayerLinked(before, after, data, Selected(data, cands, cap), cur, l, cap)
      && |cands| > 0 && next == cands[0].id
  }

  ghost predicate LayerLinked(before: seq<Node>, after: seq<Node>, data: seq<Vec>, neighbors: seq<nat>,
                              cur: nat, l: nat, cap: nat)
  {
    && LinksOf(after, l, cur) == neighbors
    && forall i :: i != cur ==>
         if i in neighbors then LinkedBack(data, LinksOf(before, l, i), LinksOf(after, l, i), cur, i, cap)
         else LinksOf(after, l, i) == LinksOf(before, l, i)
  }

  ghost predicate SameLayer(before: seq<Node>, after: seq<Node>, l: nat) {
    forall i :: LinksOf(after, l, i) == LinksOf(before, l, i)
  }

  /** after has before's nodes and list counts, plus one node of the given level. */
  ghost predicate Extends(before: seq<Node>, after: seq<Node>, level: nat) {
    && |after| == |before| + 1
    && (forall i :: 0 <= i < |before| ==>
          after[i].level == before[i].level && |after[i].friends| == |before[i].friends|)
    && after[|before|].level == level && |after[|before|].friends| == level + 1
  }

  function Lower(a: nat, b: nat): nat { if a < b then a else b }

  /** On every shared layer l the insertion searches from eps[l + 1] and ends nearest at
      eps[l]; the first search starts where the descent from the entry node ends. */
  ghost predicate InsertedFrom(before: seq<Node>, entry: int, top: nat, after: seq<Node>, data: seq<Vec>, q: Vec,
                               level: nat, ef: nat, m: nat, m0: nat, eps: seq<nat>)
  {
    && |eps| == Lower(level, top) + 2
    && Descended(before, DistTo(data, q), entry, top, Lower(level, top), eps[|eps| - 1])
    && forall l: nat :: l <= Lower(level, top) ==>
         LayerInserted(before, after, data, q, |before|, l, ef, Cap(l, m, m0), eps[l + 1], eps[l])
  }

  /** The whole effect of an insertion on the links. */
  ghost predicate Inserted(before: seq<Node>, entry: int, top: nat, after: seq<Node>, data: seq<Vec>, q: Vec,
                           level: nat, ef: nat, m: nat, m0: nat)
  {
    && Extends(before, after, level)
    && (forall l: nat :: l > Lower(level, top) ==> SameLayer(before, after, l))
    && exists eps :: InsertedFrom(before, entry, top, after, data, q, level, ef, m, m0, eps)
  }

  lemma LinkedStaysOk(before: seq<Node>, after: seq<Node>, data: seq<Vec>, nbs: seq<nat>,
                      level: nat, l: nat, cap: nat, i: nat)
    requires Extends(before, after, level) && cap > 0 && l <= level
    requires |nbs| <= cap && Distinct(nbs) && forall x :: x in nbs ==> x < |before| && l <= before[x].level
    requires LayerLinked(before, after, data, nbs, |before|, l, cap)
    requires i < |after|
    requires i < |before| ==> ListOk(before, i, l, LinksOf(before, l, i), cap)
    ensures ListOk(after, i, l, LinksOf(after, l, i), cap)
    ensures LinksOf(before, l, i) != [] || i in nbs ==> LinksOf(after, l, i) != []
  {
    hide IsPruned;
    if i < |before| && i in nbs {
      LinkedBackFacts(data, LinksOf(before, l, i), LinksOf(after, l, i), |before|, i, cap);
    }
  }

  lemma CandsAreNodes(nodes: seq<Node>, l: nat, dist: nat -> real, ep: nat, ef: nat,
                      visited: set<nat>, cands: seq<Candidate>)
    requires LayerResult(nodes, l, dist, ep, ef, ALL, visited, cands) && ef > 0
    ensures |cands| > 0 && DistinctIds(cands) && forall c :: c in cands ==> OnLayer(nodes, l, c.id)
  {
    assert ep in Ids(cands) || |cands| == ef;
  }

  /** On every layer an insertion touches: the lists stay sound, no list is emptied,
      the new node gets neighbours, and each of them a link. */
  lemma LayerStaysOk(before: seq<Node>, after: seq<Node>, data: seq<Vec>, q: Vec,
                     level: nat, l: nat, ef: nat, m: nat, m0: nat, ep: nat, next: nat)
    requires NodesOk(before, m, m0) && Extends(before, after, level) && m > 0 && m0 > 0 && ef > 0
    requires LayerInserted(before, after, data, q, |before|, l, ef, Cap(l, m, m0), ep, next) && l <= level
    ensures forall i :: 0 <= i < |after| && l <= after[i].level ==>
              ListOk(after, i, l, LinksOf(after, l, i), Cap(l, m, m0))
    ensures forall i :: 0 <= i < |after| && LinksOf(before, l, i) != [] ==> LinksOf(after, l, i) != []
    ensures var nbs := LinksOf(after, l, |before|);
      nbs != [] && forall x :: x in nbs ==> x < |before| && LinksOf(after, l, x) != []
  {
    var cur, cap := |before|, Cap(l, m, m0);
    var visited: set<nat>, cands: seq<Candidate> :|
      && OnLayer(before, l, ep)
      && LayerResult(before, l, DistTo(data, q), ep, ef, ALL, visited, cands)
      && LayerLinked(before, after, data, Selected(data, cands, cap), cur, l, cap)
      && |cands| > 0 && next == cands[0].id;
    var nbs := Selected(data, cands, cap);
    CandsAreNodes(before, l, DistTo(data, q), ep, ef, visited, cands);
    SelectedFacts(data, cands, cap);
    hide LayerResult, Selected, ListOk, LayerInserted;
    assert forall x :: x in nbs ==> OnLayer(before, l, x);
    forall i | 0 <= i < |after| && (i == cur || l <= after[i].level)
      ensures ListOk(after, i, l, LinksOf(after, l, i), cap)
      ensures LinksOf(before, l, i) != [] || i in nbs ==> LinksOf(after, l, i) != []
    {
      LinkedStaysOk(before, after, data, nbs, level, l, cap, i);
    }
  }

  lemma SameStaysOk(before: seq<Node>, after: seq<Node>, level: nat, l: nat, m: nat, m0: nat)
    requires NodesOk(before, m, m0) && Extends(before, after, level) && SameLayer(before, after, l)
    ensures forall i :: 0 <= i < |after| && l <= after[i].level ==>
              ListOk(after, i, l, LinksOf(after, l, i), Cap(l, m, m0))
  {
    forall i | 0 <= i < |after| && l <= after[i].level
      ensures ListOk(after, i, l, LinksOf(after, l, i), Cap(l, m, m0))
    {
      if i < |before| {
        assert ListOk(before, i, l, LinksOf(before, l, i), Cap(l, m, m0));
      } else {
        assert LinksOf(before, l, i) == [];
      }
    }
  }

  lemma InsertedLayerIsOk(before: seq<Node>, entry: int, top: nat, after: seq<Node>, data: seq<Vec>, q: Vec,
                          level: nat, ef: nat, m: nat, m0: nat, eps: seq<nat>, l: nat)
    requires NodesOk(before, m, m0) && m > 0 && m0 > 0 && ef > 0 && Extends(before, after, level)
    requires l > Lower(level, top) ==> SameLayer(before, after, l)
    requires InsertedFrom(before, entry, top, after, data, q, level, ef, m, m0, eps)
    ensures forall i :: 0 <= i < |after| && l <= after[i].level ==>
              ListOk(after, i, l, LinksOf(after, l, i), Cap(l, m, m0))
  {
    hide NodesOk, SameLayer, ListOk, LayerInserted, Descended, Extends;
    if l <= Lower(level, top) {
      assert l <= level;
      LayerStaysOk(before, after, data, q, level, l, ef, m, m0, eps[l + 1], eps[l]);
    } else {
      SameStaysOk(before, after, level, l, m, m0);
    }
  }

  /** Every list of the new graph is in order, and on layer 0 none is empty. */
  lemma InsertionKeepsLists(before: seq<Node>, entry: int, top: nat, after: seq<Node>, data: seq<Vec>, q: Vec,
                            level: nat, ef: nat, m: nat, m0: nat)
    requires NodesOk(before, m, m0) && |before| > 0 && m > 0 && m0 > 0 && ef > 0
    requires |before| >= 2 ==> forall i :: 0 <= i < |before| ==> LinksOf(before, 0, i) != []
    requires Inserted(before, entry, top, after, data, q, level, ef, m, m0)
    ensures forall i, l :: 0 <= i < |after| && 0 <= l <= after[i].level ==>
              ListOk(after, i, l, LinksOf(after, l, i), Cap(l, m, m0))
    ensures forall i :: 0 <= i < |after| ==> LinksOf(after, 0, i) != []
  {
    var eps :| InsertedFrom(before, entry, top, after, data, q, level, ef, m, m0, eps);
    assert LayerInserted(before, after, data, q, |before|, 0, ef, Cap(0, m, m0), eps[1], eps[0]);
    hide NodesOk, LayerInserted, ListOk, Descended, InsertedFrom, SameLayer;
    forall i, l | 0 <= i < |after| && 0 <= l <= after[i].level
      ensures ListOk(after, i, l, LinksOf(after, l, i), Cap(l, m, m0))
    {
      InsertedLayerIsOk(before, entry, top, after, data, q, level, ef, m, m0, eps, l);
    }
    BaseStaysLinked(before, after, data, q, level, ef, m, m0, eps[1], eps[0]);
  }

  lemma BaseStaysLinked(before: seq<Node>, after: seq<Node>, data: seq<Vec>, q: Vec,
                        level: nat, ef: nat, m: nat, m0: nat, ep: nat, next: nat)
    requires NodesOk(before, m, m0) && Extends(before, after, level) && |before| > 0 && m > 0 && m0 > 0 && ef > 0
    requires |before| >= 2 ==> forall i :: 0 <= i < |before| ==> LinksOf(before, 0, i) != []
    requires LayerInserted(before, after, data, q, |before|, 0, ef, Cap(0, m, m0), ep, next)
    ensures forall i :: 0 <= i < |after| ==> LinksOf(after, 0, i) != []
  {
    LayerStaysOk(before, after, data, q, level, 0, ef, m, m0, ep, next);
    hide NodesOk, LayerInserted, ListOk;
    forall i | 0 <= i < |after| ensures LinksOf(after, 0, i) != [] {
      if |before| == 1 && i == 0 {
        var nbs := LinksOf(after, 0, |before|);
        assert nbs[0] in nbs;
      }
    }
  }

  /** One insertion keeps the whole structure. */
  lemma InsertionKeepsGraph(before: seq<Node>, entry: int, top: nat, after: seq<Node>, data: seq<Vec>, q: Vec,
                            level: nat, ef: nat, m: nat, m0: nat)
    requires GraphOk(before, entry, top, m, m0) && |before| > 0 && m > 0 && m0 > 0 && ef > 0
    requires Inserted(before, entry, top, after, data, q, level, ef, m, m0)
    ensures GraphOk(after, if level > top then |before| else entry, if level > top then level else top, m, m0)
  {
    hide ListOk, InsertedFrom, SameLayer;
    InsertionKeepsLists(before, entry, top, after, data, q, level, ef, m, m0);
  }

  // ---------- the index ----------

  function SetLinks(nodes: seq<Node>, l: nat, i: nat, f: seq<nat>): (r: seq<Node>)
    requires OnLayer(nodes, l, i)
    ensures |r| == |nodes|
    ensures forall k :: 0 <= k < |nodes| ==> r[k].level == nodes[k].level && |r[k].friends| == |nodes[k].friends|
    ensures forall l', k :: LinksOf(r, l', k) == if l' == l && k == i then f else LinksOf(nodes, l', k)
  {
    nodes[i := nodes[i].(friends := nodes[i].friends[l := f])]
  }

  /** One search hit. */
  datatype Result = Result(id: string, score: real)

  /** The filter by ordinal that SearchFiltered builds from a filter by id. */
  function Accepts(ids: seq<string>, accept: string -> bool): nat -> bool {
    (i: nat) => i < |ids| && accept(ids[i])
  }

  function HitOf(ids: seq<string>, c: Candidate): Result {
    Result(if c.id < |ids| then ids[c.id] else "", 1.0 - c.dist)
  }

  ghost function Results(ids: seq<string>, cands: seq<Candidate>): (r: seq<Result>)
    ensures |r| == |cands| && forall i :: 0 <= i < |r| ==> r[i] == HitOf(ids, cands[i])
  {
    seq(|cands|, i requires 0 <= i < |cands| => HitOf(ids, cands[i]))
  }

  lemma ResultsSnoc(ids: seq<string>, cands: seq<Candidate>, c: Candidate)
    ensures Results(ids, cands + [c]) == Results(ids, cands) + [HitOf(ids, c)]
  {
  }

  // ---------- distances and cosines ----------

  /** Row i of the index is the normalized i-th vector handed to Add. */
  ghost predicate RowsOf(norm: Vec -> real, dim: nat, given: seq<Vec>, data: seq<Vec>) {
    |given| == |data| && forall i :: 0 <= i < |given| ==> |given[i]| <= dim && data[i] == Normalized(norm, given[i], dim)
  }

  /** The cosine between the query and the o-th vector, both extended with zeros. */
  ghost function CosineOf(norm: Vec -> real, dim: nat, query: Vec, given: seq<Vec>, o: nat): real {
    if o < |given| then Cosine(norm, Pad(query, dim), Pad(given[o], dim)) else 0.0
  }

  /** Distances in the index are one minus the cosine of the vectors that were handed in: those
      from a query, and those between two nodes. */
  lemma DistanceIsCosine(norm: Vec -> real, dim: nat, query: Vec, given: seq<Vec>, data: seq<Vec>, a: nat, b: nat)
    requires Euclidean(norm) && RowsOf(norm, dim, given, data) && |query| <= dim && a < |data| && b < |data|
    ensures DistTo(data, Normalized(norm, query, dim))(a) == 1.0 - CosineOf(norm, dim, query, given, a)
    ensures Between(data, a, b) == 1.0 - CosineOf(norm, dim, given[a], given, b)
  {
    NormalizedDot(norm, query, given[a], dim);
    NormalizedDot(norm, given[a], given[b], dim);
    hide Dot, Cosine, Euclidean;
  }

  /** The hits are stored vectors with their cosines, best first; for vectors of full length
      the score times both lengths is the inner product. */
  ghost predicate HitsByCosine(norm: Vec -> real, dim: nat, query: Vec, given: seq<Vec>, ids: seq<string>,
                               top: seq<Candidate>, out: seq<Result>)
  {
    && |ids| == |given| && |out| == |top| && DistinctIds(top)
    && (forall i :: 0 <= i < |out| ==> IsHit(norm, dim, query, given, ids, top[i].id, out[i]))
    && (forall i, j :: 0 <= i < j < |out| ==> out[i].score >= out[j].score)
  }

  ghost predicate IsHit(norm: Vec -> real, dim: nat, query: Vec, given: seq<Vec>, ids: seq<string>, o: nat, hit: Result) {
    && o < |ids| == |given| && hit.id == ids[o] && hit.score == CosineOf(norm, dim, query, given, o)
    && (|query| == dim == |given[o]| ==> norm(query) * norm(given[o]) * hit.score == Dot(query, given[o]))
  }

  /** No accepted node of the pool that is not a hit has a larger cosine than a hit. */
  ghost predicate NoneCloser(norm: Vec -> real, dim: nat, query: Vec, given: seq<Vec>, accept: nat -> bool,
                             pool: set<nat>, top: seq<Candidate>, out: seq<Result>)
  {
    forall o, i :: o in pool && accept(o) && o !in Ids(top) && 0 <= i < |out| ==>
      CosineOf(norm, dim, query, given, o) <= out[i].score
  }

  lemma HitIs(norm: Vec -> real, dim: nat, query: Vec, given: seq<Vec>, data: seq<Vec>, ids: seq<string>, c: Candidate)
    requires Euclidean(norm) && RowsOf(norm, dim, given, data) && |query| <= dim && c.id < |data| == |ids|
    requires c.dist == DistTo(data, Normalized(norm, query, dim))(c.id)
    ensures IsHit(norm, dim, query, given, ids, c.id, HitOf(ids, c))
  {
    DistanceIsCosine(norm, dim, query, given, data, c.id, c.id);
    if |query| == dim == |given[c.id]| {
      PadFull(query);
      PadFull(given[c.id]);
      CosineProduct(norm, query, given[c.id]);
    }
    hide Dot, Cosine, Euclidean, Normalized, Pad;
  }

  /** What a layer result leaves out of its first k is no closer than any of them. */
  lemma CutIsClosest(nodes: seq<Node>, dist: nat -> real, start: nat, width: nat, accept: nat -> bool, visited: set<nat>,
                     cands: seq<Candidate>, k: nat, o: nat, i: nat)
    requires LayerResult(nodes, 0, dist, start, width, accept, visited, cands)
    requires o in visited && accept(o) && o !in Ids(Top(cands, k)) && i < |Top(cands, k)|
    ensures Top(cands, k)[i] == cands[i] && cands[i].dist <= dist(o)
  {
    var top := Top(cands, k);
    hide Reachable, Expanded, Closed, OnLayer;
    assert cands[i] in cands;
    if o in Ids(cands) {
      var c :| c in cands && c.id == o;
      var j :| 0 <= j < |cands| && cands[j] == c;
      assert forall x :: 0 <= x < |top| ==> top[x] == cands[x] && top[x].id in Ids(top);
      assert j >= |top|;
    }
  }

  lemma ResultParts(nodes: seq<Node>, dist: nat -> real, start: nat, width: nat, accept: nat -> bool, visited: set<nat>,
                    cands: seq<Candidate>, k: nat)
    requires LayerResult(nodes, 0, dist, start, width, accept, visited, cands)
    ensures var top := Top(cands, k);
            && DistinctIds(top) && (forall v :: v in visited ==> v < |nodes|)
            && (forall i :: 0 <= i < |top| ==> top[i].id < |nodes| && top[i].dist == dist(top[i].id))
            && forall i, j :: 0 <= i < j < |top| ==> top[i].dist <= top[j].dist
  {
    var top := Top(cands, k);
    assert forall i :: 0 <= i < |top| ==> top[i] == cands[i] && cands[i] in cands;
    hide Reachable, Expanded, Closed;
  }

  /** The k best of a layer result, in terms of the vectors handed in. */
  lemma TopByCosine(norm: Vec -> real, dim: nat, query: Vec, given: seq<Vec>, data: seq<Vec>, ids: seq<string>,
                    nodes: seq<Node>, start: nat, width: nat, accept: nat -> bool, visited: set<nat>,
                    cands: seq<Candidate>, k: nat)
    requires Euclidean(norm) && RowsOf(norm, dim, given, data) && |query| <= dim && |given| == |data| == |ids| == |nodes|
    requires LayerResult(nodes, 0, DistTo(data, Normalized(norm, query, dim)), start, width, accept, visited, cands)
    ensures HitsByCosine(norm, dim, query, given, ids, Top(cands, k), Results(ids, Top(cands, k)))
    ensures NoneCloser(norm, dim, query, given, accept, visited, Top(cands, k), Results(ids, Top(cands, k)))
  {
    var dist, top := DistTo(data, Normalized(norm, query, dim)), Top(cands, k);
    var out := Results(ids, top);
    ResultParts(nodes, dist, start, width, accept, visited, cands, k);
    hide CosineOf, Normalized, DistTo, RowsOf, Euclidean, LayerResult, Top, IsHit;
    forall i | 0 <= i < |top| ensures IsHit(norm, dim, query, given, ids, top[i].id, out[i]) {
      HitIs(norm, dim, query, given, data, ids, top[i]);
    }
    forall o, i | o in visited && accept(o) && o !in Ids(top) && 0 <= i < |out|
      ensures CosineOf(norm, dim, query, given, o) <= out[i].score
    {
      DistanceIsCosine(norm, dim, query, given, data, o, o);
      CutIsClosest(nodes, dist, start, width, accept, visited, cands, k, o, i);
    }
  }

  /** In the wide case every accepted reachable node was visited, or is a hit. */
  lemma WideByCosine(norm: Vec -> real, dim: nat, query: Vec, given: seq<Vec>, data: seq<Vec>, ids: seq<string>,
                     nodes: seq<Node>, start: nat, width: nat, accept: nat -> bool, visited: set<nat>,
                     cands: seq<Candidate>, k: nat)
    requires NoneCloser(norm, dim, query, given, accept, visited, Top(cands, k), Results(ids, Top(cands, k)))
    requires LayerResult(nodes, 0, DistTo(data, Normalized(norm, query, dim)), start, width, accept, visited, cands)
    requires |AcceptedReach(nodes, 0, start, accept)| <= width
    ensures NoneCloser(norm, dim, query, given, accept, AcceptedReach(nodes, 0, start, accept), Top(cands, k), Results(ids, Top(cands, k)))
  {
    WideSearchIsExhaustive(nodes, 0, DistTo(data, Normalized(norm, query, dim)), start, width, accept, visited, cands);
    hide CosineOf, AcceptedReach, Normalized, DistTo, Expanded, Closed, Reachable;
    forall o | o in AcceptedReach(nodes, 0, start, accept) ensures o in visited {
      assert o in Ids(cands);
    }
  }

  lemma RowsNext(norm: Vec -> real, dim: nat, given: seq<Vec>, data: seq<Vec>, vec: Vec)
    requires RowsOf(norm, dim, given, data) && |vec| <= dim
    ensures RowsOf(norm, dim, given + [vec], data + [Normalized(norm, vec, dim)])
  {
    hide Normalized;
  }

  /** Every id has an ordinal, and every ordinal in the map is one of its id. */
  ghost predicate OrdsOk(ids: seq<string>, idOrd: map<string, nat>) {
    && (forall i :: 0 <= i < |ids| ==> ids[i] in idOrd)
    && (forall id :: id in idOrd ==> idOrd[id] < |ids| && ids[idOrd[id]] == id)
  }

  lemma OrdsNext(ids: seq<string>, idOrd: map<string, nat>, id: string)
    requires OrdsOk(ids, idOrd)
    ensures OrdsOk(ids + [id], idOrd[id := |ids|])
  {
  }

  lemma FirstNode(level: nat, m: nat, m0: nat)
    ensures GraphOk([Node(level, seq(level + 1, _ => []))], 0, level, m, m0)
  {
  }

  class Hnsw {
    const dim: nat
    const m: nat
    const m0: nat
    const efCons: nat
    const norm: Vec -> real
    var data: seq<Vec>
    /** The vectors as they were handed in. */
    ghost var given: seq<Vec>
    var ids: seq<string>
    var idOrd: map<string, nat>
    var nodes: seq<Node>
    var entry: int
    var top: nat

    ghost predicate Valid()
      reads this
    {
      && m > 0 && m0 == 2 * m && efCons > 0
      && |ids| == |nodes| && GraphOk(nodes, entry, top, m, m0) && Stored()
    }

    /** The rows and their ids. */
    ghost predicate Stored()
      reads this
    {
      && |data| == |ids| && (forall i :: 0 <= i < |data| ==> |data[i]| == dim)
      && OrdsOk(ids, idOrd) && RowsOf(norm, dim, given, data)
    }

    constructor (dim: nat, cfgM: int, cfgEf: int, norm: Vec -> real)
      ensures Valid() && nodes == [] && ids == [] && data == [] && given == [] && idOrd == map[]
      ensures this.dim == dim && this.norm == norm
      ensures m == (if cfgM <= 0 then 16 else cfgM) && efCons == if cfgEf <= 0 then 200 else cfgEf
    {
      this.dim, this.norm := dim, norm;
      m := if cfgM <= 0 then 16 else cfgM;
      m0 := 2 * (if cfgM <= 0 then 16 else cfgM);
      efCons := if cfgEf <= 0 then 200 else cfgEf;
      data, given, ids, idOrd, nodes, entry, top := [], [], [], map[], [], -1, 0;
    }

    /** Add: append the vector, descend to the new node's level, then link it on every
        level it shares with the old graph. The level comes from a random generator. */
    method Add(id: string, vec: Vec, level: nat) returns (ord: nat)
      requires Valid() && |vec| <= dim
      modifies this
      ensures Valid()
      ensures ord == |old(ids)| && ids == old(ids) + [id] && idOrd == old(idOrd)[id := ord]
      ensures data == old(data) + [Normalized(norm, vec, dim)] && given == old(given) + [vec]
      ensures old(nodes) == [] ==> nodes == [Node(level, seq(level + 1, _ => []))] && entry == 0 && top == level
      ensures old(nodes) != [] ==>
                && Inserted(old(nodes), old(entry), old(top), nodes, data, data[ord], level, efCons, m, m0)
                && entry == (if level > old(top) then ord else old(entry))
                && top == if level > old(top) then level else old(top)
    {
      NoEntryNoNodes();
      ghost var before := nodes;
      var q := Normalized(norm, vec, dim);
      ord := AppendRow(id, vec);
      nodes := nodes + [Node(level, seq(level + 1, _ => []))];
      FirstNode(level, m, m0);
      hide GraphOk, Normalized, Inserted, Stored;
      if entry == -1 {
        entry, top := ord, level;
        assert nodes == [Node(level, seq(level + 1, _ => []))];
        return;
      }
      InsertNode(before, q, level);
    }

    method AppendRow(id: string, vec: Vec) returns (ord: nat)
      requires Stored() && |vec| <= dim
      modifies this`data, this`given, this`ids, this`idOrd
      ensures Stored() && ord == |old(ids)| && ids == old(ids) + [id] && idOrd == old(idOrd)[id := ord]
      ensures data == old(data) + [Normalized(norm, vec, dim)] && given == old(given) + [vec]
    {
      ord := |ids|;
      OrdsNext(ids, idOrd, id);
      RowsNext(norm, dim, given, data, vec);
      hide OrdsOk, RowsOf;
      data, ids, idOrd := data + [Normalized(norm, vec, dim)], ids + [id], idOrd[id := ord];
      given := given + [vec];
    }

    lemma StoredSizes()
      requires Valid()
      ensures RowsOf(norm, dim, given, data) && |given| == |data| == |ids| == |nodes|
    {
      hide GraphOk, OrdsOk;
    }

    lemma NoEntryNoNodes()
      requires Valid()
      ensures entry == -1 <==> nodes == []
    {
    }

    /** The part of Add behind the first node: linking, and the new entry point. */
    method InsertNode(ghost before: seq<Node>, q: Vec, level: nat)
      requires m > 0 && m0 == 2 * m && efCons > 0 && |before| > 0 && GraphOk(before, entry, top, m, m0)
      requires nodes == before + [Node(level, seq(level + 1, _ => []))]
      modifies this`nodes, this`entry, this`top
      ensures Inserted(before, old(entry), old(top), nodes, data, q, level, efCons, m, m0)
      ensures |nodes| == |before| + 1 && GraphOk(nodes, entry, top, m, m0)
      ensures entry == (if level > old(top) then |before| else old(entry))
      ensures top == if level > old(top) then level else old(top)
    {
      assert NodesOk(before, m, m0);
      hide GraphOk, NodesOk, InsertedFrom, SameLayer;
      var cur := |nodes| - 1;
      InsertLinks(before, q, level);
      InsertionKeepsGraph(before, entry, top, nodes, data, q, level, efCons, m, m0);
      if level > top {
        top, entry := level, cur;
      }
    }

    /** The layered part of Add: greedy descent to the new node's level, then search,
        selection and linking on every shared level. */
    method InsertLinks(ghost before: seq<Node>, q: Vec, level: nat)
      requires m > 0 && m0 == 2 * m && efCons > 0
      requires |before| > 0 && GraphOk(before, entry, top, m, m0) && NodesOk(before, m, m0)
      requires nodes == before + [Node(level, seq(level + 1, _ => []))]
      modifies this`nodes
      ensures Inserted(before, entry, top, nodes, data, q, level, efCons, m, m0)
    {
      NewNodeUnlinked(before, nodes, level);
      var ep, start := DescendTo(before, q, level);
      hide LayerInserted, SameLayer, GraphOk, NodesOk, OnLayer, Extends, Descended;
      ghost var eps := InsertLevels(before, q, level, start, ep);
      InsertedForm(before, entry, top, nodes, data, q, level, eps, efCons, m, m0);
    }

    /** The insertion loop over the shared levels, highest first. */
    method InsertLevels(ghost before: seq<Node>, q: Vec, level: nat, start: nat, entryPoint: nat) returns (ghost eps: seq<nat>)
      requires m > 0 && m0 == 2 * m && efCons > 0 && start <= level
      requires NodesOk(before, m, m0) && Extends(before, nodes, level) && OnLayer(before, start, entryPoint)
      requires forall k: nat :: SameLayer(before, nodes, k)
      modifies this`nodes
      ensures Extends(before, nodes, level)
      ensures forall k: nat :: k > start ==> SameLayer(before, nodes, k)
      ensures |eps| == start + 2 && eps[start + 1] == entryPoint
      ensures forall k: nat :: k <= start ==>
                LayerInserted(before, nodes, data, q, |before|, k, efCons, Cap(k, m, m0), eps[k + 1], eps[k])
    {
      hide *;
      var ep, l: int := entryPoint, start;
      eps := seq(start + 2, _ => entryPoint);
      while l >= 0
        invariant -1 <= l <= start
        invariant l >= 0 ==> OnLayer(before, l, ep)
        invariant |eps| == start + 2 && eps[start + 1] == entryPoint && eps[l + 1] == ep
        invariant Extends(before, nodes, level)
        invariant forall k: nat :: k <= l || k > start ==> SameLayer(before, nodes, k)
        invariant forall k: nat :: l < k <= start ==>
                    LayerInserted(before, nodes, data, q, |before|, k, efCons, Cap(k, m, m0), eps[k + 1], eps[k])
      {
        ghost var was := nodes;
        ep := InsertLayer(before, q, level, l, ep);
        OtherLayers(before, was, nodes, data, q, level, l, start, efCons, m, m0, eps);
        eps := eps[l := ep];
        if l > 0 {
          LowerLayer(before, m, m0, l - 1, ep);
        }
        l := l - 1;
      }
    }

    /** Greedy descent on the layers above the new node, from the entry point down to
        the first layer the new node shares. */
    method DescendTo(ghost before: seq<Node>, q: Vec, level: nat) returns (ep: nat, l: nat)
      requires |before| > 0 && GraphOk(before, entry, top, m, m0)
      requires Extends(before, nodes, level) && forall k: nat :: SameLayer(before, nodes, k)
      ensures l == Lower(level, top) && OnLayer(before, l, ep)
      ensures Descended(before, DistTo(data, q), entry, top, l, ep)
    {
      var dist := DistTo(data, q);
      EntryOnLayers(before, entry, top, m, m0);
      ep, l := entry, top;
      DescendedStarts(before, dist, ep, top);
      hide Descended, Descends;
      while l > level
        invariant l <= top && (l == top || l >= level) && OnLayer(before, l, ep)
        invariant Descended(before, dist, entry, top, l, ep)
      {
        SameSound(before, nodes, level, m, m0, l);
        var best := GreedyDescend(nodes, dist, ep, l);
        StaysInOld(before, nodes, level, m, m0, l, ep, best);
        SameDescent(before, nodes, l, dist, ep, best);
        DescendedNext(before, dist, entry, top, l, ep, best);
        LowerLayer(before, m, m0, l - 1, best);
        ep, l := best, l - 1;
      }
    }

    /** One level of Add. */
    method InsertLayer(ghost before: seq<Node>, q: Vec, level: nat, l: nat, ep: nat) returns (ep': nat)
      requires m > 0 && m0 == 2 * m && efCons > 0 && l <= level
      requires NodesOk(before, m, m0) && Extends(before, nodes, level)
      requires SameLayer(before, nodes, l) && OnLayer(before, l, ep)
      modifies this`nodes
      ensures Extends(before, nodes, level)
      ensures forall k, i :: k != l ==> LinksOf(nodes, k, i) == LinksOf(old(nodes), k, i)
      ensures LayerInserted(before, nodes, data, q, |before|, l, efCons, Cap(l, m, m0), ep, ep')
      ensures OnLayer(before, l, ep')
    {
      var cur := |nodes| - 1;
      ghost var visited;
      var cands;
      SameSound(before, nodes, level, m, m0, l);
      cands, visited := SearchLayerFiltered(nodes, DistTo(data, q), ep, efCons, l, ALL);
      ResultTransfers(before, nodes, level, m, m0, l, DistTo(data, q), ep, efCons, visited, cands);
      var maxConn := Cap(l, m, m0);
      var neighbors := SelectNeighbors(data, cands, maxConn);
      CandsAreNodes(before, l, DistTo(data, q), ep, efCons, visited, cands);
      SelectedFacts(data, cands, maxConn);
      hide LayerResult, Selected, NodesOk, SearchInv, LinkedBack;
      assert forall x :: x in neighbors ==> OnLayer(before, l, x);
      LinkLayer(before, neighbors, level, cur, l, maxConn);
      ep' := ep;
      if |cands| > 0 {
        ep' := cands[0].id;
        assert cands[0] in cands;
      }
    }

    /** Greedy descent from the entry point to layer 0. */
    method DescendToBase(q: Vec) returns (ep: nat)
      requires Valid() && nodes != []
      ensures OnLayer(nodes, 0, ep) && Descended(nodes, DistTo(data, q), entry, top, 0, ep)
      ensures DistTo(data, q)(ep) <= DistTo(data, q)(entry)
    {
      var dist := DistTo(data, q);
      EntryOnLayers(nodes, entry, top, m, m0);
      ep := entry;
      var l: nat := top;
      assert NodesOk(nodes, m, m0);
      DescendedStarts(nodes, dist, ep, top);
      hide GraphOk, NodesOk, Descended, Descends;
      while l > 0
        invariant OnLayer(nodes, l, ep) && dist(ep) <= dist(entry)
        invariant Descended(nodes, dist, entry, top, l, ep)
      {
        OkIsSound(nodes, m, m0, l);
        var best := GreedyDescend(nodes, dist, ep, l);
        DescendedNext(nodes, dist, entry, top, l, ep, best);
        LowerLayer(nodes, m, m0, l - 1, best);
        ep, l := best, l - 1;
      }
    }

    /** SearchFiltered: the k best accepted hits of a layer-0 search of width max(ef, k)
        that starts where the descent ends. Unfiltered Search accepts every id. */
    method SearchFiltered(query: Vec, k: int, ef: int, accept: string -> bool)
      returns (out: seq<Result>, ghost start: nat, ghost visited: set<nat>, cands: seq<Candidate>)
      requires Valid() && |query| <= dim
      ensures nodes == [] || k <= 0 ==> out == []
      ensures nodes != [] && k > 0 ==>
                var width := if ef < k then k else ef;
                var dist := DistTo(data, Normalized(norm, query, dim));
                && OnLayer(nodes, 0, start) && Descended(nodes, dist, entry, top, 0, start)
                && LayerResult(nodes, 0, dist, start, width, Accepts(ids, accept), visited, cands)
                && out == Results(ids, Top(cands, k))
      // with enough width this is a brute-force scan of what the start node reaches
      ensures nodes != [] && k > 0 ==>
                var reach := AcceptedReach(nodes, 0, start, Accepts(ids, accept));
                |reach| <= (if ef < k then k else ef) ==>
                  KNearest(Top(cands, k), reach, DistTo(data, Normalized(norm, query, dim)), k)
      // in terms of the query and of the vectors handed to Add
      ensures nodes != [] && k > 0 && Euclidean(norm) ==>
                && HitsByCosine(norm, dim, query, given, ids, Top(cands, k), out)
                && NoneCloser(norm, dim, query, given, Accepts(ids, accept), visited, Top(cands, k), out)
                && (|AcceptedReach(nodes, 0, start, Accepts(ids, accept))| <= (if ef < k then k else ef) ==>
                      NoneCloser(norm, dim, query, given, Accepts(ids, accept),
                                 AcceptedReach(nodes, 0, start, Accepts(ids, accept)), Top(cands, k), out))
    {
      out, start, visited, cands := [], 0, {}, [];
      if entry == -1 || k <= 0 {
        return;
      }
      var width := if ef < k then k else ef;
      var q := Normalized(norm, query, dim);
      var ep := DescendToBase(q);
      start := ep;
      assert NodesOk(nodes, m, m0);
      hide Normalized, GraphOk, NodesOk, Accepts;
      OkIsSound(nodes, m, m0, 0);
      var dist, pred := DistTo(data, q), Accepts(ids, accept);
      hide *;
      cands, visited := SearchAndBound(dist, pred, ep, k, width);
      out := ToHits(Top(cands, k));
      if Euclidean(norm) {
        StoredSizes();
        TopByCosine(norm, dim, query, given, data, ids, nodes, start, width, pred, visited, cands, k);
        if |AcceptedReach(nodes, 0, start, pred)| <= width {
          WideByCosine(norm, dim, query, given, data, ids, nodes, start, width, pred, visited, cands, k);
        }
      }
    }

    /** The layer search of Search, with the brute-force guarantee for wide searches. */
    method SearchAndBound(dist: nat -> real, pred: nat -> bool, ep: nat, k: nat, width: nat)
      returns (cands: seq<Candidate>, ghost visited: set<nat>)
      requires 0 < k <= width && OnLayer(nodes, 0, ep) && SoundLayer(nodes, 0)
      ensures LayerResult(nodes, 0, dist, ep, width, pred, visited, cands)
      ensures |AcceptedReach(nodes, 0, ep, pred)| <= width ==>
                KNearest(Top(cands, k), AcceptedReach(nodes, 0, ep, pred), dist, k)
    {
      hide *;
      cands, visited := SearchLayerFiltered(nodes, dist, ep, width, 0, pred);
      if |AcceptedReach(nodes, 0, ep, pred)| <= width {
        WideSearchIsExhaustive(nodes, 0, dist, ep, width, pred, visited, cands);
        FirstOfNearest(cands, AcceptedReach(nodes, 0, ep, pred), dist, width, k);
      }
    }

    method ToHits(found: seq<Candidate>) returns (out: seq<Result>)
      ensures out == Results(ids, found)
    {
      out := [];
      for i := 0 to |found|
        invariant out == Results(ids, found[..i])
      {
        assert found[..i + 1] == found[..i] + [found[i]];
        ResultsSnoc(ids, found[..i], found[i]);
        out := out + [HitOf(ids, found[i])];
      }
      assert found[..|found|] == found;
    }

    /** Setting the new node's list and adding the back links, pruning over-full lists. */
    method LinkLayer(ghost before: seq<Node>, neighbors: seq<nat>, ghost level: nat, cur: nat, l: nat, cap: nat)
      requires Extends(before, nodes, level) && cur == |before| && l <= level
      requires SameLayer(before, nodes, l) && Distinct(neighbors)
      requires forall x :: x in neighbors ==> OnLayer(before, l, x)
      modifies this`nodes
      ensures Extends(before, nodes, level)
      ensures forall k, i :: k != l ==> LinksOf(nodes, k, i) == LinksOf(old(nodes), k, i)
      ensures LayerLinked(before, nodes, data, neighbors, cur, l, cap)
    {
      hide IsPruned;
      nodes := SetLinks(nodes, l, cur, neighbors);
      for k := 0 to |neighbors|
        invariant Extends(before, nodes, level)
        invariant forall j, i :: j != l ==> LinksOf(nodes, j, i) == LinksOf(old(nodes), j, i)
        invariant LinksOf(nodes, l, cur) == neighbors
        invariant forall i :: i != cur ==>
                    if i in neighbors[..k]
                    then LinkedBack(data, LinksOf(before, l, i), LinksOf(nodes, l, i), cur, i, cap)
                    else LinksOf(nodes, l, i) == LinksOf(before, l, i)
      {
        var nb := neighbors[k];
        assert nb in neighbors && nb < |before|;
        assert neighbors[..k + 1] == neighbors[..k] + [nb] && nb !in neighbors[..k];
        var f := LinksOf(nodes, l, nb) + [cur];
        if |f| > cap {
          f := PruneConnections(data, nb, f, cap);
        }
        assert LinkedBack(data, LinksOf(before, l, nb), f, cur, nb, cap);
        nodes := SetLinks(nodes, l, nb, f);
      }
      assert neighbors[..|neighbors|] == neighbors;
    }
  }

  /** With distinct ids, Ord is the inverse of the id list. */
  lemma OrdInverts(h: Hnsw, i: nat)
    requires h.Valid() && Distinct(h.ids) && i < |h.ids|
    ensures h.ids[i] in h.idOrd && h.idOrd[h.ids[i]] == i
  {
    var o := h.idOrd[h.ids[i]];
    assert h.ids[o] == h.ids[i];
  }

  // ---------- lemmas for the layer loop ----------

  lemma NewNodeUnlinked(before: seq<Node>, nodes: seq<Node>, level: nat)
    requires nodes == before + [Node(level, seq(level + 1, _ => []))]
    ensures Extends(before, nodes, level) && forall l: nat :: SameLayer(before, nodes, l)
  {
  }

  lemma EntryOnLayers(nodes: seq<Node>, entry: int, top: nat, m: nat, m0: nat)
    requires |nodes| > 0 && GraphOk(nodes, entry, top, m, m0)
    ensures 0 <= entry < |nodes| && OnLayer(nodes, top, entry)
  {
    assert nodes[entry].level == top;
  }

  lemma SameSound(before: seq<Node>, nodes: seq<Node>, level: nat, m: nat, m0: nat, l: nat)
    requires NodesOk(before, m, m0) && Extends(before, nodes, level) && SameLayer(before, nodes, l)
    ensures SoundLayer(nodes, l) && forall v :: OnLayer(before, l, v) ==> OnLayer(nodes, l, v)
  {
    OkIsSound(before, m, m0, l);
    forall i, x | x in LinksOf(nodes, l, i) ensures OnLayer(nodes, l, x) {
      assert x in LinksOf(before, l, i);
    }
  }

  lemma SamePaths(before: seq<Node>, nodes: seq<Node>, l: nat, a: nat, b: nat)
    requires SameLayer(before, nodes, l) && Reachable(nodes, l, a, b)
    ensures Reachable(before, l, a, b)
  {
    var p :| IsPath(nodes, l, p) && p[0] == a && p[|p| - 1] == b;
    assert IsPath(before, l, p);
  }

  /** A walk from an old node over old links stays among the old nodes of the layer. */
  lemma StaysInOld(before: seq<Node>, nodes: seq<Node>, level: nat, m: nat, m0: nat, l: nat, a: nat, b: nat)
    requires NodesOk(before, m, m0) && Extends(before, nodes, level) && SameLayer(before, nodes, l)
    requires OnLayer(before, l, a) && Reachable(nodes, l, a, b)
    ensures OnLayer(before, l, b) && Reachable(before, l, a, b)
  {
    OkIsSound(before, m, m0, l);
    SamePaths(before, nodes, l, a, b);
    ReachInLayer(before, l, a, b);
  }

  lemma LowerLayer(nodes: seq<Node>, m: nat, m0: nat, l: nat, i: nat)
    requires NodesOk(nodes, m, m0) && OnLayer(nodes, l + 1, i)
    ensures OnLayer(nodes, l, i)
  {
  }

  lemma ResultTransfers(before: seq<Node>, nodes: seq<Node>, level: nat, m: nat, m0: nat, l: nat,
                        dist: nat -> real, ep: nat, ef: nat, visited: set<nat>, cands: seq<Candidate>)
    requires NodesOk(before, m, m0) && Extends(before, nodes, level) && SameLayer(before, nodes, l)
    requires OnLayer(before, l, ep) && LayerResult(nodes, l, dist, ep, ef, ALL, visited, cands)
    ensures LayerResult(before, l, dist, ep, ef, ALL, visited, cands)
  {
    forall v | v in visited ensures OnLayer(before, l, v) && Reachable(before, l, ep, v) {
      StaysInOld(before, nodes, level, m, m0, l, ep, v);
    }
    assert forall v :: Expanded(nodes, l, visited, v) ==> Expanded(before, l, visited, v);
  }

  /** Linking one layer leaves what is known of the other layers alone. */
  lemma OtherLayers(before: seq<Node>, was: seq<Node>, nodes: seq<Node>, data: seq<Vec>, q: Vec,
                    level: nat, l: nat, start: nat, ef: nat, m: nat, m0: nat, eps: seq<nat>)
    requires l <= start && |eps| == start + 2
    requires forall k, i :: k != l ==> LinksOf(nodes, k, i) == LinksOf(was, k, i)
    requires forall k: nat :: k <= l || k > start ==> SameLayer(before, was, k)
    requires forall k: nat :: l < k <= start ==>
               LayerInserted(before, was, data, q, |before|, k, ef, Cap(k, m, m0), eps[k + 1], eps[k])
    ensures forall k: nat :: k < l || k > start ==> SameLayer(before, nodes, k)
    ensures forall k: nat :: l < k <= start ==>
              LayerInserted(before, nodes, data, q, |before|, k, ef, Cap(k, m, m0), eps[k + 1], eps[k])
  {
    forall k: nat | k < l || k > start ensures SameLayer(before, nodes, k) {
      assert SameLayer(before, was, k);
    }
    forall k: nat | l < k <= start
      ensures LayerInserted(before, nodes, data, q, |before|, k, ef, Cap(k, m, m0), eps[k + 1], eps[k])
    {
      InsertedFrame(before, was, nodes, data, q, |before|, k, ef, Cap(k, m, m0), eps[k + 1], eps[k]);
    }
  }

  lemma InsertedFrame(before: seq<Node>, was: seq<Node>, nodes: seq<Node>, data: seq<Vec>, q: Vec,
                      cur: nat, l: nat, ef: nat, cap: nat, ep: nat, next: nat)
    requires LayerInserted(before, was, data, q, cur, l, ef, cap, ep, next)
    requires forall i :: LinksOf(nodes, l, i) == LinksOf(was, l, i)
    ensures LayerInserted(before, nodes, data, q, cur, l, ef, cap, ep, next)
  {
    var visited: set<nat>, cands: seq<Candidate> :|
      && OnLayer(before, l, ep)
      && LayerResult(before, l, DistTo(data, q), ep, ef, ALL, visited, cands)
      && LayerLinked(before, was, data, Selected(data, cands, cap), cur, l, cap)
      && |cands| > 0 && next == cands[0].id;
    hide LayerResult, LinkedBack, Selected;
    assert LayerLinked(before, nodes, data, Selected(data, cands, cap), cur, l, cap);
  }

  lemma InsertedForm(before: seq<Node>, entry: int, top: nat, nodes: seq<Node>, data: seq<Vec>, q: Vec,
                     level: nat, eps: seq<nat>, ef: nat, m: nat, m0: nat)
    requires Extends(before, nodes, level) && |eps| == Lower(level, top) + 2
    requires forall k: nat :: k > Lower(level, top) ==> SameLayer(before, nodes, k)
    requires Descended(before, DistTo(data, q), entry, top, Lower(level, top), eps[|eps| - 1])
    requires forall k: nat :: k <= Lower(level, top) ==>
               LayerInserted(before, nodes, data, q, |before|, k, ef, Cap(k, m, m0), eps[k + 1], eps[k])
    ensures Inserted(before, entry, top, nodes, data, q, level, ef, m, m0)
  {
    hide LayerInserted, SameLayer, Descended;
    assert InsertedFrom(before, entry, top, nodes, data, q, level, ef, m, m0, eps);
  }

  lemma SameDescent(before: seq<Node>, nodes: seq<Node>, l: nat, dist: nat -> real, a: nat, b: nat)
    requires SameLayer(before, nodes, l) && Descends(nodes, l, dist, a, b)
    ensures Descends(before, l, dist, a, b)
  {
    var p :| IsDescent(nodes, l, dist, p) && p[0] == a && p[|p| - 1] == b;
    forall k | 0 < k < |p| ensures Steps(before, l, dist, p[k - 1], p[k]) {
      assert Steps(nodes, l, dist, p[k - 1], p[k]);
      var j: nat :| IsStep(nodes, l, dist, p[k - 1], j) && LinksOf(nodes, l, p[k - 1])[j] == p[k];
      assert IsStep(before, l, dist, p[k - 1], j);
    }
    assert IsDescent(before, l, dist, p);
  }
}
