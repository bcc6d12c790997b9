/** The link structure of the layered graph: neighbour lists per node and level,
    paths along one layer, and what is reachable on it. */
module Links {

  /** friends[l] is the neighbour list at level l; there is one list per level up to level. */
  datatype Node = Node(level: nat, friends: seq<seq<nat>>)

  function LinksOf(nodes: seq<Node>, level: nat, i: nat): seq<nat> {
    if i < |nodes| && level < |nodes[i].friends| then nodes[i].friends[level] else []
  }

  /** Node i has a neighbour list on this layer. */
  predicate OnLayer(nodes: seq<Node>, level: nat, i: nat) {
    i < |nodes| && level < |nodes[i].friends|
  }

  /** Every link of the layer ends at a node of the layer. */
  ghost predicate SoundLayer(nodes: seq<Node>, level: nat) {
    forall i, x :: x in LinksOf(nodes, level, i) ==> OnLayer(nodes, level, x)
  }

  ghost predicate IsPath(nodes: seq<Node>, level: nat, p: seq<nat>) {
    |p| > 0 && forall k :: 0 < k < |p| ==> p[k] in LinksOf(nodes, level, p[k - 1])
  }

  ghost predicate Reachable(nodes: seq<Node>, level: nat, a: nat, b: nat) {
    exists p :: IsPath(nodes, level, p) && p[0] == a && p[|p| - 1] == b
  }

  lemma ReachSelf(nodes: seq<Node>, level: nat, a: nat)
    ensures Reachable(nodes, level, a, a)
  {
    assert IsPath(nodes, level, [a]);
  }

  lemma ReachStep(nodes: seq<Node>, level: nat, a: nat, b: nat, c: nat)
    requires Reachable(nodes, level, a, b) && c in LinksOf(nodes, level, b)
    ensures Reachable(nodes, level, a, c)
  {
    var p :| IsPath(nodes, level, p) && p[0] == a && p[|p| - 1] == b;
    var q := p + [c];
    assert IsPath(nodes, level, q) && q[0] == a && q[|q| - 1] == c;
  }

  /** All links of v end in s. */
  ghost predicate Expanded(nodes: seq<Node>, level: nat, s: set<nat>, v: nat) {
    forall w :: w in LinksOf(nodes, level, v) ==> w in s
  }

  ghost predicate Closed(nodes: seq<Node>, level: nat, s: set<nat>) {
    forall v :: v in s ==> Expanded(nodes, level, s, v)
  }

  lemma {:induction false} ClosedPath(nodes: seq<Node>, level: nat, s: set<nat>, p: seq<nat>, k: nat)
    requires Closed(nodes, level, s) && IsPath(nodes, level, p) && p[0] in s && k < |p|
    ensures p[k] in s
  {
    if k > 0 {
      ClosedPath(nodes, level, s, p, k - 1);
      assert Expanded(nodes, level, s, p[k - 1]);
    }
  }

  /** A closed set that holds a holds everything reachable from a. */
  lemma ClosedReach(nodes: seq<Node>, level: nat, s: set<nat>, a: nat, b: nat)
    requires Closed(nodes, level, s) && a in s && Reachable(nodes, level, a, b)
    ensures b in s
  {
    var p :| IsPath(nodes, level, p) && p[0] == a && p[|p| - 1] == b;
    ClosedPath(nodes, level, s, p, |p| - 1);
  }

  lemma {:induction false} PathInLayer(nodes: seq<Node>, level: nat, p: seq<nat>, k: nat)
    requires SoundLayer(nodes, level) && IsPath(nodes, level, p) && OnLayer(nodes, level, p[0]) && k < |p|
    ensures OnLayer(nodes, level, p[k])
  {
    if k > 0 {
      PathInLayer(nodes, level, p, k - 1);
    }
  }

  lemma ReachInLayer(nodes: seq<Node>, level: nat, a: nat, b: nat)
    requires SoundLayer(nodes, level) && OnLayer(nodes, level, a) && Reachable(nodes, level, a, b)
    ensures OnLayer(nodes, level, b)
  {
    var p :| IsPath(nodes, level, p) && p[0] == a && p[|p| - 1] == b;
    PathInLayer(nodes, level, p, |p| - 1);
  }

}
