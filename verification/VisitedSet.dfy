/**
 * The epoch-stamped set of visited nodes that every graph search borrows: a node is a member
 * when its mark equals the current epoch, so raising the epoch empties the set in one step.
 * The epoch is 32 bits wide and wraps.
 *
 * Up to 2^32 - 1 resets the marks are a set that every reset empties.  At the wrap only the
 * cells in use are cleared, and the laws below say exactly when that is enough.
 */
module VisitedSets {

  const EPOCHS: nat := 0x1_0000_0000

  // `cells` is the whole buffer, `inUse` the length of the slice, `epoch` the stamp.
  datatype Marks = Marks(cells: seq<nat>, inUse: nat, epoch: nat)

  predicate Proper(m: Marks) {
    m.inUse <= |m.cells| && m.epoch < EPOCHS && forall i :: 0 <= i < |m.cells| ==> m.cells[i] < EPOCHS
  }

  // The nodes that read as visited.
  function Members(m: Marks): set<nat>
    requires Proper(m)
  {
    set i: nat | i < m.inUse && m.cells[i] == m.epoch
  }

  // No mark is from an epoch still to come.
  predicate Sound(m: Marks) {
    Proper(m) && forall i :: 0 <= i < |m.cells| ==> m.cells[i] <= m.epoch
  }

  predicate Wraps(m: Marks, n: nat) {
    n <= |m.cells| && m.epoch == EPOCHS - 1
  }

  // A mark that a wrapping reset to `n` cells leaves behind and that a later epoch meets again.
  predicate LeftBehind(m: Marks, n: nat, i: nat) {
    Wraps(m, n) && n <= i < |m.cells| && m.cells[i] > 1
  }

  function Cleared(cells: seq<nat>, n: nat): (r: seq<nat>)
    requires n <= |cells|
    ensures |r| == |cells|
    ensures forall i :: 0 <= i < |cells| ==> r[i] == if i < n then 0 else cells[i]
  {
    seq(|cells|, i requires 0 <= i < |cells| => if i < n then 0 else cells[i])
  }

  function Reset(m: Marks, n: nat): (r: Marks)
    requires Proper(m)
    ensures Proper(r) && r.inUse == n
  {
    if |m.cells| < n then Marks(seq(n, _ => 0), n, 1)
    else if m.epoch == EPOCHS - 1 then Marks(Cleared(m.cells, n), n, 1)
    else Marks(m.cells, n, m.epoch + 1)
  }

  function Marked(m: Marks, i: nat): (r: Marks)
    requires Proper(m) && i < m.inUse
    ensures Proper(r)
    ensures Members(r) == Members(m) + {i}
  {
    m.(cells := m.cells[i := m.epoch])
  }

  class VisitedSet {
    var buffer: array<nat>
    var inUse: nat
    var epoch: nat

    predicate Valid()
      reads this, buffer
    {
      Proper(Value())
    }

    function Value(): Marks
      reads this, buffer
    {
      Marks(buffer[..], inUse, epoch)
    }

    // An empty pool entry.
    constructor ()
      ensures Valid() && Sound(Value()) && Value() == Marks([], 0, 0)
      ensures fresh(buffer)
    {
      buffer := new nat[0];
      inUse, epoch := 0, 0;
    }

    method ResetTo(n: nat)
      requires Valid()
      modifies this, buffer
      ensures Valid() && (buffer == old(buffer) || fresh(buffer))
      ensures Value() == Reset(old(Value()), n)
      // From sound marks the set is empty and stays a set unless a mark is left behind.
      ensures Sound(old(Value())) ==> Members(Value()) == {}
      ensures Sound(old(Value())) ==>
                (Sound(Value()) <==> !exists i: nat :: LeftBehind(old(Value()), n, i))
    {
      ghost var was := Value();
      if buffer.Length < n {
        buffer := new nat[n](_ => 0);
        epoch := 0;
        assert buffer[..] == seq(n, _ => 0);
      }
      inUse := n;
      epoch := (epoch + 1) % EPOCHS;
      if epoch == 0 {
        var i := 0;
        while i < inUse
          invariant 0 <= i <= inUse == n <= buffer.Length
          invariant forall j :: 0 <= j < buffer.Length ==> buffer[j] == if j < i then 0 else was.cells[j]
          modifies buffer
        {
          buffer[i] := 0;
          i := i + 1;
        }
        epoch := 1;
        assert buffer[..] == Cleared(was.cells, n);
      }
      if Sound(was) {
        ResetEmpties(was, n);
        ResetIsSoundExactly(was, n);
      }
    }

    method Mark(i: nat)
      requires Valid() && i < inUse
      modifies buffer
      ensures Valid() && Value() == Marked(old(Value()), i)
      ensures Members(Value()) == old(Members(Value())) + {i}
    {
      buffer[i] := epoch;
      assert buffer[..] == old(buffer[..])[i := epoch];
    }

    method Seen(i: nat) returns (seen: bool)
      requires Valid() && i < inUse
      ensures seen <==> i in Members(Value())
    {
      seen := buffer[i] == epoch;
    }
  }

  // From sound marks a reset always starts an empty set.
  lemma ResetEmpties(m: Marks, n: nat)
    requires Sound(m)
    ensures Members(Reset(m, n)) == {}
  {
    var r := Reset(m, n);
    forall i: nat | i < r.inUse
      ensures r.cells[i] != r.epoch
    {
      if n <= |m.cells| { assert m.cells[i] <= m.epoch; }
    }
  }

  // It leaves sound marks exactly when it clears, at a wrap, every mark that could come again.
  lemma ResetIsSoundExactly(m: Marks, n: nat)
    requires Sound(m)
    ensures Sound(Reset(m, n)) <==> !exists i: nat :: LeftBehind(m, n, i)
  {
    var r := Reset(m, n);
    if i: nat :| LeftBehind(m, n, i) {
      assert r.cells[i] == m.cells[i] > r.epoch;
    } else {
      forall i | 0 <= i < |r.cells|
        ensures r.cells[i] <= r.epoch
      {
        if n <= |m.cells| {
          assert m.cells[i] <= m.epoch;
          assert !LeftBehind(m, n, i);
        }
      }
    }
  }

  // One use of the set: a reset, then some marks.
  datatype Use = Use(nodes: nat, marks: seq<nat>)

  predicate InRange(u: Use) { forall i :: 0 <= i < |u.marks| ==> u.marks[i] < u.nodes }

  function Nodes(marks: seq<nat>): set<nat> { set i | 0 <= i < |marks| :: marks[i] }

  function AfterMarks(m: Marks, marks: seq<nat>): (r: Marks)
    requires Proper(m) && forall i :: 0 <= i < |marks| ==> marks[i] < m.inUse
    ensures Proper(r) && r.inUse == m.inUse && |r.cells| == |m.cells| && r.epoch == m.epoch
    ensures Members(r) == Members(m) + Nodes(marks)
    ensures Sound(m) ==> Sound(r)
    decreases |marks|
  {
    if marks == [] then m
    else
      var k := |marks| - 1;
      assert forall i :: 0 <= i < k ==> marks[..k][i] == marks[i];
      var before := AfterMarks(m, marks[..k]);
      assert Nodes(marks) == Nodes(marks[..k]) + {marks[k]};
      Marked(before, marks[k])
  }

  function AfterUse(m: Marks, u: Use): (r: Marks)
    requires Proper(m) && InRange(u)
    ensures Proper(r) && r.inUse == u.nodes
  {
    AfterMarks(Reset(m, u.nodes), u.marks)
  }

  function AfterUses(m: Marks, uses: seq<Use>): (r: Marks)
    requires Proper(m) && forall i :: 0 <= i < |uses| ==> InRange(uses[i])
    ensures Proper(r)
    decreases |uses|
  {
    if uses == [] then m else AfterUse(AfterUses(m, uses[..|uses| - 1]), uses[|uses| - 1])
  }

  // Every search among the first 2^32 - 1 borrowers of a set sees exactly its own marks,
  // whatever the graph sizes were.
  lemma {:induction false} EarlySearchesSeeTheirOwnMarks(uses: seq<Use>)
    requires 0 < |uses| < EPOCHS
    requires forall i :: 0 <= i < |uses| ==> InRange(uses[i])
    ensures Members(AfterUses(Marks([], 0, 0), uses)) ==
            Nodes(uses[|uses| - 1].marks)
  {
    var k := |uses| - 1;
    EarlyIsSound(uses[..k]);
    var m := AfterUses(Marks([], 0, 0), uses[..k]);
    ResetEmpties(m, uses[k].nodes);
  }

  lemma {:induction false} EarlyIsSound(uses: seq<Use>)
    requires |uses| < EPOCHS
    requires forall i :: 0 <= i < |uses| ==> InRange(uses[i])
    ensures Sound(AfterUses(Marks([], 0, 0), uses))
    ensures AfterUses(Marks([], 0, 0), uses).epoch <= |uses|
    decreases |uses|
  {
    if uses != [] {
      var k := |uses| - 1;
      EarlyIsSound(uses[..k]);
      var m := AfterUses(Marks([], 0, 0), uses[..k]);
      var n := uses[k].nodes;
      assert forall i: nat :: !LeftBehind(m, n, i);
      ResetIsSoundExactly(m, n);
    }
  }

  // Searches over the whole buffer that mark nothing only move the epoch.
  function Idle(n: nat, times: nat): (r: seq<Use>)
    ensures |r| == times && forall i :: 0 <= i < |r| ==> r[i] == Use(n, [])
  {
    seq(times, _ => Use(n, []))
  }

  lemma {:induction false} IdleMovesTheEpoch(m: Marks, times: nat)
    requires Proper(m) && m.epoch + times < EPOCHS
    ensures var r := AfterUses(m, Idle(|m.cells|, times));
            r.cells == m.cells && r.epoch == m.epoch + times && (times > 0 ==> r.inUse == |m.cells|)
    decreases times
  {
    if times > 0 {
      IdleMovesTheEpoch(m, times - 1);
      var idle := Idle(|m.cells|, times);
      assert idle[..|idle| - 1] == Idle(|m.cells|, times - 1);
    }
  }

  // Past the wrap the guard is exact.  A mark left behind is met again: after as many idle
  // searches as its stamp says, less one, a search starts with a node it never visited.
  lemma LeftBehindIsMetAgain(m: Marks, n: nat, i: nat)
    requires Sound(m) && LeftBehind(m, n, i)
    ensures i in Members(AfterUses(Reset(m, n), Idle(|m.cells|, m.cells[i] - 1)))
  {
    var r := Reset(m, n);
    IdleMovesTheEpoch(r, m.cells[i] - 1);
  }

  // No wrap in a run leaves a mark behind.
  ghost predicate Guarded(m: Marks, uses: seq<Use>)
    requires Proper(m) && forall i :: 0 <= i < |uses| ==> InRange(uses[i])
  {
    forall k: nat, i: nat :: k < |uses| ==> !LeftBehind(AfterUses(m, uses[..k]), uses[k].nodes, i)
  }

  // A guarded run of any length keeps every search to its own marks.
  lemma {:induction false} GuardedRunsAreSets(m: Marks, uses: seq<Use>)
    requires Sound(m) && forall i :: 0 <= i < |uses| ==> InRange(uses[i])
    requires Guarded(m, uses)
    ensures Sound(AfterUses(m, uses))
    ensures uses != [] ==> Members(AfterUses(m, uses)) ==
                           Nodes(uses[|uses| - 1].marks)
    decreases |uses|
  {
    if uses != [] {
      var k := |uses| - 1;
      var before := uses[..k];
      forall j: nat, i: nat | j < k
        ensures !LeftBehind(AfterUses(m, before[..j]), before[j].nodes, i)
      {
        assert before[..j] == uses[..j];
        assert !LeftBehind(AfterUses(m, uses[..j]), uses[j].nodes, i);
      }
      GuardedRunsAreSets(m, before);
      var b := AfterUses(m, before);
      var n := uses[k].nodes;
      assert forall i: nat :: !LeftBehind(b, n, i);
      ResetEmpties(b, n);
      ResetIsSoundExactly(b, n);
    }
  }

  /** Such a run from a new pool entry: node 1 is marked in the second search, 2^32 - 3 idle
      searches follow, the wrap clears node 0 only, and the search after it finds node 1
      visited although it marked nothing. */
  ghost function AliasingRun(): seq<Use> {
    [Use(2, []), Use(2, [1])] + Idle(2, EPOCHS - 3) + [Use(1, [])] + Idle(2, 1)
  }

  lemma {:induction false} UsesConcat(m: Marks, a: seq<Use>, b: seq<Use>)
    requires Proper(m) && (forall i :: 0 <= i < |a| ==> InRange(a[i])) && forall i :: 0 <= i < |b| ==> InRange(b[i])
    ensures (forall i :: 0 <= i < |a + b| ==> InRange((a + b)[i]))
    ensures AfterUses(m, a + b) == AfterUses(AfterUses(m, a), b)
    decreases |b|
  {
    if |b| == 0 {
      assert a + b == a;
    } else {
      var n := |b| - 1;
      UsesConcat(m, a, b[..n]);
      assert (a + b)[..|a + b| - 1] == a + b[..n] && (a + b)[|a + b| - 1] == b[n];
    }
  }

  lemma AfterOne(m: Marks, u: Use)
    requires Proper(m) && InRange(u)
    ensures AfterUses(m, [u]) == AfterUse(m, u)
  {
    assert [u][..0] == [];
    assert AfterUses(m, []) == m;
  }

  lemma AfterNothingMarked(m: Marks, n: nat)
    requires Proper(m)
    ensures AfterUse(m, Use(n, [])) == Reset(m, n)
  {
  }

  /** The marks of the first two searches. */
  lemma FirstMarks()
    ensures AfterUses(Marks([], 0, 0), [Use(2, []), Use(2, [1])]) == Marks([0, 2], 2, 2)
  {
    var a, b := Use(2, []), Use(2, [1]);
    assert [a, b][..1] == [a];
    AfterOne(Marks([], 0, 0), a);
    var first := Reset(Marks([], 0, 0), 2);
    assert first == Marks([0, 0], 2, 1);
    var second := Reset(first, 2);
    assert second == Marks([0, 0], 2, 2);
    assert b.marks[..0] == [];
    assert AfterMarks(second, []) == second;
    assert AfterMarks(second, b.marks) == Marked(second, 1);
    assert Marked(second, 1) == Marks([0, 2], 2, 2);
  }

  lemma AtTheWrap()
    ensures AfterUses(Marks([0, 2], 2, 2), Idle(2, EPOCHS - 3)) == Marks([0, 2], 2, EPOCHS - 1)
  {
    IdleMovesTheEpoch(Marks([0, 2], 2, 2), EPOCHS - 3);
    hide AfterUses, Idle;
  }

  lemma BehindTheWrap()
    ensures var w := Marks([0, 2], 2, EPOCHS - 1);
            1 in Members(AfterUses(AfterUses(w, [Use(1, [])]), Idle(2, 1)))
  {
    var w := Marks([0, 2], 2, EPOCHS - 1);
    AfterOne(w, Use(1, []));
    AfterNothingMarked(w, 1);
    assert LeftBehind(w, 1, 1);
    LeftBehindIsMetAgain(w, 1, 1);
    hide AfterUses, AfterUse, Idle;
  }

  lemma MarksCanAlias()
    ensures forall i :: 0 <= i < |AliasingRun()| ==> InRange(AliasingRun()[i])
    ensures AliasingRun()[|AliasingRun()| - 1].marks == []
    ensures 1 in Members(AfterUses(Marks([], 0, 0), AliasingRun()))
  {
    var new_ := Marks([], 0, 0);
    var start, wrap := [Use(2, []), Use(2, [1])], [Use(1, [])];
    var idle, last := Idle(2, EPOCHS - 3), Idle(2, 1);
    FirstMarks();
    AtTheWrap();
    BehindTheWrap();
    hide AfterUses, Idle, Members;
    UsesConcat(new_, start, idle);
    UsesConcat(new_, start + idle, wrap);
    UsesConcat(new_, start + idle + wrap, last);
  }
}
