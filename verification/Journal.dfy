/** The ingest journal of rag/journal.go and the files it shares a disk with: what a
    crash can leave behind, and what a replay makes of it. */
module Journals {
  import opened Vectors
  import Orders
  import opened StoreStates
  import opened StoreLaws
  import opened StoreRuns

  // ---------- the journal file ----------

  /** One line: a document marked done or failed, or bytes that do not parse. */
  datatype Line = Done(id: string) | Failed(id: string) | Garbage

  /** What follows the last line break: nothing, a whole entry, or part of one. */
  datatype Tail = Clean | Whole(line: Line) | Torn

  datatype LogFile = LogFile(lines: seq<Line>, tail: Tail)

  /** Appending an entry and its line break; behind an unfinished line the two run
      together and no longer parse. */
  function AddLine(f: LogFile, l: Line): LogFile {
    LogFile(f.lines + [if f.tail.Clean? then l else Garbage], Clean)
  }

  function AddLines(f: LogFile, ls: seq<Line>): LogFile {
    if |ls| == 0 then f else AddLine(AddLines(f, ls[..|ls| - 1]), ls[|ls| - 1])
  }

  /** A write of ls that stopped somewhere: after k whole lines, or inside the next. */
  ghost predicate Partial(f: LogFile, ls: seq<Line>, r: LogFile) {
    exists k :: 0 <= k <= |ls| && PartialAt(f, ls, r, k)
  }

  ghost predicate PartialAt(f: LogFile, ls: seq<Line>, r: LogFile, k: nat)
    requires k <= |ls|
  {
    var g := AddLines(f, ls[..k]);
    || r == g
    || (k < |ls| && r == g.(tail := Torn))
    || (k < |ls| && g.tail.Clean? && r == g.(tail := Whole(ls[k])))
  }

  function DoneIds(ls: seq<Line>): set<string> { set l | l in ls && l.Done? :: l.id }

  /** The documents a replay takes for done. */
  function Replayed(f: LogFile): set<string> {
    DoneIds(f.lines) + if f.tail.Whole? then DoneIds([f.tail.line]) else {}
  }

  lemma DoneIdsConcat(a: seq<Line>, b: seq<Line>)
    ensures DoneIds(a + b) == DoneIds(a) + DoneIds(b)
  {
    assert forall l :: l in a + b <==> l in a || l in b;
  }

  lemma DoneIdsSnoc(a: seq<Line>, l: Line)
    ensures DoneIds(a + [l]) == DoneIds(a) + if l.Done? then {l.id} else {}
  {
    DoneIdsConcat(a, [l]);
    assert l in [l];
    assert forall x :: x in [l] ==> x == l;
  }

  lemma {:induction false} AddLinesReplay(f: LogFile, ls: seq<Line>)
    ensures Replayed(AddLines(f, ls)) <= Replayed(f) + DoneIds(ls)
    ensures |ls| > 0 ==> AddLines(f, ls).tail.Clean?
    ensures DoneIds(f.lines) <= DoneIds(AddLines(f, ls).lines)
  {
    if |ls| > 0 {
      var n := |ls| - 1;
      AddLinesReplay(f, ls[..n]);
      assert ls == ls[..n] + [ls[n]];
      DoneIdsSnoc(ls[..n], ls[n]);
      var g := AddLines(f, ls[..n]);
      DoneIdsSnoc(g.lines, if g.tail.Clean? then ls[n] else Garbage);
      hide DoneIds;
    }
  }

  /** What a finished write adds to a replay: all of it, except that an unfinished line in
      front of it swallows the first entry. */
  lemma {:induction false} WrittenReplays(f: LogFile, ls: seq<Line>)
    ensures |ls| > 0 ==> Replayed(AddLines(f, ls)) == DoneIds(f.lines) + DoneIds(if f.tail.Clean? then ls else ls[1..])
    ensures |ls| > 0 ==> AddLines(f, ls).tail.Clean?
  {
    if |ls| > 1 {
      var n := |ls| - 1;
      WrittenReplays(f, ls[..n]);
      assert ls == ls[..n] + [ls[n]] && ls[1..] == ls[..n][1..] + [ls[n]];
      DoneIdsSnoc(ls[..n], ls[n]);
      DoneIdsSnoc(ls[..n][1..], ls[n]);
      var g := AddLines(f, ls[..n]);
      DoneIdsSnoc(g.lines, ls[n]);
      hide DoneIds;
    } else if |ls| == 1 {
      assert ls[..0] == [] && ls[1..] == [] && [] + [ls[0]] == ls;
      DoneIdsSnoc([], ls[0]);
      DoneIdsSnoc(f.lines, if f.tail.Clean? then ls[0] else Garbage);
    }
  }

  /** However a write is cut short, a replay finds nothing that was not being written. */
  lemma PartialReplay(f: LogFile, ls: seq<Line>, r: LogFile)
    requires Partial(f, ls, r)
    ensures Replayed(r) <= Replayed(f) + DoneIds(ls)
    ensures DoneIds(f.lines) <= Replayed(r)
  {
    var k :| 0 <= k <= |ls| && PartialAt(f, ls, r, k);
    AddLinesReplay(f, ls[..k]);
    assert ls == ls[..k] + ls[k..];
    DoneIdsConcat(ls[..k], ls[k..]);
    if k < |ls| {
      assert DoneIds([ls[k]]) <= DoneIds(ls[k..]);
    }
    hide DoneIds, AddLines;
  }

  // ---------- what is on disk ----------

  datatype Durable = Durable(store: Option<Snapshot>, log: LogFile)

  /** All a crash during a journal write can leave. */
  ghost function Cuts(store: Option<Snapshot>, log: LogFile, ls: seq<Line>): iset<Durable> {
    iset f: LogFile | Partial(log, ls, f) :: Durable(store, f)
  }

  /** The documents of the saved store. */
  ghost function DocsOf(store: Option<Snapshot>): set<string> {
    if store.None? then {} else DocIds(store.value.chunks)
  }

  ghost predicate Loadable(unit: Vec -> Vec, snap: Snapshot) {
    Injective(snap.hashes) && |snap.vecs| == |snap.chunks| && Valid(unit, Loaded(snap))
  }

  /** A crash here loses nothing that counts as done: the saved store loads, and holds
      every document the journal replays as done. */
  ghost predicate Safe(unit: Vec -> Vec, d: Durable) {
    && (d.store.Some? ==> Loadable(unit, d.store.value))
    && Replayed(d.log) <= DocsOf(d.store)
  }

  lemma SavedLoads(unit: Vec -> Vec, s: State)
    requires Normalizes(unit) && Valid(unit, s) && Saved(s).Some?
    ensures Loadable(unit, Saved(s).value) && DocsOf(Saved(s)) == s.docSet
  {
    ReopenedOk(unit, s);
    ValidParts(unit, s);
    hide Valid, Loaded, Id, Injective;
  }

  lemma LoadedDocs(unit: Vec -> Vec, snap: Snapshot)
    requires Loadable(unit, snap)
    ensures Loaded(snap).docSet == DocIds(snap.chunks)
  {
    DocIdsIs(snap.chunks);
    hide Valid, DocIds;
    if |snap.chunks| == 0 {
      assert DocIds(snap.chunks) == {} by {
        DocIdsNone(snap.chunks);
      }
    }
  }

  /** The files an ingest writes, with everything a crash could have left so far. */
  class Disk {
    var store: Option<Snapshot>
    var log: LogFile
    ghost var seen: iset<Durable>

    ghost function Now(): Durable
      reads this
    {
      Durable(store, log)
    }

    /** Every state a crash can leave is safe. */
    ghost predicate AlwaysSafe(unit: Vec -> Vec)
      reads this
    {
      Now() in seen && forall d :: d in seen ==> Safe(unit, d)
    }

    constructor (store: Option<Snapshot>, log: LogFile)
      ensures this.store == store && this.log == log && seen == iset{Durable(store, log)}
    {
      this.store, this.log := store, log;
      seen := iset{Durable(store, log)};
    }

    /** saveStore: a temporary file renamed into place, so either all of it or nothing. */
    method WriteStore(snap: Snapshot) returns (ok: bool)
      modifies this
      ensures log == old(log) && store == if ok then Some(snap) else old(store)
      ensures seen == old(seen) + iset{Now()}
    {
      ok := *;
      if ok {
        store := Some(snap);
      }
      seen := seen + iset{Durable(store, log)};
    }

    /** Appending to the journal file: a crash or a failure can cut it anywhere. */
    method Append(ls: seq<Line>) returns (ok: bool)
      modifies this
      ensures store == old(store) && (ok ==> log == AddLines(old(log), ls)) && Partial(old(log), ls, log)
      ensures seen == old(seen) + Cuts(store, old(log), ls)
    {
      ghost var was := log;
      WholeIsPartial(log, ls);
      hide AddLines;
      ok := *;
      if ok {
        log := AddLines(log, ls);
      } else {
        var k :| 0 <= k <= |ls|;
        log := AddLines(log, ls[..k]);
        if * {
          if k < |ls| {
            log := log.(tail := Torn);
          }
        } else if * {
          if k < |ls| && log.tail.Clean? {
            log := log.(tail := Whole(ls[k]));
          }
        }
        assert PartialAt(was, ls, log, k);
      }
      seen := seen + Cuts(store, was, ls);
    }
  }

  lemma WholeIsPartial(f: LogFile, ls: seq<Line>)
    ensures Partial(f, ls, AddLines(f, ls))
  {
    assert ls[..|ls|] == ls;
    assert PartialAt(f, ls, AddLines(f, ls), |ls|);
  }

  // ---------- the journal ----------

  /** The entries of a MarkDone: each id once, unless it was marked before. */
  function Marks(done: set<string>, ids: seq<string>): seq<Line> {
    if |ids| == 0 then []
    else
      var n := |ids| - 1;
      var before := Marks(done, ids[..n]);
      if ids[n] in done || Done(ids[n]) in before then before else before + [Done(ids[n])]
  }

  lemma {:induction false} MarksAre(done: set<string>, ids: seq<string>)
    ensures DoneIds(Marks(done, ids)) == (set id | id in ids) - done
    ensures forall id :: id !in done ==> (id in ids <==> Done(id) in Marks(done, ids))
  {
    if |ids| > 0 {
      var n := |ids| - 1;
      MarksAre(done, ids[..n]);
      assert ids == ids[..n] + [ids[n]];
      DoneIdsSnoc(Marks(done, ids[..n]), Done(ids[n]));
    }
  }

  lemma {:induction false} MarksAreDistinct(done: set<string>, ids: seq<string>)
    ensures Orders.Distinct(Marks(done, ids))
  {
    if |ids| > 0 {
      var n := |ids| - 1;
      MarksAreDistinct(done, ids[..n]);
      if !(ids[n] in done || Done(ids[n]) in Marks(done, ids[..n])) {
        Orders.DistinctSnoc(Marks(done, ids[..n]), Done(ids[n]));
      }
    }
  }

  /** A finished MarkDone is replayed in full exactly when the log did not end inside a line:
      an unfinished line swallows the first id marked behind it. */
  lemma MarksReplay(f: LogFile, done: set<string>, ids: seq<string>)
    requires done == Replayed(f)
    ensures var g := AddLines(f, Marks(done, ids));
            && (Replayed(g) == done + (set id | id in ids) <==> f.tail.Clean? || (set id | id in ids) <= done)
            && (f.tail.Clean? ==> g.tail.Clean?)
  {
    var ls := Marks(done, ids);
    MarksAre(done, ids);
    WrittenReplays(f, ls);
    if |ls| > 0 && !f.tail.Clean? {
      MarksAreDistinct(done, ids);
      assert ls[0] in ls;
      assert forall k :: 0 < k < |ls| ==> ls[k] != ls[0];
      assert ls[0] !in ls[1..];
      LinesAreMarks(done, ids);
      assert ls[0].id in DoneIds(ls) && ls[0].id !in done;
      assert ls[0].id !in DoneIds(ls[1..]) by {
        hide Replayed, AddLines;
        forall l | l in ls[1..] && l.Done? ensures l.id != ls[0].id {
          assert l in ls;
        }
      }
    }
  }

  /** A log that a crash cut inside a line: the document marked next is lost to a replay. */
  lemma TornLogLosesAMark()
    ensures var f := LogFile([Done("a")], Torn);
            Replayed(AddLines(f, Marks(Replayed(f), ["b"]))) != Replayed(f) + set id | id in ["b"]
  {
    var f := LogFile([Done("a")], Torn);
    assert Replayed(f) == {"a"};
    assert "b" in ["b"];
    MarksReplay(f, Replayed(f), ["b"]);
  }

  lemma {:induction false} LinesAreMarks(done: set<string>, ids: seq<string>)
    ensures forall l :: l in Marks(done, ids) ==> l.Done?
  {
    if |ids| > 0 {
      LinesAreMarks(done, ids[..|ids| - 1]);
    }
  }

  class Journal {
    const disk: Disk
    var done: set<string>
    // A buffered writer keeps its first error: nothing is written after it.
    var broken: bool

    /** What is marked done is what a replay would find. */
    ghost predicate Tidy()
      reads this, disk
    {
      !broken ==> disk.log.tail.Clean? && done == Replayed(disk.log)
    }

    /** OpenJournal: replaying the file line by line. */
    constructor Open(disk: Disk)
      ensures this.disk == disk && done == Replayed(disk.log) && !broken
    {
      this.disk := disk;
      broken := false;
      done := {};
      new;
      ghost var lines := disk.log.lines;
      for i := 0 to |disk.log.lines|
        invariant done == DoneIds(lines[..i]) && disk.log.lines == lines && !broken
      {
        assert lines[..i + 1] == lines[..i] + [lines[i]];
        DoneIdsSnoc(lines[..i], lines[i]);
        var e := disk.log.lines[i];
        if e.Done? {
          done := done + {e.id};
        }
      }
      assert lines[..|lines|] == lines;
      DoneIdsSnoc([], if disk.log.tail.Whole? then disk.log.tail.line else Garbage);
      assert forall l: Line :: [] + [l] == [l];
      if disk.log.tail.Whole? && disk.log.tail.line.Done? {
        done := done + {disk.log.tail.line.id};
      }
    }

    /** Writing and flushing some lines. */
    method Write(ls: seq<Line>) returns (ok: bool)
      modifies this`broken, disk
      ensures disk.store == old(disk.store) && Partial(old(disk.log), ls, disk.log)
      ensures ok == !broken && (ok ==> disk.log == AddLines(old(disk.log), ls))
      ensures old(broken) ==> broken && disk.log == old(disk.log)
      ensures old(disk.seen) <= disk.seen <= old(disk.seen) + Cuts(disk.store, old(disk.log), ls)
      ensures !old(broken) ==> disk.seen == old(disk.seen) + Cuts(disk.store, old(disk.log), ls)
    {
      if broken {
        NothingIsPartial(disk.log, ls);
        return false;
      }
      ok := disk.Append(ls);
      broken := !ok;
    }

    /** MarkDone: only ids not marked before are written.  Flushed lines can still fail to
        sync; the error is reported, and the next call writes on. */
    method MarkDone(ids: seq<string>) returns (ok: bool)
      modifies this, disk
      ensures done == old(done) + set id | id in ids
      ensures disk.store == old(disk.store)
      ensures Partial(old(disk.log), Marks(old(done), ids), disk.log)
      ensures ok ==> !broken
      ensures !broken ==> !old(broken) && disk.log == AddLines(old(disk.log), Marks(old(done), ids))
      ensures old(broken) ==> broken && disk.log == old(disk.log)
      ensures old(disk.seen) <= disk.seen <= old(disk.seen) + Cuts(disk.store, old(disk.log), Marks(old(done), ids))
      ensures !old(broken) ==> disk.seen == old(disk.seen) + Cuts(disk.store, old(disk.log), Marks(old(done), ids))
      ensures old(Tidy()) ==> Tidy()
    {
      hide Partial;
      ghost var was := done;
      var ls := [];
      for i := 0 to |ids|
        invariant ls == Marks(was, ids[..i]) && done == was + set id | id in ids[..i]
        invariant disk.store == old(disk.store) && disk.log == old(disk.log) && disk.seen == old(disk.seen)
        invariant broken == old(broken)
      {
        MarksAre(was, ids[..i]);
        assert ids[..i + 1] == ids[..i] + [ids[i]];
        assert ids[..i + 1][..i] == ids[..i];
        var id := ids[i];
        if id in done {
          continue;
        }
        ls := ls + [Done(id)];
        done := done + {id};
      }
      assert ids[..|ids|] == ids;
      ghost var log := disk.log;
      var written := Write(ls);
      if !broken && log.tail.Clean? && was == Replayed(log) {
        MarksReplay(log, was, ids);
      }
      var synced := *;
      ok := written && synced;
    }

    /** MarkFailed: for the record only. */
    method MarkFailed(id: string) returns (ok: bool)
      modifies this`broken, disk
      ensures disk.store == old(disk.store) && Partial(old(disk.log), [Failed(id)], disk.log)
      ensures ok == !broken && (ok ==> disk.log == AddLines(old(disk.log), [Failed(id)]))
      ensures old(broken) ==> broken && disk.log == old(disk.log)
      ensures old(disk.seen) <= disk.seen <= old(disk.seen) + Cuts(disk.store, old(disk.log), [Failed(id)])
      ensures !old(broken) ==> disk.seen == old(disk.seen) + Cuts(disk.store, old(disk.log), [Failed(id)])
      ensures old(Tidy()) ==> Tidy()
    {
      hide Partial;
      ghost var log := disk.log;
      ok := Write([Failed(id)]);
      WrittenReplays(log, [Failed(id)]);
      DoneIdsSnoc([], Failed(id));
      assert [] + [Failed(id)] == [Failed(id)];
    }
  }

  lemma NothingIsPartial(f: LogFile, ls: seq<Line>)
    ensures Partial(f, ls, f)
  {
    assert ls[..0] == [];
    assert PartialAt(f, ls, f, 0);
  }
}
