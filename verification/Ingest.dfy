/** Bulk ingestion with checkpoints: rag/ingest.go. Workers decide and prepare, one
    collector applies, saves and marks done; any interleaving of the two is allowed. */
module IngestRuns {
  import opened Vectors
  import opened StoreStates
  import opened StoreLaws
  import opened StoreRuns
  import opened IngestTraces
  import opened Stores
  import opened Journals

  // ---------- what one apply does to the documents and contents ----------

  lemma AppliedDocs(unit: Vec -> Vec, s: State, p: Prepared)
    requires Parallel(s) && |p.vecs| == |p.chunks| && (forall i :: 0 <= i < |p.chunks| ==> p.chunks[i].docId == p.id)
    ensures s.docSet <= Applied(unit, s, p).docSet
    ensures Applies(s, p) ==> p.id in Applied(unit, s, p).docSet
  {
    if |p.chunks| > 0 {
      assert p.chunks[0] in p.chunks;
      PieceDocs(unit, s, p);
    }
  }

  lemma PieceDocs(unit: Vec -> Vec, s: State, p: Prepared)
    requires Parallel(s) && |p.vecs| == |p.chunks| > 0 && (forall i :: 0 <= i < |p.chunks| ==> p.chunks[i].docId == p.id)
    ensures Applied(unit, s, p).docSet == if Applies(s, p) then s.docSet + {p.id} else s.docSet
  {
    hide *;
    var t := Opened(s, p);
    OpenedDocs(s, p);
    AppliedIs(unit, s, p);
    RemovedDocs(t, p.id);
    AppendedBooks(unit, t, p);
    AppendedBooks(unit, Removed(t, p.id), p);
    if Applies(s, p) {
      RecordedDocs(Installed(unit, t, p), p.id, p.hash);
      InstalledIs(unit, t, p);
    }
  }

  /** The three ways an apply adds chunks. */
  ghost function Installed(unit: Vec -> Vec, t: State, p: Prepared): State
    requires |p.vecs| == |p.chunks| && Parallel(t) && t.hnsw.Some?
  {
    if p.id in t.docSet then AppendedArrays(Removed(t, p.id), p.chunks, p.vecs)
    else if t.needsRebuild then AppendedArrays(t, p.chunks, p.vecs)
    else Appended(unit, t, p.chunks, p.vecs)
  }

  lemma InstalledIs(unit: Vec -> Vec, t: State, p: Prepared)
    requires |p.vecs| == |p.chunks| && Parallel(t) && t.hnsw.Some?
    ensures Installed(unit, t, p)
         == if p.id in t.docSet then AppendedArrays(Removed(t, p.id), p.chunks, p.vecs)
            else if t.needsRebuild then AppendedArrays(t, p.chunks, p.vecs)
            else Appended(unit, t, p.chunks, p.vecs)
  {
  }

  lemma OpenedDocs(s: State, p: Prepared)
    requires |p.vecs| > 0 && Parallel(s)
    ensures var t := Opened(s, p); t.docSet == s.docSet && t.hnsw.Some? && Parallel(t)
  {
  }

  lemma AppliedIs(unit: Vec -> Vec, s: State, p: Prepared)
    requires Parallel(s) && |p.vecs| == |p.chunks| > 0
    ensures Parallel(Opened(s, p)) && Opened(s, p).hnsw.Some?
    ensures !Applies(s, p) ==> Applied(unit, s, p) == Opened(s, p)
    ensures Applies(s, p) ==> Applied(unit, s, p) == Recorded(Installed(unit, Opened(s, p), p), p.id, p.hash)
  {
    hide Applies, Removed, Appended, AppendedArrays, Recorded;
  }

  lemma RecordedDocs(s: State, id: string, h: Hash)
    ensures Recorded(s, id, h).docSet == s.docSet
  {
  }

  /** What an append does apart from the arrays and indexes. */
  lemma AppendedBooks(unit: Vec -> Vec, s: State, p: Prepared)
    requires |p.vecs| == |p.chunks| > 0 && (forall i :: 0 <= i < |p.chunks| ==> p.chunks[i].docId == p.id)
    ensures var a := AppendedArrays(s, p.chunks, p.vecs);
            && a.docSet == s.docSet + {p.id} && a.hashes == s.hashes && a.idHash == s.idHash && a.dim == s.dim
            && |a.chunks| == |s.chunks| + |p.chunks| && a.hnsw == s.hnsw
    ensures s.hnsw.Some? ==>
              var a := Appended(unit, s, p.chunks, p.vecs);
              && a.docSet == s.docSet + {p.id} && a.hashes == s.hashes && a.idHash == s.idHash && a.dim == s.dim
              && |a.chunks| == |s.chunks| + |p.chunks| && a.hnsw.Some?
  {
    assert p.chunks[0] in p.chunks;
    assert (set c | c in p.chunks :: c.docId) == {p.id};
  }

  lemma RemovedDocs(t: State, id: string)
    requires Parallel(t)
    ensures Removed(t, id).docSet == t.docSet - {id}
  {
    hide Chosen;
  }

  /** The document is new, or stored with the very same content. */
  ghost predicate NoUpdate(s: State, p: Prepared) { p.id in s.idHash ==> s.idHash[p.id] == p.hash }

  /** Without updates, applying only adds content, and the document's own is there
      afterwards. */
  lemma AppliedContent(unit: Vec -> Vec, s: State, p: Prepared)
    requires Valid(unit, s) && PreparedOk(p) && NoUpdate(s, p)
    ensures var t := Applied(unit, s, p);
            && (forall h :: h in s.hashes ==> h in t.hashes)
            && (forall id :: id in t.idHash ==> id in s.idHash || id == p.id)
            && (forall id :: id in s.idHash ==> id in t.idHash && t.idHash[id] == s.idHash[id])
            && (p.id in t.idHash ==> t.idHash[p.id] == p.hash)
            && (|p.chunks| > 0 && |p.vecs[0]| == Opened(s, p).dim ==> p.hash in t.hashes)
            && t.dim == (if |p.chunks| > 0 then Opened(s, p) else s).dim
            && (|p.chunks| > 0 ==> t.hnsw.Some?) && (s.hnsw.Some? ==> t.hnsw.Some?)
            && |t.chunks| == |s.chunks| + if Applies(s, p) then |p.chunks| else 0
  {
    ValidParts(unit, s);
    if |p.chunks| > 0 {
      AppliedIs(unit, s, p);
      AppendedBooks(unit, Opened(s, p), p);
      hide Appended, AppendedArrays, Removed, Applied, IndexOk, Histories;
      if Applies(s, p) {
        assert p.id !in s.docSet;
      } else if |p.vecs[0]| == Opened(s, p).dim {
        assert p.hash in s.hashes;
      }
    }
  }

  // ---------- the workers ----------

  /** prepareForIngest. */
  method PrepareForIngest(store: Store, journal: Journal, o: Offer) returns (r: Result)
    ensures r == Verdict(store.Value(), journal.done, o)
    // nothing known is prepared, and nothing else is skipped
    ensures r.Skipped? <==> Known(store.Value(), journal.done, o.doc) || (!o.fails && |o.doc.chunks| == 0)
    ensures r.Errored? <==> !Known(store.Value(), journal.done, o.doc) && o.fails
  {
    var d := o.doc;
    if d.id in journal.done {
      return Skipped;
    }
    if d.hash in store.hashes && store.hashes[d.hash] != d.id {
      return Skipped;
    }
    if d.id in store.idHash && store.idHash[d.id] == d.hash {
      return Skipped;
    }
    if o.fails {
      return Errored;
    }
    if |d.chunks| == 0 {
      return Skipped;
    }
    r := Ready;
  }

  // ---------- schedules ----------

  ghost function Collected(schedule: seq<Event>): nat {
    if |schedule| == 0 then 0
    else Collected(schedule[..|schedule| - 1]) + if schedule[|schedule| - 1].Collect? then 1 else 0
  }

  lemma CollectedNext(schedule: seq<Event>, k: nat)
    requires k < |schedule|
    ensures Collected(schedule[..k + 1]) == Collected(schedule[..k]) + if schedule[k].Collect? then 1 else 0
    ensures Collected(schedule[..0]) == 0
  {
    assert schedule[..k + 1][..k] == schedule[..k];
  }

  /** After k events exactly the prepared documents have a result. */
  ghost predicate ResultsIn(results: seq<Result>, schedule: seq<Event>, k: nat) {
    k <= |schedule| && forall i :: 0 <= i < |results| ==> (results[i] != Waiting <==> Prepare(i) in schedule[..k])
  }

  lemma EventFits(docs: seq<Offer>, results: seq<Result>, schedule: seq<Event>, k: nat)
    requires Schedule(schedule, |docs|) && ResultsIn(results, schedule, k) && k < |schedule| && |results| == |docs|
    ensures schedule[k].i < |docs|
    ensures schedule[k].Collect? ==> results[schedule[k].i] != Waiting
  {
  }

  lemma PreparedNext(results: seq<Result>, schedule: seq<Event>, k: nat, r: Result)
    requires ResultsIn(results, schedule, k) && k < |schedule| && schedule[k].Prepare? && schedule[k].i < |results| && r != Waiting
    ensures ResultsIn(results[schedule[k].i := r], schedule, k + 1)
  {
    assert schedule[..k + 1] == schedule[..k] + [schedule[k]];
  }

  lemma CollectedKeepsResults(results: seq<Result>, schedule: seq<Event>, k: nat)
    requires ResultsIn(results, schedule, k) && k < |schedule| && schedule[k].Collect?
    ensures ResultsIn(results, schedule, k + 1)
  {
    assert schedule[..k + 1] == schedule[..k] + [schedule[k]];
  }

  // ---------- runs without failures and updates ----------

  /** Distinct ids, one dimension, no failure. */
  ghost predicate CleanBatch(docs: seq<Offer>, d: nat) {
    && (forall i, j :: 0 <= i < j < |docs| ==> docs[i].doc.id != docs[j].doc.id)
    && (forall i :: 0 <= i < |docs| ==> !docs[i].fails)
    && (forall i :: 0 <= i < |docs| && |docs[i].doc.vecs| > 0 ==> |docs[i].doc.vecs[0]| == d)
  }

  /** No offered document is stored with another content, and the dimension fits. */
  ghost predicate CleanNow(s: State, docs: seq<Offer>, d: nat) {
    && (s.hnsw.Some? ==> s.dim == d)
    && forall i :: 0 <= i < |docs| ==> NoUpdate(s, docs[i].doc)
  }

  /** The content of every skipped and every collected document is in the store. */
  ghost predicate Covered(s: State, docs: seq<Offer>, results: seq<Result>, schedule: seq<Event>, k: nat) {
    && k <= |schedule| && |results| == |docs|
    && (forall i :: 0 <= i < |docs| ==> results[i] != Errored)
    && (forall i :: 0 <= i < |docs| && results[i] == Skipped && |docs[i].doc.chunks| > 0 ==> docs[i].doc.hash in s.hashes)
    && (forall i :: 0 <= i < |docs| && Collect(i) in schedule[..k] && |docs[i].doc.chunks| > 0 ==> docs[i].doc.hash in s.hashes)
  }

  lemma RunStarts(s: State, docs: seq<Offer>, results: seq<Result>, schedule: seq<Event>)
    requires results == seq(|docs|, _ => Waiting)
    ensures ResultsIn(results, schedule, 0) && Covered(s, docs, results, schedule, 0) && Collected(schedule[..0]) == 0
    ensures Schedule(schedule, |docs|) ==> forall k :: 0 <= k < |schedule| ==> schedule[k].i < |docs|
  {
  }

  /** A worker's answer: what it skips is already stored. */
  lemma CleanPrepared(unit: Vec -> Vec, s: State, docs: seq<Offer>, results: seq<Result>, schedule: seq<Event>, k: nat,
                      d: nat, r: Result, done: set<string>)
    requires Valid(unit, s) && CleanBatch(docs, d) && CleanNow(s, docs, d) && Covered(s, docs, results, schedule, k)
    requires k < |schedule| && schedule[k].Prepare? && schedule[k].i < |docs| && done <= s.docSet
    requires r.Errored? ==> docs[schedule[k].i].fails
    requires r.Skipped? ==> Known(s, done, docs[schedule[k].i].doc) || |docs[schedule[k].i].doc.chunks| == 0
    ensures Covered(s, docs, results[schedule[k].i := r], schedule, k + 1)
  {
    var p := docs[schedule[k].i].doc;
    StoredContent(unit, s, p);
    assert NoUpdate(s, p);
    hide Valid;
    assert schedule[..k + 1] == schedule[..k] + [schedule[k]];
  }

  lemma StoredContent(unit: Vec -> Vec, s: State, p: Prepared)
    requires Valid(unit, s)
    ensures p.id in s.docSet ==> p.id in s.idHash
    ensures p.id in s.idHash && s.idHash[p.id] == p.hash ==> p.hash in s.hashes
  {
  }

  /** The collector's turn: contents are only added. */
  lemma CleanCollected(unit: Vec -> Vec, s: State, docs: seq<Offer>, results: seq<Result>, schedule: seq<Event>, k: nat, d: nat)
    requires Valid(unit, s) && Offers(docs) && CleanBatch(docs, d) && CleanNow(s, docs, d)
    requires Covered(s, docs, results, schedule, k) && k < |schedule| && schedule[k].Collect? && schedule[k].i < |docs|
    requires results[schedule[k].i] != Waiting && Parallel(s)
    ensures OneDoc(docs, schedule[k].i)
    ensures var o, r := docs[schedule[k].i], results[schedule[k].i];
            var t := if r.Ready? then Applied(unit, s, o.doc) else s;
            && CleanNow(t, docs, d) && Covered(t, docs, results, schedule, k + 1)
            && |t.chunks| == |s.chunks| + (if r.Ready? && Applies(s, o.doc) then |o.doc.chunks| else 0)
            && !r.Errored?
  {
    var i := schedule[k].i;
    var p := docs[i].doc;
    assert schedule[..k + 1] == schedule[..k] + [schedule[k]];
    assert NoUpdate(s, p);
    if results[i].Ready? {
      AppliedContent(unit, s, p);
      OpenedDim(s, p, d);
      hide Valid, Applied, Applies, PreparedOk, Opened;
      AppliedClean(s, Applied(unit, s, p), docs, i, d);
    }
  }

  ghost predicate OneDoc(docs: seq<Offer>, i: nat) { i < |docs| ==> |docs[i].doc.vecs| == |docs[i].doc.chunks| }

  lemma OpenedDim(s: State, p: Prepared, d: nat)
    requires (s.hnsw.Some? ==> s.dim == d) && (|p.vecs| > 0 ==> |p.vecs[0]| == d)
    ensures |p.vecs| > 0 ==> Opened(s, p).dim == d
  {
  }

  lemma AppliedClean(s: State, t: State, docs: seq<Offer>, i: nat, d: nat)
    requires CleanBatch(docs, d) && CleanNow(s, docs, d) && i < |docs|
    requires forall id :: id in t.idHash ==> id in s.idHash || id == docs[i].doc.id
    requires forall id :: id in s.idHash ==> id in t.idHash && t.idHash[id] == s.idHash[id]
    requires docs[i].doc.id in t.idHash ==> t.idHash[docs[i].doc.id] == docs[i].doc.hash
    requires t.hnsw.Some? ==> t.dim == d
    ensures CleanNow(t, docs, d)
  {
    forall j | 0 <= j < |docs| ensures NoUpdate(t, docs[j].doc) {
      assert NoUpdate(s, docs[j].doc);
    }
  }

  /** The saved store has a document with this content. */
  ghost predicate HasContent(snap: Snapshot, h: Hash) { exists id :: id in snap.hashes && snap.hashes[id] == h }

  lemma AllCovered(unit: Vec -> Vec, s: State, docs: seq<Offer>, results: seq<Result>, schedule: seq<Event>)
    requires Covered(s, docs, results, schedule, |schedule|)
    ensures forall i :: 0 <= i < |docs| && Collect(i) in schedule && |docs[i].doc.chunks| > 0 ==> docs[i].doc.hash in s.hashes
  {
    assert schedule[..|schedule|] == schedule;
  }

  lemma SavedContent(unit: Vec -> Vec, s: State)
    requires Valid(unit, s)
    ensures Saved(s).Some? ==> forall h :: h in s.hashes ==> HasContent(Saved(s).value, h)
  {
    if Saved(s).Some? {
      forall h | h in s.hashes ensures HasContent(Saved(s).value, h) {
        var id := s.hashes[h];
        assert id in Saved(s).value.hashes;
      }
    }
  }

  lemma ReindexedKeeps(unit: Vec -> Vec, s: State)
    ensures Reindexed(unit, s).hashes == s.hashes && Reindexed(unit, s).chunks == s.chunks && Reindexed(unit, s).docSet == s.docSet
  {
  }

  // ---------- the collector ----------

  class Ingester {
    const store: Store
    const disk: Disk
    const journal: Journal
    const every: int
    var pending: seq<string>
    var prog: Progress
    var failed: bool
    /** The documents installed so far, in order. */
    ghost var applied: seq<string>

    /** Ids waiting for a checkpoint are in the store, the saved store is never ahead of
        the store in memory, and every crash so far would have been harmless. */
    ghost predicate Inv()
      reads this, store, disk, journal
    {
      && journal.disk == disk && Normalizes(store.unit)
      && Valid(store.unit, store.Value())
      && (forall id :: id in pending ==> id in store.docSet && id in applied)
      && DocsOf(disk.store) <= store.docSet
      && disk.AlwaysSafe(store.unit)
      && journal.done <= store.docSet
    }

    /** Nothing installed is forgotten: it waits for a checkpoint or a replay finds it. */
    ghost predicate Kept()
      reads this, disk, journal
    {
      && journal.disk == disk && journal.Tidy()
      && forall id :: id in applied ==> id in pending || id in Replayed(disk.log)
    }

    constructor (store: Store, disk: Disk, journal: Journal, every: int)
      requires journal.disk == disk && Normalizes(store.unit) && Valid(store.unit, store.Value())
      requires DocsOf(disk.store) <= store.docSet && disk.AlwaysSafe(store.unit)
      requires journal.done <= store.docSet
      ensures this.store == store && this.disk == disk && this.journal == journal && this.every == every
      ensures Inv() && pending == [] && prog == Progress(0, 0, 0, 0) && applied == []
    {
      this.store, this.disk, this.journal, this.every := store, disk, journal, every;
      pending, prog, failed, applied := [], Progress(0, 0, 0, 0), false, [];
    }

    /** Save: serialize, then replace the file. */
    method Save() returns (ok: bool)
      requires Inv()
      modifies disk
      ensures Inv() && disk.log == old(disk.log) && (disk.store == old(disk.store) || disk.store == Saved(store.Value()))
      ensures ok ==> DocsOf(disk.store) == store.docSet && disk.store == Saved(store.Value()) && disk.store.Some?
    {
      ghost var unit := store.unit;
      var snap := store.Save();
      if snap.None? {
        return false;
      }
      SavedLoads(unit, store.Value());
      hide Valid, Saved, Loadable, DocIds;
      ok := disk.WriteStore(snap.value);
    }

    /** The checkpoint closure: save first, and only then mark done. */
    method Checkpoint() returns (ok: bool)
      requires Inv()
      modifies this`pending, disk, journal
      ensures Inv() && (ok ==> pending == [] && disk.store == Saved(store.Value()) && disk.store.Some?)
      ensures !ok ==> pending == old(pending) && (disk.store == old(disk.store) || disk.store == Saved(store.Value()))
      ensures ok ==> journal.done == old(journal.done) + set id | id in old(pending)
      ensures old(journal.done) <= journal.done <= old(journal.done) + set id | id in old(pending)
      ensures ok ==> disk.log == if old(pending) == [] then old(disk.log)
                                 else AddLines(old(disk.log), Marks(old(journal.done), old(pending)))
      ensures old(Kept()) ==> Kept()
    {
      hide Valid, DocsOf, DoneIds, Replayed, Normalizes;
      ok := Save();
      if !ok {
        return;
      }
      if |pending| > 0 {
        ok := MarkPending();
        if !ok {
          return;
        }
      }
      pending := [];
    }

    method MarkPending() returns (ok: bool)
      requires Inv() && DocsOf(disk.store) == store.docSet
      modifies disk, journal
      ensures Inv() && disk.store == old(disk.store)
      ensures journal.done == old(journal.done) + set id | id in pending
      ensures ok ==> disk.log == AddLines(old(disk.log), Marks(old(journal.done), pending))
      ensures old(Kept()) ==> Kept() && (ok ==> forall id :: id in pending ==> id in Replayed(disk.log))
    {
      hide Valid, DocsOf, DoneIds, Normalizes, Partial, Replayed;
      ghost var log, done := disk.log, journal.done;
      MarksAre(done, pending);
      ok := journal.MarkDone(pending);
      CutsAreSafe(store.unit, disk.store, log, Marks(done, pending));
      NothingIsPartial(log, Marks(done, pending));
      StillReplayed(log, Marks(done, pending), disk.log);
    }

    method NoteFailure(id: string)
      requires Inv()
      modifies disk, journal`broken
      ensures Inv() && disk.store == old(disk.store) && (old(Kept()) ==> Kept())
    {
      hide Valid, DocsOf, Normalizes, Partial, Replayed;
      ghost var log := disk.log;
      var ok := journal.MarkFailed(id);
      assert DoneIds([Failed(id)]) == {};
      CutsAreSafe(store.unit, disk.store, log, [Failed(id)]);
      StillReplayed(log, [Failed(id)], disk.log);
    }

    /** The collector's turn for one result. */
    method TakeResult(o: Offer, r: Result)
      requires Inv() && r != Waiting && PreparedOk(o.doc)
      modifies this, store, disk, journal
      ensures Inv()
      ensures store.Value() == if r.Ready? then Applied(store.unit, old(store.Value()), o.doc) else old(store.Value())
      ensures prog == if r.Skipped? || (r.Ready? && !Applies(old(store.Value()), o.doc)) then old(prog).(skipped := old(prog).skipped + 1)
                      else if r.Errored? then old(prog).(failed := old(prog).failed + 1)
                      else old(prog).(done := old(prog).done + 1, chunks := old(prog).chunks + |o.doc.chunks|)
      ensures old(journal.done) <= journal.done <= old(journal.done) + set id | id in applied
      ensures applied == old(applied) + if prog.done > old(prog).done then [o.doc.id] else []
      ensures old(Kept()) ==> Kept()
    {
      hide Valid, Applied, Applies, DocsOf, Normalizes, Replayed, DoneIds;
      ValidParts(store.unit, store.Value());
      match r {
        case Skipped =>
          prog := prog.(skipped := prog.skipped + 1);
        case Errored =>
          prog := prog.(failed := prog.failed + 1);
          NoteFailure(o.doc.id);
        case Ready =>
          Install(o.doc);
      }
    }

    /** A prepared document, unless a concurrent duplicate won; a checkpoint when it is due. */
    method Install(p: Prepared)
      requires Inv() && PreparedOk(p)
      modifies this, store, disk, journal
      ensures Inv()
      ensures store.Value() == Applied(store.unit, old(store.Value()), p)
      ensures prog == if Applies(old(store.Value()), p) then old(prog).(done := old(prog).done + 1, chunks := old(prog).chunks + |p.chunks|)
                      else old(prog).(skipped := old(prog).skipped + 1)
      ensures old(journal.done) <= journal.done <= old(journal.done) + set id | id in applied
      ensures applied == old(applied) + if prog.done > old(prog).done then [p.id] else []
      ensures old(Kept()) ==> Kept()
    {
      hide Valid, Applied, Applies, DocsOf, Normalizes, Replayed, DoneIds;
      var changed := Apply(p);
      if changed {
        Pend(p.id);
        var ok := CheckpointIfDue();
        failed := failed || !ok;
      }
    }

    method Apply(p: Prepared) returns (changed: bool)
      requires Inv() && PreparedOk(p)
      modifies this`prog, store
      ensures Inv() && (changed ==> p.id in store.docSet)
      ensures Parallel(old(store.Value())) && |p.vecs| == |p.chunks|
      ensures store.Value() == Applied(store.unit, old(store.Value()), p) && changed == Applies(old(store.Value()), p)
      ensures prog == if changed then old(prog).(done := old(prog).done + 1, chunks := old(prog).chunks + |p.chunks|)
                      else old(prog).(skipped := old(prog).skipped + 1)
      ensures old(Kept()) ==> Kept()
    {
      hide Valid, Applied, Applies, DocsOf, Normalizes, Replayed, DoneIds;
      ghost var s := store.Value();
      ValidParts(store.unit, s);
      AppliedOk(store.unit, s, p);
      AppliedDocs(store.unit, s, p);
      changed := store.ApplyPrepared(p);
      prog := if changed then prog.(done := prog.done + 1, chunks := prog.chunks + |p.chunks|)
              else prog.(skipped := prog.skipped + 1);
    }

    lemma PendingIsApplied()
      requires Inv()
      ensures (set id | id in pending) <= set id | id in applied
    {
      hide Valid, DocsOf, Normalizes;
    }

    method CheckpointIfDue() returns (ok: bool)
      requires Inv()
      modifies this`pending, disk, journal
      ensures Inv() && (old(Kept()) ==> Kept())
      ensures old(journal.done) <= journal.done <= old(journal.done) + set id | id in applied
    {
      hide *;
      PendingIsApplied();
      ok := true;
      if every > 0 && |pending| >= every {
        ok := Checkpoint();
      }
    }

    method Pend(id: string)
      requires Inv() && id in store.docSet
      modifies this`pending, this`applied
      ensures Inv() && pending == old(pending) + [id] && applied == old(applied) + [id]
      ensures old(Kept()) ==> Kept()
    {
      hide Valid, Normalizes, DocsOf, Replayed;
      pending, applied := pending + [id], applied + [id];
    }

    /** Ingest: any interleaving of workers and collector, then the last checkpoint and
        the index. */
    method Run(docs: seq<Offer>, schedule: seq<Event>, ghost d: nat) returns (ok: bool, ghost t: Trace)
      requires Inv() && Offers(docs) && Schedule(schedule, |docs|) && prog == Progress(0, 0, 0, 0)
      requires pending == [] && applied == []
      modifies this, store, disk, journal
      ensures Inv() && (ok ==> pending == [])
      // every worker answered from the store and the marks of its time, and the store ends
      // with what was ready, applied in the order of collection, and reindexed
      ensures TraceOk(t) && t.docs == docs && t.schedule == schedule && Worked(t, |schedule|)
      ensures t.unit == store.unit && t.start == old(store.Value()) && t.given == old(journal.done)
      ensures store.Value() == Final(t) && prog == After(t, |schedule|).prog
      ensures forall id :: id in applied ==> TakenBefore(t, |schedule|, id)
      // every new text arrives, the update of a stored document as well as a new one
      ensures OneDim(old(store.Value()), docs, d) ==>
                forall i :: 0 <= i < |docs| && Collect(i) in schedule && NewText(old(store.Value()), old(journal.done), docs, i) ==>
                  Holds(store.Value(), docs[i].doc)
      // with a tidy journal, a run without errors leaves every installed document to a replay
      ensures |applied| == prog.done
      ensures ok && old(journal.Tidy()) ==> forall id :: id in applied ==> id in Replayed(disk.log)
      ensures prog.done + prog.failed + prog.skipped == Collected(schedule)
      ensures CleanBatch(docs, d) && old(CleanNow(store.Value(), docs, d)) ==>
                && |store.chunks| == |old(store.chunks)| + prog.chunks && prog.failed == 0
                && forall i :: 0 <= i < |docs| && Collect(i) in schedule && |docs[i].doc.chunks| > 0 ==>
                     docs[i].doc.hash in store.hashes &&
                     (ok ==> disk.store.Some? && HasContent(disk.store.value, docs[i].doc.hash))
    {
      hide *;
      InvParts();
      ghost var s0 := store.Value();
      ghost var clean := CleanBatch(docs, d) && CleanNow(s0, docs, d);
      ghost var start := |store.chunks|;
      ghost var tidy := journal.Tidy();
      var results := seq(|docs|, _ => Waiting);
      RunStarts(s0, docs, results, schedule);
      RunInvStart(docs, results, schedule, d, clean, tidy);
      t := Trace(store.unit, s0, journal.done, docs, schedule, results, []);
      FollowsStart(t);
      for k := 0 to |schedule|
        invariant RunInv(start, docs, results, schedule, k, d, clean, tidy) && |results| == |docs|
        invariant Follows(t, k) && t.docs == docs && t.schedule == schedule && t.results == results
        invariant t.unit == store.unit && t.start == s0 && t.given == old(journal.done)
      {
        results, t := HandleEvent(start, docs, results, schedule, k, t, d, clean, tidy);
      }
      FollowsParts(t, |schedule|);
      FinalIs(t);
      AllNewTextsArrive(t, d);
      RunInvParts(start, docs, results, schedule, |schedule|, d, clean, tidy);
      assert schedule[..|schedule|] == schedule;
      ghost var s := store.Value();
      InvParts();
      StoreFields();
      ok := Checkpoint();
      if tidy && ok {
        KeptMeans();
      }
      FinalReindex();
      if clean {
        AllCovered(store.unit, s, docs, results, schedule);
        SavedContent(store.unit, s);
      }
      ok := ok && !failed;
    }

    /** The run after k events, start being the number of chunks at its beginning. */
    ghost predicate RunInv(start: nat, docs: seq<Offer>, results: seq<Result>, schedule: seq<Event>, k: nat, d: nat, clean: bool, tidy: bool)
      reads this, store, disk, journal
    {
      && Inv() && k <= |schedule| && ResultsIn(results, schedule, k)
      && prog.done + prog.failed + prog.skipped == Collected(schedule[..k])
      && |applied| == prog.done && (tidy ==> Kept())
      && (clean ==>
            && CleanNow(store.Value(), docs, d) && Covered(store.Value(), docs, results, schedule, k)
            && |store.chunks| == start + prog.chunks && prog.failed == 0)
    }

    lemma RunInvStart(docs: seq<Offer>, results: seq<Result>, schedule: seq<Event>, d: nat, clean: bool, tidy: bool)
      requires Inv() && prog == Progress(0, 0, 0, 0) && pending == [] && applied == []
      requires ResultsIn(results, schedule, 0) && Collected(schedule[..0]) == 0 && (tidy ==> journal.Tidy())
      requires clean ==> CleanNow(store.Value(), docs, d) && Covered(store.Value(), docs, results, schedule, 0)
      ensures RunInv(|store.chunks|, docs, results, schedule, 0, d, clean, tidy)
    {
      hide Valid, CleanNow, Covered, ResultsIn, Collected, Replayed;
    }

    lemma KeptMeans()
      requires Kept() && pending == []
      ensures forall id :: id in applied ==> id in Replayed(disk.log)
    {
    }

    lemma RunInvParts(start: nat, docs: seq<Offer>, results: seq<Result>, schedule: seq<Event>, k: nat, d: nat, clean: bool, tidy: bool)
      requires RunInv(start, docs, results, schedule, k, d, clean, tidy)
      ensures Inv() && k <= |schedule| && ResultsIn(results, schedule, k)
      ensures prog.done + prog.failed + prog.skipped == Collected(schedule[..k])
      ensures |applied| == prog.done && (tidy ==> Kept())
      ensures clean ==>
                && CleanNow(store.Value(), docs, d) && Covered(store.Value(), docs, results, schedule, k)
                && |store.chunks| == start + prog.chunks && prog.failed == 0
    {
    }

    lemma RunInvFrom(start: nat, docs: seq<Offer>, results: seq<Result>, schedule: seq<Event>, k: nat, d: nat, clean: bool, tidy: bool)
      requires Inv() && k <= |schedule| && ResultsIn(results, schedule, k)
      requires prog.done + prog.failed + prog.skipped == Collected(schedule[..k])
      requires |applied| == prog.done && (tidy ==> Kept())
      requires clean ==>
                 && CleanNow(store.Value(), docs, d) && Covered(store.Value(), docs, results, schedule, k)
                 && |store.chunks| == start + prog.chunks && prog.failed == 0
      ensures RunInv(start, docs, results, schedule, k, d, clean, tidy)
    {
    }

    /** The run so far is the one on record: store, counts, marks, and installed documents. */
    ghost predicate Follows(t: Trace, k: nat)
      reads this, store, journal
    {
      && TraceOk(t) && t.unit == store.unit && Worked(t, k)
      && Outcome(store.Value(), prog) == After(t, k)
      && Bounded(t, k, journal.done) && forall id :: id in applied ==> TakenBefore(t, k, id)
    }

    lemma FollowsStart(t: Trace)
      requires Inv() && prog == Progress(0, 0, 0, 0) && applied == []
      requires t.unit == store.unit && t.start == store.Value() && t.given == journal.done && t.dones == []
      requires Offers(t.docs) && Schedule(t.schedule, |t.docs|) && |t.results| == |t.docs|
      ensures Follows(t, 0)
    {
      ValidParts(store.unit, store.Value());
      hide Valid, Offers, Schedule, DocsOf, Normalizes;
    }

    lemma FollowsParts(t: Trace, k: nat)
      requires Follows(t, k)
      ensures TraceOk(t) && t.unit == store.unit && Worked(t, k) && k <= |t.schedule|
      ensures Outcome(store.Value(), prog) == After(t, k)
      ensures Bounded(t, k, journal.done) && forall id :: id in applied ==> TakenBefore(t, k, id)
    {
      hide TraceOk, Bounded, After, TakenBefore;
    }

    lemma FollowsFrom(t: Trace, k: nat)
      requires TraceOk(t) && t.unit == store.unit && Worked(t, k) && k <= |t.schedule|
      requires Outcome(store.Value(), prog) == After(t, k)
      requires Bounded(t, k, journal.done) && forall id :: id in applied ==> TakenBefore(t, k, id)
      ensures Follows(t, k)
    {
      hide TraceOk, Bounded, After, TakenBefore, Worked;
    }

    /** One event: a worker's answer or the collector's turn. */
    method HandleEvent(ghost start: nat, docs: seq<Offer>, results: seq<Result>, schedule: seq<Event>, k: nat,
                       ghost t: Trace, ghost d: nat, ghost clean: bool, ghost tidy: bool)
      returns (r: seq<Result>, ghost u: Trace)
      requires RunInv(start, docs, results, schedule, k, d, clean, tidy) && |results| == |docs| && k < |schedule|
      requires Follows(t, k) && t.docs == docs && t.schedule == schedule && t.results == results
      requires Offers(docs) && Schedule(schedule, |docs|) && (clean ==> CleanBatch(docs, d))
      modifies this, store, disk, journal
      ensures RunInv(start, docs, r, schedule, k + 1, d, clean, tidy) && |r| == |docs|
      ensures Follows(u, k + 1) && u == t.(results := r, dones := u.dones)
    {
      hide *;
      RunInvParts(start, docs, results, schedule, k, d, clean, tidy);
      FollowsParts(t, k);
      InvParts();
      EventFits(docs, results, schedule, k);
      CollectedNext(schedule, k);
      r := results;
      ghost var done := journal.done;
      match schedule[k] {
        case Prepare(i) =>
          StoreFields();
          var result := PrepareForIngest(store, journal, docs[i]);
          PreparedNext(results, schedule, k, result);
          if clean {
            CleanPrepared(store.unit, store.Value(), docs, results, schedule, k, d, result, journal.done);
          }
          r := results[i := result];
          u := Next(t, k, result, done);
          NextWorked(t, k, result, done);
          NextAfter(t, k, result, done);
          NextIs(t, k, result, done);
        case Collect(i) =>
          ghost var s, before := store.Value(), Outcome(store.Value(), prog);
          StoreFields();
          OfferOk(docs, i);
          TakeResult(docs[i], results[i]);
          StoreFields();
          CollectedKeepsResults(results, schedule, k);
          if clean {
            CleanCollected(store.unit, s, docs, results, schedule, k, d);
          }
          u := Next(t, k, results[i], done);
          NextWorked(t, k, results[i], done);
          NextAfter(t, k, results[i], done);
          NextIs(t, k, results[i], done);
          TurnIs(store.unit, before, docs[i].doc, results[i]);
          TakenIs(t, k);
          MarksNext(u, k + 1, done, journal.done, applied);
      }
      RunInvFrom(start, docs, r, schedule, k + 1, d, clean, tidy);
      FollowsFrom(u, k + 1);
    }

    lemma InvParts()
      requires Inv()
      ensures Normalizes(store.unit) && Valid(store.unit, store.Value()) && Parallel(store.Value())
      ensures journal.done <= store.docSet
    {
      ValidParts(store.unit, store.Value());
    }

    lemma StoreFields()
      ensures var s := store.Value();
              s.chunks == store.chunks && s.docSet == store.docSet && s.hashes == store.hashes && s.idHash == store.idHash
    {
    }

    method FinalReindex()
      requires Inv()
      modifies store
      ensures Inv() && store.hashes == old(store.hashes) && store.chunks == old(store.chunks)
      ensures store.Value() == Reindexed(store.unit, Ensured(store.unit, old(store.Value())))
    {
      InvParts();
      EnsuredOk(store.unit, store.Value());
      EnsuredValid(store.unit, store.Value());
      ReindexedValid(store.unit, Ensured(store.unit, store.Value()));
      ReindexedKeeps(store.unit, Ensured(store.unit, store.Value()));
      hide Valid, Normalizes, Ensured, Reindexed, DocsOf, DoneIds, Replayed;
      store.Reindex();
    }
  }

  /** Cutting a journal write short is harmless when everything being marked is saved. */
  lemma CutsAreSafe(unit: Vec -> Vec, store: Option<Snapshot>, log: LogFile, ls: seq<Line>)
    requires Safe(unit, Durable(store, log)) && DoneIds(ls) <= DocsOf(store)
    ensures forall d :: d in Cuts(store, log, ls) ==> Safe(unit, d)
    ensures forall f: LogFile :: Partial(log, ls, f) ==> Durable(store, f) in Cuts(store, log, ls)
  {
    hide Partial, Loadable, DocsOf, DoneIds, Replayed;
    forall f: LogFile | Partial(log, ls, f) ensures Replayed(f) <= DocsOf(store) {
      PartialReplay(log, ls, f);
    }
  }

  lemma StillReplayed(f: LogFile, ls: seq<Line>, r: LogFile)
    requires Partial(f, ls, r) || r == f
    ensures f.tail.Clean? || r == f ==> Replayed(f) <= Replayed(r)
  {
    if r != f {
      PartialReplay(f, ls, r);
    }
  }

  /** Whatever a crash leaves can be resumed: the store loads, the journal replays, and
      the next run starts from its invariant. */
  method Resume(unit: Vec -> Vec, crashed: Durable, every: int) returns (run: Ingester)
    requires Normalizes(unit) && Safe(unit, crashed)
    ensures fresh(run) && fresh(run.store) && fresh(run.disk) && fresh(run.journal)
    ensures run.Inv() && run.pending == [] && run.applied == [] && run.prog == Progress(0, 0, 0, 0)
    ensures crashed.log.tail.Clean? ==> run.journal.Tidy()
    ensures run.store.Value() == if crashed.store.None? then EMPTY else Loaded(crashed.store.value)
    ensures run.disk.Now() == crashed && run.journal.done == Replayed(crashed.log)
  {
    hide Valid, DocIds, Loaded;
    var disk := new Disk(crashed.store, crashed.log);
    var journal := new Journal.Open(disk);
    var store: Store;
    if crashed.store.None? {
      EmptyIsValid(unit);
      store := new Store(unit);
    } else {
      LoadedDocs(unit, crashed.store.value);
      store := new Store.Load(unit, crashed.store.value);
    }
    assert DoneIds([]) == {};
    run := new Ingester(store, disk, journal, every);
  }

  /** In a valid store no chunk is there twice, and no two documents have one content. */
  lemma NothingTwice(unit: Vec -> Vec, s: State)
    requires Valid(unit, s)
    ensures forall i, j :: 0 <= i < j < |s.chunks| ==> Ids(s.chunks)[i] != Ids(s.chunks)[j]
    ensures forall a, b :: a in s.idHash && b in s.idHash && s.idHash[a] == s.idHash[b] ==> a == b
  {
    InverseIsInjective(s.hashes, s.idHash);
    hide Id, BooksOk, Shape, Agrees;
    forall i, j | 0 <= i < j < |s.chunks| ensures Ids(s.chunks)[i] != Ids(s.chunks)[j] {
      IdsAreDistinct(s.chunks, i, j);
    }
  }
}
