/** What the public operations leave behind for the next caller: indexes that can be searched,
    the documents and chunks one expects, and histories that only grow. */
module StoreEffects {
  import opened Vectors
  import opened StoreStates
  import opened StoreLaws
  import opened StoreRuns
  import opened StoreBatches

  // ---------- ready for the next search ----------

  /** The index is left for the first search, or holds exactly the chunks and nothing is due. */
  ghost predicate Settled(unit: Vec -> Vec, s: State) { s.deferIndex || (!s.needsRebuild && Current(unit, s)) }

  lemma ReindexSettles(unit: Vec -> Vec, s: State)
    requires Normalizes(unit) && IndexOk(unit, s)
    ensures Settled(unit, Reindexed(unit, s))
  {
    ReindexedOk(unit, s);
    hide IndexOk, Reindexed, Current, Normalizes;
  }

  lemma SearchSettles(unit: Vec -> Vec, s: State)
    requires Normalizes(unit) && IndexOk(unit, s) && (s.deferIndex || Settled(unit, s))
    ensures Settled(unit, Ensured(unit, s)) && !Ensured(unit, s).deferIndex
  {
    EnsuredOk(unit, s);
    EnsuredNow(unit, s);
    AgreesIs(unit, Ensured(unit, s));
    hide IndexOk, Ensured, Current, Normalizes;
  }

  lemma EnsuredNow(unit: Vec -> Vec, s: State)
    ensures !s.deferIndex ==> Ensured(unit, s) == s
  {
  }

  lemma AgreesIs(unit: Vec -> Vec, s: State)
    requires IndexOk(unit, s)
    ensures s.deferIndex || s.needsRebuild || Current(unit, s)
  {
    hide Shape, InOrder, DocIds, Current;
  }

  lemma AddSettles(unit: Vec -> Vec, s: State, docs: seq<Prepared>)
    requires Normalizes(unit) && Valid(unit, s) && AllOk(docs) && (Batch(s, docs) != [] || Settled(unit, s))
    ensures Settled(unit, Added(unit, s, docs))
  {
    ValidParts(unit, s);
    var batch := Batch(s, docs);
    BatchIsNew(s, docs);
    EnsuredValid(unit, s);
    var e := Ensured(unit, s);
    ValidParts(unit, e);
    AppliedAllOk(unit, e, batch);
    var t := AppliedAll(unit, e, batch);
    ValidParts(unit, t);
    SharedIndexOk(unit, t);
    ReindexSettles(unit, Shared(t));
    ReindexSettles(unit, t);
    AddedForm(unit, s, docs);
    hide Valid, IndexOk, BooksOk, Added, Batch, AppliedAll, AnyApplies, Ensured, Reindexed, Settled, Normalizes, Shape, AllOk, NewBatch;
  }

  lemma AddedForm(unit: Vec -> Vec, s: State, docs: seq<Prepared>)
    requires AllOk(docs) && Parallel(s)
    ensures (forall p :: p in docs ==> |p.vecs| == |p.chunks|)
    ensures (forall p :: p in Batch(s, docs) ==> |p.vecs| == |p.chunks|) && Parallel(Ensured(unit, s))
    ensures Added(unit, s, docs) ==
            if |Batch(s, docs)| == 0 then s
            else
              var t := AppliedAll(unit, Ensured(unit, s), Batch(s, docs));
              Reindexed(unit, if AnyApplies(unit, Ensured(unit, s), Batch(s, docs)) then Shared(t) else t)
  {
    BatchOk(s.hashes, docs);
    hide Ensured, AppliedAll, AnyApplies, Reindexed, Offered, WithChunks;
  }

  lemma DeleteSettles(unit: Vec -> Vec, s: State, id: string)
    requires Normalizes(unit) && Valid(unit, s) && (id in s.docSet || Settled(unit, s))
    ensures Settled(unit, Deleted(unit, s, id))
  {
    ValidParts(unit, s);
    var t := Removed(s, id);
    var u := t.(versions := t.versions - {id});
    RemovedOk(unit, s, id);
    IndexSame(unit, t, u);
    ReindexSettles(unit, u);
    RemovedCount(unit, s, id);
    if id !in s.docSet {
      RemovedNothing(s, id);
      RemovedKeepsIndex(s, id);
      SameCurrent(unit, s, u);
    }
    DeletedForm(unit, s, id);
    hide Valid, IndexOk, BooksOk, Removed, Reindexed, Settled, Normalizes, Deleted, Shape;
  }

  lemma DeletedForm(unit: Vec -> Vec, s: State, id: string)
    requires Parallel(s)
    ensures var t := Removed(s, id);
            var u := t.(versions := t.versions - {id});
            Deleted(unit, s, id) == if |t.chunks| < |s.chunks| then Reindexed(unit, u) else u
  {
    hide Removed, Reindexed;
  }

  lemma RemovedCount(unit: Vec -> Vec, s: State, id: string)
    requires Valid(unit, s)
    ensures Parallel(s) && (|Removed(s, id).chunks| < |s.chunks| <==> id in s.docSet)
    ensures id !in s.docSet ==> id !in DocIds(s.chunks)
  {
    WithoutNone(s.chunks, id);
    hide DocIds, Inverse, Histories, InOrder, Agrees, Kept;
  }

  lemma RemovedKeepsIndex(s: State, id: string)
    requires Parallel(s)
    ensures var t := Removed(s, id); t.hnsw == s.hnsw && t.lex == s.lex && t.deferIndex == s.deferIndex
  {
    hide Without;
  }

  lemma SameCurrent(unit: Vec -> Vec, s: State, u: State)
    requires u.hnsw == s.hnsw && u.lex == s.lex && u.deferIndex == s.deferIndex && u.needsRebuild == s.needsRebuild
    requires u.chunks == s.chunks && u.embeds == s.embeds
    ensures Settled(unit, s) ==> Settled(unit, u)
  {
    hide Ids, Units, Entries;
  }

  lemma MergeSettles(unit: Vec -> Vec, dst: State, src: State)
    requires Normalizes(unit) && Valid(unit, dst) && Valid(unit, src) && |src.embeds| == |src.chunks|
    requires MergedFrom(unit, dst, src).Merged? && (src.chunks != [] || Settled(unit, dst))
    ensures Settled(unit, MergedFrom(unit, dst, src).state)
  {
    MergedIs(unit, dst, src);
    if |src.chunks| > 0 {
      TakenValid(unit, dst, src);
      var t := Taken(unit, dst, src);
      BookedIndex(unit, t, src, Take(dst, src));
      var b := Booked(t, src, Take(dst, src));
      EnsuredOk(unit, b);
      ReindexSettles(unit, Ensured(unit, b));
      MergeEndIs(unit, dst, src, t);
    }
    hide *;
  }

  lemma MergeEndIs(unit: Vec -> Vec, dst: State, src: State, t: State)
    ensures FromTaken(unit, dst, src, t) == Reindexed(unit, Ensured(unit, Booked(t, src, Take(dst, src))))
  {
    hide Reindexed, Ensured, Booked, Take;
  }

  lemma LoadSettles(unit: Vec -> Vec, snap: Snapshot)
    requires Injective(snap.hashes)
    ensures Settled(unit, Loaded(snap))
  {
  }

  /** Operations that bring the indexes up to date, or find nothing to do. */
  predicate IsPublic(op: Op) { !op.ApplyPrepared? }

  /** Every public operation leaves a store that can be searched as it is. */
  lemma StepSettles(unit: Vec -> Vec, s: State, op: Op)
    requires Normalizes(unit) && Valid(unit, s) && OpOk(unit, op) && IsPublic(op) && Settled(unit, s)
    ensures Settled(unit, Step(unit, s, op))
  {
    ValidParts(unit, s);
    match op {
      case AddDocuments(docs) => AddSettles(unit, s, docs);
      case DeleteDocument(id) => DeleteSettles(unit, s, id);
      case ApplyPrepared(p) =>
      case Merge(src) =>
        ValidParts(unit, src);
        if MergedFrom(unit, s, src).Merged? {
          MergeSettles(unit, s, src);
        }
      case Search => SearchSettles(unit, s);
      case Reindex => EnsuredOk(unit, s); ReindexSettles(unit, Ensured(unit, s));
      case SaveAndLoad =>
        if Saved(s).Some? && Injective(Saved(s).value.hashes) {
          LoadSettles(unit, Saved(s).value);
        }
    }
    hide *;
  }

  lemma {:induction false} RunSettles(unit: Vec -> Vec, s: State, ops: seq<Op>)
    requires Normalizes(unit) && Valid(unit, s) && OpsOk(unit, ops) && Settled(unit, s)
    requires forall i :: 0 <= i < |ops| ==> IsPublic(ops[i])
    ensures Settled(unit, Run(unit, s, ops))
    decreases |ops|
  {
    hide Valid, Settled, Normalizes, OpOk, Step;
    if |ops| > 0 {
      StepOk(unit, s, ops[0]);
      StepSettles(unit, s, ops[0]);
      RunSettles(unit, Step(unit, s, ops[0]), ops[1..]);
    }
  }

  /** And after any run at all, ingest steps included, Reindex does. */
  lemma ReindexSettlesRun(unit: Vec -> Vec, s: State, ops: seq<Op>)
    requires Normalizes(unit) && Valid(unit, s) && OpsOk(unit, ops)
    ensures var t := Step(unit, Run(unit, s, ops), Reindex); Settled(unit, t) && !t.deferIndex
  {
    var r := Run(unit, s, ops);
    hide Run, Settled, Normalizes, Valid, OpOk;
    ValidParts(unit, r);
    EnsuredOk(unit, r);
    ReindexSettles(unit, Ensured(unit, r));
    ReindexedNotDeferred(unit, Ensured(unit, r));
    hide Ensured, Reindexed, IndexOk, BooksOk;
  }

  lemma ReindexedNotDeferred(unit: Vec -> Vec, s: State)
    ensures Reindexed(unit, s).deferIndex == s.deferIndex
  {
    hide Ids, Units, Entries;
  }

  /** What a caller relies on between public calls. */
  ghost predicate Searchable(unit: Vec -> Vec, s: State) { Normalizes(unit) && Valid(unit, s) && Settled(unit, s) }

  lemma AddSearchable(unit: Vec -> Vec, s: State, docs: seq<Prepared>)
    requires AllOk(docs) && Parallel(s)
    ensures forall p :: p in docs ==> |p.vecs| == |p.chunks|
    ensures Searchable(unit, s) ==> Searchable(unit, Added(unit, s, docs))
  {
    AddedForm(unit, s, docs);
    if Searchable(unit, s) {
      AddedOk(unit, s, docs);
      AddSettles(unit, s, docs);
    }
    hide Valid, Normalizes, Settled, Added, Ensured, Reindexed, AppliedAll, Batch;
  }

  lemma DeleteSearchable(unit: Vec -> Vec, s: State, id: string)
    requires Parallel(s)
    ensures Searchable(unit, s) ==> Searchable(unit, Deleted(unit, s, id))
    ensures Deleted(unit, s, id).chunks == OtherChunks(s.chunks, id) == Removed(s, id).chunks
    ensures Deleted(unit, s, id).deferIndex == s.deferIndex
  {
    if Searchable(unit, s) {
      DeletedOk(unit, s, id);
      DeleteSettles(unit, s, id);
    }
    DeletedForm(unit, s, id);
    RemovedOthers(s, id);
    RemovedKeepsIndex(s, id);
    var t := Removed(s, id);
    var u := t.(versions := t.versions - {id});
    ReindexKeeps(unit, u);
    ReindexedNotDeferred(unit, u);
    hide Valid, Normalizes, Settled, Deleted, Removed, Reindexed, OtherChunks, OtherVecs;
  }

  lemma ReindexSearchable(unit: Vec -> Vec, s: State)
    ensures Searchable(unit, s) ==> Searchable(unit, Reindexed(unit, Ensured(unit, s)))
  {
    if Searchable(unit, s) {
      StepOk(unit, s, Reindex);
      StepSettles(unit, s, Reindex);
    }
    hide Valid, Normalizes, Settled, Ensured, Reindexed;
  }

  lemma MergeSearchable(unit: Vec -> Vec, dst: State, src: State)
    requires |src.embeds| == |src.chunks| && Valid(unit, src)
    ensures Searchable(unit, dst) && MergedFrom(unit, dst, src).Merged? ==> Searchable(unit, MergedFrom(unit, dst, src).state)
  {
    if Searchable(unit, dst) && MergedFrom(unit, dst, src).Merged? {
      MergedOk(unit, dst, src);
      MergeSettles(unit, dst, src);
    }
    hide Valid, Normalizes, Settled, MergedFrom;
  }

  // ---------- DeleteDocument ----------

  /** The chunks of the other documents, in order. */
  function OtherChunks(chunks: seq<Passage>, id: string): seq<Passage> {
    if |chunks| == 0 then []
    else
      var c := chunks[|chunks| - 1];
      OtherChunks(chunks[..|chunks| - 1], id) + if c.docId == id then [] else [c]
  }

  /** And their vectors. */
  function OtherVecs(chunks: seq<Passage>, vecs: seq<Vec>, id: string): seq<Vec>
    requires |vecs| == |chunks|
  {
    if |chunks| == 0 then []
    else
      var n := |chunks| - 1;
      OtherVecs(chunks[..n], vecs[..n], id) + if chunks[n].docId == id then [] else [vecs[n]]
  }

  lemma {:induction false} OthersAreRest(chunks: seq<Passage>, embeds: seq<Vec>, truth: seq<Vec>, id: string)
    requires |embeds| == |chunks| == |truth|
    ensures var rest := Rest(RowsOf(chunks, embeds, truth), {id});
            && |OtherChunks(chunks, id)| == |OtherVecs(chunks, embeds, id)| == |rest|
            && forall i :: 0 <= i < |rest| ==>
                 rest[i].chunk == OtherChunks(chunks, id)[i] && rest[i].embed == OtherVecs(chunks, embeds, id)[i]
    decreases |chunks|
  {
    if |chunks| > 0 {
      var n := |chunks| - 1;
      OthersAreRest(chunks[..n], embeds[..n], truth[..n], id);
      var rows := RowsOf(chunks, embeds, truth);
      assert rows[..n] == RowsOf(chunks[..n], embeds[..n], truth[..n]);
    }
  }

  lemma RemovedOthers(s: State, id: string)
    requires Parallel(s)
    ensures Removed(s, id).chunks == OtherChunks(s.chunks, id) && Removed(s, id).embeds == OtherVecs(s.chunks, s.embeds, id)
  {
    RemovedRows(s, id);
    OthersAreRest(s.chunks, s.embeds, s.truth, id);
    var t := Removed(s, id);
    hide Removed, Rest, OtherChunks, OtherVecs;
    assert forall i :: 0 <= i < |t.chunks| ==> Rows(t)[i] == Row(t.chunks[i], t.embeds[i], t.truth[i]);
  }

  /** A delete on a store that is ready for search leaves it ready: both indexes and the arrays
      hold exactly the other documents' chunks, in order, and the document is forgotten. */
  lemma DeleteLeavesOthers(unit: Vec -> Vec, s: State, id: string)
    requires Normalizes(unit) && Valid(unit, s) && Settled(unit, s) && !s.deferIndex && s.hnsw.Some?
    ensures Parallel(s)
    ensures var t := Deleted(unit, s, id);
            var others := OtherChunks(s.chunks, id);
            && !t.deferIndex && !t.needsRebuild && t.hnsw.Some?
            && t.chunks == others && t.hnsw.value.ids == Ids(others) && t.lex == Entries(others)
            && t.hnsw.value.vecs == Units(unit, OtherVecs(s.chunks, s.embeds, id))
            && t.docSet == s.docSet - {id} && t.idHash == s.idHash - {id} && id !in t.versions
  {
    ValidParts(unit, s);
    DeletedOk(unit, s, id);
    DeleteSettles(unit, s, id);
    RemovedOthers(s, id);
    RemovedCount(unit, s, id);
    DeletedForm(unit, s, id);
    DeletedBooks(unit, s, id);
    DeletedArrays(unit, s, id);
    var t := Deleted(unit, s, id);
    hide Valid, IndexOk, BooksOk, Deleted, Removed, OtherChunks, OtherVecs, Ids, Units, Entries, Normalizes, Shape;
    assert !t.deferIndex;
  }

  lemma DeletedArrays(unit: Vec -> Vec, s: State, id: string)
    requires Normalizes(unit) && Parallel(s) && s.hnsw.Some? && !s.deferIndex
    ensures var t := Deleted(unit, s, id);
            && t.chunks == Removed(s, id).chunks && t.hnsw.Some? && !t.deferIndex
            && Units(unit, t.embeds) == Units(unit, Removed(s, id).embeds)
  {
    RemovedKeepsIndex(s, id);
    DeletedForm(unit, s, id);
    var r := Removed(s, id);
    hide Removed, Deleted, Entries, Ids;
    assert Units(unit, Units(unit, r.embeds)) == Units(unit, r.embeds);
  }

  lemma DeletedBooks(unit: Vec -> Vec, s: State, id: string)
    requires Parallel(s)
    ensures var t := Deleted(unit, s, id); t.idHash == s.idHash - {id} && id !in t.versions
  {
    hide Without, Ids, Units, Entries;
    assert id !in s.idHash ==> s.idHash - {id} == s.idHash;
  }

  // ---------- AddDocuments ----------

  /** The whole effect of one apply on the books. */
  lemma AppliedBooks(unit: Vec -> Vec, t: State, p: Prepared)
    requires Valid(unit, t) && PreparedOk(p) && |p.chunks| > 0
    ensures Parallel(t) && |p.vecs| == |p.chunks|
    ensures var r := Applied(unit, t, p);
            if Applies(t, p) then
              && r.idHash == t.idHash[p.id := p.hash]
              && r.versions == t.versions[p.id := r.versions[p.id]]
              && r.versions[p.id] == VersionsOf(t, p.id) + (if EndsWith(VersionsOf(t, p.id), p.hash) then [] else [p.hash])
            else r.idHash == t.idHash && r.versions == t.versions
  {
    hide *;
    ValidParts(unit, t);
    PreparedSizes(p);
    var o := Opened(t, p);
    OpenedBooks(unit, t, p);
    if Applies(t, p) {
      AppliedForm(unit, o, p);
      InstalledBooks(unit, o, p);
      RecordedIs(AppendedArrays(Removed(o, p.id), p.chunks, p.vecs), p.id, p.hash);
      RecordedIs(AppendedArrays(o, p.chunks, p.vecs), p.id, p.hash);
      RecordedIs(Appended(unit, o, p.chunks, p.vecs), p.id, p.hash);
      WithoutThenWith(o.idHash, p.id, p.hash);
      VersionsSame(o, AppendedArrays(Removed(o, p.id), p.chunks, p.vecs), p.id);
      VersionsSame(o, AppendedArrays(o, p.chunks, p.vecs), p.id);
      VersionsSame(o, Appended(unit, o, p.chunks, p.vecs), p.id);
      VersionsSame(t, o, p.id);
    } else {
      NotApplied(unit, o, p);
    }
  }

  /** And on the arrays: the document's old chunks leave, and its new ones come last. */
  lemma AppliedArrays(unit: Vec -> Vec, t: State, p: Prepared)
    requires Valid(unit, t) && PreparedOk(p) && |p.chunks| > 0
    ensures Parallel(t) && |p.vecs| == |p.chunks|
    ensures var r := Applied(unit, t, p);
            && r.hnsw.Some? && r.dim == (if t.hnsw.Some? then t.dim else |p.vecs[0]|)
            && (Applies(t, p) ==> r.chunks == OtherChunks(t.chunks, p.id) + p.chunks)
            && (!Applies(t, p) ==> r.chunks == t.chunks)
            && forall h :: h in r.hashes ==> h in t.hashes || (Applies(t, p) && h == p.hash)
  {
    hide *;
    ValidParts(unit, t);
    PreparedSizes(p);
    var o := Opened(t, p);
    OpenedBooks(unit, t, p);
    OpenedArrays(t, p);
    if Applies(t, p) {
      AppliedForm(unit, o, p);
      if p.id in o.docSet {
        RemovedOthers(o, p.id);
        RemovedHashes(o, p.id);
        AppendedTo(Removed(o, p.id), p.chunks, p.vecs);
        RecordedArrays(AppendedArrays(Removed(o, p.id), p.chunks, p.vecs), p.id, p.hash);
      } else {
        StrangersOnly(unit, t, p.id);
        AppendedTo(o, p.chunks, p.vecs);
        AppendedBoth(unit, o, p.chunks, p.vecs);
        RecordedArrays(AppendedArrays(o, p.chunks, p.vecs), p.id, p.hash);
        RecordedArrays(Appended(unit, o, p.chunks, p.vecs), p.id, p.hash);
      }
    } else {
      NotApplied(unit, o, p);
    }
  }

  lemma OpenedArrays(t: State, p: Prepared)
    requires |p.vecs| > 0
    ensures var o := Opened(t, p);
            && o.chunks == t.chunks && o.hashes == t.hashes && o.docSet == t.docSet && o.hnsw.Some?
            && o.dim == if t.hnsw.Some? then t.dim else |p.vecs[0]|
  {
  }

  lemma RemovedHashes(o: State, id: string)
    requires Parallel(o)
    ensures var r := Removed(o, id); r.dim == o.dim && r.hnsw == o.hnsw && forall h :: h in r.hashes ==> h in o.hashes
  {
    hide Without;
  }

  lemma AppendedTo(o: State, chunks: seq<Passage>, vecs: seq<Vec>)
    requires |vecs| == |chunks|
    ensures var a := AppendedArrays(o, chunks, vecs);
            a.chunks == o.chunks + chunks && a.hashes == o.hashes && a.dim == o.dim && a.hnsw == o.hnsw
  {
  }

  lemma AppendedBoth(unit: Vec -> Vec, o: State, chunks: seq<Passage>, vecs: seq<Vec>)
    requires |vecs| == |chunks| && o.hnsw.Some?
    ensures var a := Appended(unit, o, chunks, vecs);
            a.chunks == o.chunks + chunks && a.hashes == o.hashes && a.dim == o.dim && a.hnsw.Some?
  {
    hide Ids, Units, Entries;
  }

  lemma RecordedArrays(s: State, id: string, h: Hash)
    ensures var r := Recorded(s, id, h); r.chunks == s.chunks && r.dim == s.dim && r.hnsw == s.hnsw && r.hashes == s.hashes[h := id]
  {
  }

  lemma StrangersOnly(unit: Vec -> Vec, t: State, id: string)
    requires Valid(unit, t)
    ensures id !in t.docSet ==> OtherChunks(t.chunks, id) == t.chunks
  {
    if id !in t.docSet {
      forall k | 0 <= k < |t.chunks| ensures t.chunks[k].docId != id {
        assert t.chunks[k] in t.chunks;
      }
      NoneLeaves(t.chunks, id);
    }
  }

  lemma {:induction false} NoneLeaves(chunks: seq<Passage>, id: string)
    requires forall k :: 0 <= k < |chunks| ==> chunks[k].docId != id
    ensures OtherChunks(chunks, id) == chunks
    decreases |chunks|
  {
    if |chunks| > 0 {
      NoneLeaves(chunks[..|chunks| - 1], id);
    }
  }

  predicate EndsWith(v: seq<Hash>, h: Hash) { |v| > 0 && v[|v| - 1] == h }

  lemma PreparedSizes(p: Prepared)
    requires PreparedOk(p)
    ensures |p.vecs| == |p.chunks|
  {
  }

  lemma OpenedBooks(unit: Vec -> Vec, t: State, p: Prepared)
    requires Parallel(t) && |p.vecs| == |p.chunks| > 0
    ensures var o := Opened(t, p);
            && Parallel(o) && o.hnsw.Some? && o.idHash == t.idHash && o.versions == t.versions
            && (Applies(o, p) <==> Applies(t, p)) && Applied(unit, t, p) == Applied(unit, o, p)
  {
    hide Removed, Recorded, Appended, AppendedArrays;
    assert Opened(Opened(t, p), p) == Opened(t, p);
  }

  lemma InstalledBooks(unit: Vec -> Vec, o: State, p: Prepared)
    requires Parallel(o) && o.hnsw.Some? && |p.vecs| == |p.chunks|
    ensures var a := AppendedArrays(Removed(o, p.id), p.chunks, p.vecs); a.idHash == o.idHash - {p.id} && a.versions == o.versions
    ensures var a := AppendedArrays(o, p.chunks, p.vecs); a.idHash == o.idHash && a.versions == o.versions
    ensures var a := Appended(unit, o, p.chunks, p.vecs); a.idHash == o.idHash && a.versions == o.versions
  {
    hide Without, Ids, Units, Entries;
    assert p.id !in o.idHash ==> o.idHash - {p.id} == o.idHash;
  }

  lemma RecordedIs(s: State, id: string, h: Hash)
    ensures var r := Recorded(s, id, h);
            && r.idHash == s.idHash[id := h] && id in r.versions
            && r.versions == s.versions[id := r.versions[id]]
            && r.versions[id] == VersionsOf(s, id) + (if EndsWith(VersionsOf(s, id), h) then [] else [h])
  {
    assert VersionsOf(s, id) + [] == VersionsOf(s, id);
  }

  lemma WithoutThenWith(m: map<string, Hash>, id: string, h: Hash)
    ensures (m - {id})[id := h] == m[id := h]
  {
  }

  lemma VersionsSame(s: State, t: State, id: string)
    ensures s.versions == t.versions ==> VersionsOf(s, id) == VersionsOf(t, id)
  {
  }

  /** Every document known before is known after, with its history as the beginning of the new one. */
  ghost predicate Remembers(s: State, t: State) {
    forall id :: id in s.idHash && id in s.versions ==> id in t.idHash && id in t.versions && s.versions[id] <= t.versions[id]
  }

  lemma RemembersTrans(s: State, t: State, u: State)
    requires Remembers(s, t) && Remembers(t, u)
    ensures Remembers(s, u)
  {
  }

  lemma AppliedRemembers(unit: Vec -> Vec, t: State, p: Prepared)
    requires Valid(unit, t) && PreparedOk(p)
    ensures Parallel(t) && |p.vecs| == |p.chunks| && Remembers(t, Applied(unit, t, p))
  {
    ValidParts(unit, t);
    hide Valid, Applies, IndexOk, BooksOk, Shape;
    if |p.chunks| > 0 {
      AppliedBooks(unit, t, p);
      hide Applied;
    }
  }

  /** After a batch, the documents that took effect own their contents; every other document
      keeps its own. */
  ghost predicate BooksAfter(o: State, fit: seq<Prepared>, t: State) {
    && (forall p :: p in fit ==> p.id in t.idHash && t.idHash[p.id] == p.hash)
    && (forall id :: id in o.idHash && id !in IdsOf(fit) ==> id in t.idHash && t.idHash[id] == o.idHash[id])
    && (forall id :: id in t.idHash ==> id in o.idHash || id in IdsOf(fit))
    && Remembers(o, t)
  }

  lemma {:induction false} AppliedAllBooks(unit: Vec -> Vec, o: State, docs: seq<Prepared>)
    requires Normalizes(unit) && Valid(unit, o) && o.hnsw.Some? && AllOk(docs) && NewBatch(o.hashes, docs)
    ensures (forall p :: p in docs ==> |p.vecs| == |p.chunks|) && Parallel(o)
    ensures BooksAfter(o, Fitting(o.dim, docs), AppliedAll(unit, o, docs))
  {
    hide Valid, Normalizes, PreparedOk, Applied, Applies, BatchAfter, BooksAfter;
    ValidParts(unit, o);
    if |docs| == 0 {
      NoBooksAfter(o);
    } else {
      var front, p := docs[..|docs| - 1], docs[|docs| - 1];
      AllOkParts(docs);
      SmallerBatch(o.hashes, docs);
      AppliedAllBooks(unit, o, front);
      AppliedAllAfter(unit, o, front);
      AppliedAllOk(unit, o, front);
      NextBooks(unit, o, docs, Fitting(o.dim, front), AppliedAll(unit, o, front));
    }
  }

  lemma NoBooksAfter(o: State)
    ensures BooksAfter(o, [], o)
  {
    assert IdsOf([]) == {};
  }

  lemma NextBooks(unit: Vec -> Vec, o: State, docs: seq<Prepared>, fit: seq<Prepared>, t: State)
    requires Normalizes(unit) && Valid(unit, o) && Valid(unit, t) && o.hnsw.Some? && AllOk(docs) && |docs| > 0
    requires NewBatch(o.hashes, docs) && BatchAfter(unit, o, fit, t) && BooksAfter(o, fit, t)
    requires forall p :: p in fit ==> p in docs[..|docs| - 1]
    ensures var p := docs[|docs| - 1];
            var fits := |p.vecs| > 0 && |p.vecs[0]| == o.dim;
            && Parallel(t) && |p.vecs| == |p.chunks|
            && BooksAfter(o, if fits then fit + [p] else fit, Applied(unit, t, p))
  {
    hide *;
    var p := docs[|docs| - 1];
    AllOkParts(docs);
    HasIndex(unit, o, fit, t);
    NextIsNew(unit, o, docs, fit, t);
    NextAfter(unit, o, docs, fit, t);
    AppliedBooks(unit, t, p);
    AppliedRemembers(unit, t, p);
    BooksNext(o, fit, t, p, Applied(unit, t, p), |p.vecs| > 0 && |p.vecs[0]| == o.dim);
  }

  lemma BooksNext(o: State, fit: seq<Prepared>, t: State, p: Prepared, r: State, fits: bool)
    requires BooksAfter(o, fit, t) && p.id !in IdsOf(fit) && Remembers(t, r)
    requires r.idHash == if fits then t.idHash[p.id := p.hash] else t.idHash
    ensures BooksAfter(o, if fits then fit + [p] else fit, r)
  {
    hide Remembers;
    RemembersTrans(o, t, r);
    assert forall q :: q in fit + [p] <==> q in fit || q == p;
    assert IdsOf(fit + [p]) == IdsOf(fit) + {p.id};
  }

  // ----- the documents of a call -----

  lemma {:induction false} OfferedHas(hashes: map<Hash, string>, docs: seq<Prepared>, i: nat)
    requires DistinctIds(docs) && DistinctTexts(docs) && i < |docs| && docs[i].hash !in hashes
    ensures docs[i] in Offered(hashes, docs)
  {
    var n := |docs| - 1;
    var rest := Offered(hashes, docs[..n]);
    if i < n {
      OfferedHas(hashes, docs[..n], i);
    } else {
      forall p | p in rest ensures p.hash != docs[n].hash && p.id != docs[n].id {
        assert p in docs[..n];
        var j :| 0 <= j < n && docs[j] == p;
      }
    }
  }

  lemma {:induction false} WithChunksHas(docs: seq<Prepared>, p: Prepared)
    requires p in docs && |p.chunks| > 0
    ensures p in WithChunks(docs)
  {
    var n := |docs| - 1;
    if p in docs[..n] {
      WithChunksHas(docs[..n], p);
    } else {
      assert docs == docs[..n] + [docs[n]];
    }
  }

  lemma {:induction false} FittingHas(d: nat, docs: seq<Prepared>, p: Prepared)
    requires p in docs && |p.vecs| > 0 && |p.vecs[0]| == d
    ensures p in Fitting(d, docs)
  {
    var n := |docs| - 1;
    if p in docs[..n] {
      FittingHas(d, docs[..n], p);
    } else {
      assert docs == docs[..n] + [docs[n]];
    }
  }

  /** A call offering distinct ids and texts stores every new one: it owns its content
      afterwards, the chunks of other documents stay, and its own follow. */
  lemma AddedHolds(unit: Vec -> Vec, s: State, docs: seq<Prepared>, i: nat)
    requires Normalizes(unit) && Valid(unit, s) && AllOk(docs) && s.hnsw.Some?
    requires DistinctIds(docs) && DistinctTexts(docs) && i < |docs|
    requires docs[i].hash !in s.hashes && |docs[i].chunks| > 0 && |docs[i].vecs| > 0 && |docs[i].vecs[0]| == s.dim
    ensures Parallel(s) && forall p :: p in docs ==> |p.vecs| == |p.chunks|
    ensures var t, p := Added(unit, s, docs), docs[i];
            && p.id in t.docSet && p.id in t.idHash && t.idHash[p.id] == p.hash
            && p.hash in t.hashes && t.hashes[p.hash] == p.id
            && forall c :: c in p.chunks ==> c in t.chunks
  {
    var p, batch := docs[i], Batch(s, docs);
    ValidParts(unit, s);
    OfferedHas(s.hashes, docs, i);
    WithChunksHas(Offered(s.hashes, docs), p);
    BatchIsNew(s, docs);
    EnsuredValid(unit, s);
    EnsuredOk(unit, s);
    var e := Ensured(unit, s);
    FittingHas(s.dim, batch, p);
    hide *;
    AppliedAllAfter(unit, e, batch);
    AppliedAllBooks(unit, e, batch);
    AppliedAllOk(unit, e, batch);
    var t := AppliedAll(unit, e, batch);
    AddedOk(unit, s, docs);
    AddedForm(unit, s, docs);
    AddedKeeps(unit, s, docs, t);
    OwnContent(unit, e, batch, t, p);
    InverseOwner(unit, Added(unit, s, docs), p.id);
  }

  lemma AddedKeeps(unit: Vec -> Vec, s: State, docs: seq<Prepared>, t: State)
    requires Batch(s, docs) != [] && AllOk(docs) && Parallel(s) && Parallel(Ensured(unit, s))
    requires forall p :: p in Batch(s, docs) ==> |p.vecs| == |p.chunks|
    requires t == AppliedAll(unit, Ensured(unit, s), Batch(s, docs))
    ensures forall p :: p in docs ==> |p.vecs| == |p.chunks|
    ensures var f := Added(unit, s, docs);
            f.chunks == t.chunks && f.idHash == t.idHash && f.docSet == t.docSet && f.versions == t.versions
  {
    hide *;
    AddedForm(unit, s, docs);
    SharedKeeps(t);
    ReindexKeeps(unit, t);
    ReindexKeeps(unit, Shared(t));
  }

  lemma SharedKeeps(t: State)
    ensures var f := Shared(t); f.chunks == t.chunks && f.idHash == t.idHash && f.docSet == t.docSet && f.versions == t.versions
  {
  }

  lemma ReindexKeeps(unit: Vec -> Vec, t: State)
    ensures var f := Reindexed(unit, t);
            f.chunks == t.chunks && f.idHash == t.idHash && f.docSet == t.docSet && f.versions == t.versions
  {
    hide Ids, Units, Entries;
  }

  lemma OwnContent(unit: Vec -> Vec, o: State, docs: seq<Prepared>, t: State, p: Prepared)
    requires BatchAfter(unit, o, Fitting(o.dim, docs), t) && BooksAfter(o, Fitting(o.dim, docs), t) && p in Fitting(o.dim, docs)
    ensures p.id in t.docSet && p.id in t.idHash && t.idHash[p.id] == p.hash
    ensures forall c :: c in p.chunks ==> c in t.chunks
  {
    var fit := Fitting(o.dim, docs);
    hide Fitting, Rest, IndexAfter, Replaces, HasHash;
    RowsAfterParts(o, fit, t);
    NewRowsHave(fit, p);
    hide RowsAfter, NewRows;
    forall c | c in p.chunks ensures c in t.chunks {
      var r :| r in NewRows(fit) && r.chunk == c;
      assert r in Rows(t);
    }
  }

  lemma {:induction false} NewRowsHave(docs: seq<Prepared>, p: Prepared)
    requires (forall q :: q in docs ==> |q.vecs| == |q.chunks|) && p in docs
    ensures forall c :: c in p.chunks ==> exists r :: r in NewRows(docs) && r.chunk == c
  {
    var n := |docs| - 1;
    var rows := RowsOf(docs[n].chunks, docs[n].vecs, docs[n].vecs);
    assert docs == docs[..n] + [docs[n]];
    if p in docs[..n] {
      NewRowsHave(docs[..n], p);
      forall c | c in p.chunks ensures exists r :: r in NewRows(docs) && r.chunk == c {
        var r :| r in NewRows(docs[..n]) && r.chunk == c;
        assert r in NewRows(docs);
      }
    } else {
      forall c | c in p.chunks ensures exists r :: r in NewRows(docs) && r.chunk == c {
        var k :| 0 <= k < |p.chunks| && p.chunks[k] == c;
        assert rows[k] in rows;
        assert rows[k] in NewRows(docs);
      }
    }
  }

  lemma InverseOwner(unit: Vec -> Vec, t: State, id: string)
    requires Valid(unit, t) && id in t.idHash
    ensures t.idHash[id] in t.hashes && t.hashes[t.idHash[id]] == id
  {
    hide IndexOk, Histories;
  }

  /** A call touches no other document: their chunks stay, and nothing else comes in. */
  lemma AddedSpares(unit: Vec -> Vec, s: State, docs: seq<Prepared>)
    requires Normalizes(unit) && Valid(unit, s) && AllOk(docs) && s.hnsw.Some?
    ensures Parallel(s) && forall p :: p in docs ==> |p.vecs| == |p.chunks|
    ensures var t := Added(unit, s, docs);
            && (forall c :: c in s.chunks && c.docId !in IdsOf(docs) ==> c in t.chunks)
            && (forall c :: c in t.chunks ==> c in s.chunks || exists p :: p in docs && c in p.chunks)
            && (forall id :: id in s.idHash && id !in IdsOf(docs) ==> id in t.idHash && t.idHash[id] == s.idHash[id])
  {
    var batch := Batch(s, docs);
    ValidParts(unit, s);
    BatchIsNew(s, docs);
    BatchFrom(s, docs);
    EnsuredValid(unit, s);
    EnsuredOk(unit, s);
    var e := Ensured(unit, s);
    EnsuredHas(unit, s);
    hide *;
    AddedForm(unit, s, docs);
    if batch != [] {
      AppliedAllAfter(unit, e, batch);
      AppliedAllBooks(unit, e, batch);
      var t := AppliedAll(unit, e, batch);
      AddedKeeps(unit, s, docs, t);
      Spared(unit, e, Fitting(e.dim, batch), t, docs);
    }
  }

  lemma EnsuredHas(unit: Vec -> Vec, s: State)
    requires s.hnsw.Some?
    ensures Ensured(unit, s).hnsw.Some?
  {
    hide Ids, Units, Entries;
  }

  lemma BatchFrom(s: State, docs: seq<Prepared>)
    ensures forall d: nat, p :: p in Fitting(d, Batch(s, docs)) ==> p in docs
  {
    hide Offered, WithChunks, Fitting;
  }

  lemma Spared(unit: Vec -> Vec, o: State, fit: seq<Prepared>, t: State, docs: seq<Prepared>)
    requires BatchAfter(unit, o, fit, t) && BooksAfter(o, fit, t) && forall p :: p in fit ==> p in docs
    ensures forall c :: c in o.chunks && c.docId !in IdsOf(docs) ==> c in t.chunks
    ensures forall c :: c in t.chunks ==> c in o.chunks || exists p :: p in docs && c in p.chunks
    ensures forall id :: id in o.idHash && id !in IdsOf(docs) ==> id in t.idHash && t.idHash[id] == o.idHash[id]
  {
    RowsAfterParts(o, fit, t);
    RestKeeps(Rows(o), IdsOf(fit));
    NewRowsFrom(fit);
    hide BatchAfter, Rest, NewRows, Rows, Remembers;
    RowsChunks(o);
    RowsChunks(t);
    forall c | c in o.chunks && c.docId !in IdsOf(docs) ensures c in t.chunks {
      var r :| r in Rows(o) && r.chunk == c;
      assert r in Rest(Rows(o), IdsOf(fit));
    }
    forall c | c in t.chunks ensures c in o.chunks || exists p :: p in docs && c in p.chunks {
      var r :| r in Rows(t) && r.chunk == c;
      if r in NewRows(fit) {
        var p :| p in fit && r.chunk in p.chunks;
        assert p in docs;
      } else {
        assert r in Rest(Rows(o), IdsOf(fit));
      }
    }
  }

  lemma RowsChunks(s: State)
    requires Parallel(s)
    ensures forall r :: r in Rows(s) ==> r.chunk in s.chunks
    ensures forall c :: c in s.chunks ==> exists r :: r in Rows(s) && r.chunk == c
  {
    forall c | c in s.chunks ensures exists r :: r in Rows(s) && r.chunk == c {
      var k :| 0 <= k < |s.chunks| && s.chunks[k] == c;
      assert Rows(s)[k] in Rows(s) && Rows(s)[k].chunk == c;
    }
  }

  lemma {:induction false} RestKeeps(rows: seq<Row>, docs: set<string>)
    ensures forall r :: r in Rest(rows, docs) <==> r in rows && r.chunk.docId !in docs
    decreases |rows|
  {
    if |rows| > 0 {
      RestKeeps(rows[..|rows| - 1], docs);
      assert rows == rows[..|rows| - 1] + [rows[|rows| - 1]];
    }
  }

  lemma {:induction false} NewRowsFrom(docs: seq<Prepared>)
    requires forall q :: q in docs ==> |q.vecs| == |q.chunks|
    ensures forall r :: r in NewRows(docs) ==> exists p :: p in docs && r.chunk in p.chunks
  {
    if |docs| > 0 {
      var n := |docs| - 1;
      NewRowsFrom(docs[..n]);
      var rows := RowsOf(docs[n].chunks, docs[n].vecs, docs[n].vecs);
      assert docs == docs[..n] + [docs[n]];
      forall r | r in NewRows(docs) ensures exists p :: p in docs && r.chunk in p.chunks {
        if r in rows {
          assert docs[n] in docs;
        } else {
          assert r in NewRows(docs[..n]);
          var p :| p in docs[..n] && r.chunk in p.chunks;
          assert p in docs;
        }
      }
    }
  }

  // ---------- Merge ----------

  /** The chunks of some documents, in order. */
  function ChunksOf(chunks: seq<Passage>, docs: set<string>): seq<Passage> {
    if |chunks| == 0 then []
    else
      var c := chunks[|chunks| - 1];
      ChunksOf(chunks[..|chunks| - 1], docs) + if c.docId in docs then [c] else []
  }

  function PassagesAt(chunks: seq<Passage>, ks: seq<nat>): (r: seq<Passage>)
    requires forall k :: 0 <= k < |ks| ==> ks[k] < |chunks|
    ensures |r| == |ks| && forall k :: 0 <= k < |r| ==> r[k] == chunks[ks[k]]
  {
    seq(|ks|, k requires 0 <= k < |ks| => chunks[ks[k]])
  }

  lemma {:induction false} KeptChunks(chunks: seq<Passage>, docs: set<string>, n: nat)
    requires n <= |chunks|
    ensures forall k :: 0 <= k < |Kept(chunks, docs, true, n)| ==> Kept(chunks, docs, true, n)[k] < |chunks|
    ensures PassagesAt(chunks, Kept(chunks, docs, true, n)) == ChunksOf(chunks[..n], docs)
  {
    hide *;
    KeptStep(chunks, docs, true, n);
    KeptWithin(chunks, docs, n);
    if n == 0 {
      NoPassages(chunks, docs);
    } else {
      KeptChunks(chunks, docs, n - 1);
      KeepsThem(docs, chunks[n - 1]);
      PassagesNext(chunks, docs, n, Kept(chunks, docs, true, n - 1), Kept(chunks, docs, true, n));
    }
  }

  lemma KeptWithin(chunks: seq<Passage>, docs: set<string>, n: nat)
    requires n <= |chunks|
    ensures forall k :: 0 <= k < |Kept(chunks, docs, true, n)| ==> Kept(chunks, docs, true, n)[k] < |chunks|
  {
    hide Kept;
  }

  lemma KeepsThem(docs: set<string>, c: Passage)
    ensures Keeps(docs, true, c) <==> c.docId in docs
  {
  }

  lemma NoPassages(chunks: seq<Passage>, docs: set<string>)
    ensures PassagesAt(chunks, []) == ChunksOf(chunks[..0], docs)
  {
  }

  lemma PassagesNext(chunks: seq<Passage>, docs: set<string>, n: nat, before: seq<nat>, now: seq<nat>)
    requires 0 < n <= |chunks| && now == before + if chunks[n - 1].docId in docs then [n - 1] else []
    requires (forall k :: 0 <= k < |now| ==> now[k] < |chunks|) && (forall k :: 0 <= k < |before| ==> before[k] < |chunks|)
    requires PassagesAt(chunks, before) == ChunksOf(chunks[..n - 1], docs)
    ensures PassagesAt(chunks, now) == ChunksOf(chunks[..n], docs)
  {
    var front, c := chunks[..n - 1], chunks[n - 1];
    assert chunks[..n] == front + [c] && chunks[..n][..n - 1] == front;
    assert ChunksOf(chunks[..n], docs) == ChunksOf(front, docs) + if c.docId in docs then [c] else [];
    hide ChunksOf;
    if c.docId in docs {
      assert PassagesAt(chunks, before + [n - 1]) == PassagesAt(chunks, before) + [c];
    } else {
      assert now == before;
    }
  }

  /** A merge puts the chunks of the documents taken behind what was there, and books them. */
  lemma MergedHolds(unit: Vec -> Vec, dst: State, src: State)
    requires Normalizes(unit) && Valid(unit, dst) && Valid(unit, src) && |src.embeds| == |src.chunks| > 0
    requires MergedFrom(unit, dst, src).Merged?
    ensures var t := MergedFrom(unit, dst, src).state;
            var unknown := set id | id in src.idHash && id !in dst.idHash && src.idHash[id] !in dst.hashes;
            && t.chunks == dst.chunks + ChunksOf(src.chunks, unknown)
            && (forall id :: id in unknown ==> id in t.idHash && t.idHash[id] == src.idHash[id])
            && (forall id :: id in unknown && id in src.versions ==> id in t.versions && t.versions[id] == src.versions[id])
            && Remembers(dst, t)
  {
    hide *;
    var unknown := set id | id in src.idHash && id !in dst.idHash && src.idHash[id] !in dst.hashes;
    UnknownIs(dst, src);
    MergedIs(unit, dst, src);
    KeptChunks(src.chunks, Take(dst, src), |src.chunks|);
    TakenIsChunks(dst, src);
    var t := Taken(unit, dst, src);
    TakenArrays(unit, dst, src);
    MergeEndIs(unit, dst, src, t);
    BookedHolds(t, src, Take(dst, src), dst);
    var b := Booked(t, src, Take(dst, src));
    EnsureKeeps(unit, b);
    ReindexKeeps(unit, Ensured(unit, b));
    SameBooksRemember(dst, b, MergedFrom(unit, dst, src).state);
    assert unknown == Take(dst, src);
  }

  lemma UnknownIs(dst: State, src: State)
    ensures Take(dst, src) == set id | id in src.idHash && id !in dst.idHash && src.idHash[id] !in dst.hashes
  {
  }

  lemma TakenIsChunks(dst: State, src: State)
    requires forall k :: 0 <= k < |Kept(src.chunks, Take(dst, src), true, |src.chunks|)| ==>
               Kept(src.chunks, Take(dst, src), true, |src.chunks|)[k] < |src.chunks|
    requires PassagesAt(src.chunks, Kept(src.chunks, Take(dst, src), true, |src.chunks|))
          == ChunksOf(src.chunks[..|src.chunks|], Take(dst, src))
    ensures TakenChunks(dst, src) == ChunksOf(src.chunks, Take(dst, src))
  {
    hide Kept, Take, ChunksOf;
    assert src.chunks[..|src.chunks|] == src.chunks;
  }

  lemma TakenArrays(unit: Vec -> Vec, dst: State, src: State)
    requires |src.embeds| == |src.chunks|
    requires |TakenChunks(dst, src)| > 0 ==> Embedded(unit, dst, TakenChunks(dst, src), TakenVecs(dst, src)).Some?
    ensures var t := Taken(unit, dst, src);
            t.chunks == dst.chunks + TakenChunks(dst, src) && t.idHash == dst.idHash && t.versions == dst.versions
  {
    hide TakenChunks, TakenVecs, Embedded;
    var chunks, vecs := TakenChunks(dst, src), TakenVecs(dst, src);
    if |chunks| > 0 {
      EmbeddedArrays(unit, dst, chunks, vecs);
    } else {
      assert dst.chunks + [] == dst.chunks;
    }
  }

  lemma EmbeddedArrays(unit: Vec -> Vec, s: State, chunks: seq<Passage>, vecs: seq<Vec>)
    requires |vecs| == |chunks| > 0 && Embedded(unit, s, chunks, vecs).Some?
    ensures var t := Embedded(unit, s, chunks, vecs).value;
            t.chunks == s.chunks + chunks && t.idHash == s.idHash && t.versions == s.versions
  {
    hide Shared, Appended;
    var t := if s.hnsw.None? then Fresh(s.(dim := |vecs[0]|)) else s;
    AppendedChunks(unit, t, chunks, vecs);
    SharedKeeps(Appended(unit, t, chunks, vecs));
  }

  lemma AppendedChunks(unit: Vec -> Vec, s: State, chunks: seq<Passage>, vecs: seq<Vec>)
    requires |vecs| == |chunks| && s.hnsw.Some?
    ensures var t := Appended(unit, s, chunks, vecs);
            t.chunks == s.chunks + chunks && t.idHash == s.idHash && t.versions == s.versions
  {
    hide Ids, Units, Entries;
  }

  lemma BookedHolds(t: State, src: State, take: set<string>, dst: State)
    requires t.idHash == dst.idHash && t.versions == dst.versions && take == Take(dst, src)
    ensures var b := Booked(t, src, take);
            && b.chunks == t.chunks
            && (forall id :: id in take ==> id in b.idHash && b.idHash[id] == src.idHash[id])
            && (forall id :: id in take && id in src.versions ==> id in b.versions && b.versions[id] == src.versions[id])
            && Remembers(dst, b)
  {
  }

  lemma EnsureKeeps(unit: Vec -> Vec, t: State)
    ensures var f := Ensured(unit, t);
            f.chunks == t.chunks && f.idHash == t.idHash && f.docSet == t.docSet && f.versions == t.versions
  {
    hide Shared, Rebuilt, Restored, Restorable;
    if t.deferIndex {
      var d := t.(deferIndex := false);
      var u := if Restorable(d) then Restored(unit, d).(lex := Entries(d.chunks)) else Rebuilt(unit, d.(saved := None, flat := []));
      BuildKeeps(unit, d);
      BuildKeeps(unit, d.(saved := None, flat := []));
      SharedKeeps(u.(needsRebuild := false));
    }
  }

  lemma BuildKeeps(unit: Vec -> Vec, t: State)
    ensures var f := Rebuilt(unit, t);
            f.chunks == t.chunks && f.idHash == t.idHash && f.docSet == t.docSet && f.versions == t.versions
    ensures Restorable(t) ==>
              var f := Restored(unit, t);
              f.chunks == t.chunks && f.idHash == t.idHash && f.docSet == t.docSet && f.versions == t.versions
  {
    hide Ids, Units, Entries;
  }

  lemma SameBooksRemember(s: State, b: State, t: State)
    requires Remembers(s, b) && t.idHash == b.idHash && t.versions == b.versions
    ensures Remembers(s, t)
  {
  }

  // ---------- histories ----------

  lemma AddedRemembers(unit: Vec -> Vec, s: State, docs: seq<Prepared>)
    requires Normalizes(unit) && Valid(unit, s) && AllOk(docs)
    ensures Parallel(s) && (forall p :: p in docs ==> |p.vecs| == |p.chunks|) && Remembers(s, Added(unit, s, docs))
  {
    hide *;
    ValidParts(unit, s);
    BatchIsNew(s, docs);
    AddedForm(unit, s, docs);
    RemembersSelf(s);
    if Batch(s, docs) != [] {
      EnsuredValid(unit, s);
      EnsureKeeps(unit, s);
      var e, t := Ensured(unit, s), AppliedAll(unit, Ensured(unit, s), Batch(s, docs));
      BatchRemembers(unit, e, Batch(s, docs));
      SameBooksRemember(s, s, e);
      RemembersTrans(s, e, t);
      AddedKeeps(unit, s, docs, t);
      SameBooksRemember(s, t, Added(unit, s, docs));
    }
  }

  lemma RemembersSelf(s: State)
    ensures Remembers(s, s)
  {
  }

  lemma {:induction false} BatchRemembers(unit: Vec -> Vec, s: State, docs: seq<Prepared>)
    requires Normalizes(unit) && Valid(unit, s) && AllOk(docs)
    ensures (forall p :: p in docs ==> |p.vecs| == |p.chunks|) && Parallel(s) && Remembers(s, AppliedAll(unit, s, docs))
  {
    hide Valid, Normalizes, PreparedOk, Applied, Remembers;
    ValidParts(unit, s);
    RemembersSelf(s);
    if |docs| > 0 {
      var front, p := docs[..|docs| - 1], docs[|docs| - 1];
      AllOkParts(docs);
      BatchRemembers(unit, s, front);
      AppliedAllOk(unit, s, front);
      AppliedRemembers(unit, AppliedAll(unit, s, front), p);
      RemembersTrans(s, AppliedAll(unit, s, front), Applied(unit, AppliedAll(unit, s, front), p));
    }
  }

  /** No operation but a delete forgets a document or a version of it. */
  lemma StepRemembers(unit: Vec -> Vec, s: State, op: Op)
    requires Normalizes(unit) && Valid(unit, s) && OpOk(unit, op) && !op.DeleteDocument?
    ensures Remembers(s, Step(unit, s, op))
  {
    ValidParts(unit, s);
    RemembersSelf(s);
    match op {
      case AddDocuments(docs) => AddedRemembers(unit, s, docs);
      case ApplyPrepared(p) => AppliedRemembers(unit, s, p);
      case Merge(src) =>
        ValidParts(unit, src);
        MergedIs(unit, s, src);
        if MergedFrom(unit, s, src).Merged? && |src.chunks| > 0 {
          MergedHolds(unit, s, src);
        }
      case Search => EnsureKeeps(unit, s); SameBooksRemember(s, s, Ensured(unit, s));
      case Reindex =>
        EnsureKeeps(unit, s);
        ReindexKeeps(unit, Ensured(unit, s));
        SameBooksRemember(s, s, Reindexed(unit, Ensured(unit, s)));
      case SaveAndLoad =>
        if Saved(s).Some? {
          ReopenedOk(unit, s);
          LoadRemembers(unit, s);
        }
    }
    hide *;
  }

  lemma LoadRemembers(unit: Vec -> Vec, s: State)
    requires Valid(unit, s) && Saved(s).Some? && Injective(Saved(s).value.hashes)
    ensures Remembers(s, Loaded(Saved(s).value))
  {
    DocIdsNone(s.chunks);
    hide Shape, InOrder, DocIds, Agrees, Inverse, Histories;
  }
}
