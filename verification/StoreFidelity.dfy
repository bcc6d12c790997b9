/** Whether the stored embeddings are still the ones the chunks were given, and whether
    the links of the vector index were built over the current chunks. Sharing vectors and
    restoring saved links compare lengths only, so both can fail while a rebuild is
    pending; the operations that do neither always keep them. */
module StoreFidelity {
  import opened Vectors
  import opened StoreStates
  import opened StoreLaws
  import opened StoreRuns

  /** Every stored embedding is, up to normalization, the one its chunk was given. */
  ghost predicate Faithful(unit: Vec -> Vec, s: State) {
    Parallel(s) && forall i :: 0 <= i < |s.embeds| ==> unit(s.embeds[i]) == unit(s.truth[i])
  }

  /** The links of a current index were built over the current chunks. */
  ghost predicate FreshLinks(s: State) {
    !s.deferIndex && !s.needsRebuild && s.hnsw.Some? ==> s.hnsw.value.built == s.hnsw.value.ids
  }

  /** While nothing made them stale, the links and the block read from disk describe the
      first chunks, and the index under construction is still behind. */
  ghost predicate SavedFresh(s: State) {
    s.deferIndex && !s.needsRebuild ==>
      && (s.saved.Some? ==> s.saved.value <= Ids(s.chunks))
      && s.flat <= s.embeds
      && (s.hnsw.Some? ==> |s.hnsw.value.ids| < |s.embeds|)
  }

  ghost predicate Sound(unit: Vec -> Vec, s: State) {
    Valid(unit, s) && Faithful(unit, s) && FreshLinks(s) && SavedFresh(s)
  }

  // ---------- sharing ----------

  /** The guard of shareVectorsLocked. */
  predicate Shares(s: State) {
    s.hnsw.Some? && |s.hnsw.value.ids| == |s.embeds| && |s.hnsw.value.vecs| == |s.embeds|
  }

  /** Sharing keeps the embeddings faithful exactly when it does nothing or the index
      holds the same vectors. */
  lemma ShareExact(unit: Vec -> Vec, s: State)
    requires Normalizes(unit) && Faithful(unit, s)
    ensures Faithful(unit, Shared(s)) <==>
            !Shares(s) || forall i :: 0 <= i < |s.embeds| ==> unit(s.hnsw.value.vecs[i]) == unit(s.truth[i])
  {
  }

  /** With an index that agrees with the arrays, sharing is harmless. */
  lemma ShareCurrent(unit: Vec -> Vec, s: State)
    requires Normalizes(unit) && Faithful(unit, s) && (Shares(s) ==> s.hnsw.value.vecs == Units(unit, s.embeds))
    ensures Faithful(unit, Shared(s))
  {
    ShareExact(unit, s);
  }

  lemma ReindexedFaithful(unit: Vec -> Vec, s: State)
    requires Normalizes(unit) && Faithful(unit, s)
    ensures Faithful(unit, Reindexed(unit, s))
    ensures FreshLinks(s) ==> FreshLinks(Reindexed(unit, s))
    ensures !s.deferIndex ==> FreshLinks(s) || s.needsRebuild ==> FreshLinks(Reindexed(unit, s))
    ensures SavedFresh(s) ==> SavedFresh(Reindexed(unit, s))
  {
    ShareCurrent(unit, Rebuilt(unit, s));
    hide Normalizes, Id;
  }

  // ---------- restoring ----------

  /** A restore that is not looked at: links are pending, a rebuild is due, and the
      number of chunks happens to be the number of saved nodes. */
  predicate StaleRestore(s: State) { s.deferIndex && s.needsRebuild && Restorable(s) }

  lemma RestoredVectors(unit: Vec -> Vec, s: State)
    requires Normalizes(unit) && Parallel(s) && s.deferIndex && Restorable(s)
    ensures Ensured(unit, s).truth == s.truth
    ensures Ensured(unit, s).embeds == Units(unit, if |s.flat| == |s.chunks| then s.flat else s.embeds)
    ensures Ensured(unit, s).hnsw.Some? && Ensured(unit, s).hnsw.value.built == s.saved.value
    ensures Ensured(unit, s).hnsw.value.ids == Ids(s.chunks)
  {
    hide Id;
  }

  lemma RebuiltVectors(unit: Vec -> Vec, s: State)
    requires Normalizes(unit) && Parallel(s) && s.deferIndex && !Restorable(s)
    ensures Ensured(unit, s).truth == s.truth
    ensures Ensured(unit, s).embeds == Units(unit, s.embeds)
    ensures Ensured(unit, s).hnsw.Some? && Ensured(unit, s).hnsw.value.built == Ensured(unit, s).hnsw.value.ids
  {
    hide Id;
  }

  /** The first search keeps the embeddings faithful and the links fresh exactly when no
      restore happens, or the saved block and links still describe the chunks. */
  lemma EnsureExact(unit: Vec -> Vec, s: State)
    requires Normalizes(unit) && Faithful(unit, s) && s.deferIndex
    ensures Faithful(unit, Ensured(unit, s)) <==>
            !Restorable(s) || |s.flat| != |s.chunks| ||
            forall i :: 0 <= i < |s.flat| ==> unit(s.flat[i]) == unit(s.truth[i])
    ensures FreshLinks(Ensured(unit, s)) <==> !Restorable(s) || s.saved.value == Ids(s.chunks)
  {
    EnsuredFlags(unit, s);
    if Restorable(s) {
      RestoredVectors(unit, s);
    } else {
      RebuiltVectors(unit, s);
    }
    hide Ensured, Id, Restorable;
    assert forall v :: unit(unit(v)) == unit(v);
  }

  lemma EnsuredFlags(unit: Vec -> Vec, s: State)
    ensures !Ensured(unit, s).deferIndex && (s.deferIndex ==> !Ensured(unit, s).needsRebuild)
  {
    hide Ids, Entries, Units;
  }

  /** Nothing is lost when no rebuild is pending on the deferred index. */
  lemma EnsuredSound(unit: Vec -> Vec, s: State)
    requires Normalizes(unit) && Sound(unit, s) && !StaleRestore(s)
    ensures Sound(unit, Ensured(unit, s))
  {
    EnsuredValid(unit, s);
    EnsuredFlags(unit, s);
    if s.deferIndex {
      EnsureExact(unit, s);
      hide Ensured, Valid, Normalizes, Id;
      if Restorable(s) {
        assert |s.flat| == |s.chunks| ==> s.flat == s.embeds;
      }
    }
  }

  // ---------- applying ----------

  lemma {:induction false} ChosenFaithful(unit: Vec -> Vec, s: State, id: string)
    requires Faithful(unit, s)
    ensures Faithful(unit, Removed(s, id))
  {
    hide Kept;
  }

  lemma AppendedFaithful(unit: Vec -> Vec, s: State, chunks: seq<Passage>, vecs: seq<Vec>)
    requires Faithful(unit, s) && |vecs| == |chunks|
    ensures Faithful(unit, AppendedArrays(s, chunks, vecs))
    ensures s.hnsw.Some? ==> Faithful(unit, Appended(unit, s, chunks, vecs))
  {
    hide Ids, Units, Entries;
  }

  /** No ingest step harms the embeddings: it never shares and never restores. */
  lemma AppliedSound(unit: Vec -> Vec, s: State, p: Prepared)
    requires Normalizes(unit) && Sound(unit, s) && PreparedOk(p)
    ensures Sound(unit, Applied(unit, s, p))
  {
    AppliedOk(unit, s, p);
    ValidParts(unit, s);
    if |p.chunks| > 0 {
      var t := Opened(s, p);
      OpenedSound(unit, s, p);
      if Applies(s, p) {
        if p.id in t.docSet {
          UpdateSound(unit, t, p);
        } else {
          AppendSound(unit, t, p);
        }
      }
    }
    hide Valid, Faithful, FreshLinks, SavedFresh;
  }

  lemma OpenedSound(unit: Vec -> Vec, s: State, p: Prepared)
    requires Sound(unit, s) && |p.vecs| > 0
    ensures Sound(unit, Opened(s, p)) && Opened(s, p).hnsw.Some?
  {
    OpenedOk(unit, s, p);
    hide IndexOk, BooksOk, Ids;
  }

  lemma RecordedFacts(unit: Vec -> Vec, s: State, id: string, h: Hash)
    ensures var r := Recorded(s, id, h);
            && (Faithful(unit, s) ==> Faithful(unit, r)) && (FreshLinks(s) ==> FreshLinks(r)) && (SavedFresh(s) ==> SavedFresh(r))
  {
    hide Ids;
  }

  lemma UpdateSound(unit: Vec -> Vec, t: State, p: Prepared)
    requires Sound(unit, t) && PreparedOk(p) && p.id in t.docSet
    ensures var r := Recorded(AppendedArrays(Removed(t, p.id), p.chunks, p.vecs), p.id, p.hash);
            Faithful(unit, r) && FreshLinks(r) && SavedFresh(r)
  {
    ChosenFaithful(unit, t, p.id);
    RemovedOk(unit, t, p.id);
    var a := AppendedArrays(Removed(t, p.id), p.chunks, p.vecs);
    AppendedFaithful(unit, Removed(t, p.id), p.chunks, p.vecs);
    assert a.needsRebuild;
    hide Valid, Faithful, Removed, Recorded, Ids, PreparedOk;
    RecordedFacts(unit, a, p.id, p.hash);
  }

  lemma AppendSound(unit: Vec -> Vec, t: State, p: Prepared)
    requires Sound(unit, t) && |p.vecs| == |p.chunks| && t.hnsw.Some?
    ensures var a := if t.needsRebuild then AppendedArrays(t, p.chunks, p.vecs) else Appended(unit, t, p.chunks, p.vecs);
            var r := Recorded(a, p.id, p.hash);
            Faithful(unit, r) && FreshLinks(r) && SavedFresh(r)
  {
    AppendedFaithful(unit, t, p.chunks, p.vecs);
    AppendedFresh(unit, t, p.chunks, p.vecs);
    hide Valid, Faithful, FreshLinks, SavedFresh, Recorded, Appended, AppendedArrays;
    RecordedFacts(unit, AppendedArrays(t, p.chunks, p.vecs), p.id, p.hash);
    RecordedFacts(unit, Appended(unit, t, p.chunks, p.vecs), p.id, p.hash);
  }

  lemma AppendedFresh(unit: Vec -> Vec, s: State, chunks: seq<Passage>, vecs: seq<Vec>)
    requires FreshLinks(s) && SavedFresh(s) && s.hnsw.Some? && |vecs| == |chunks|
    ensures var a := Appended(unit, s, chunks, vecs); FreshLinks(a) && SavedFresh(a)
    ensures s.needsRebuild ==> (var a := AppendedArrays(s, chunks, vecs); FreshLinks(a) && SavedFresh(a))
  {
    ViewsConcat(unit, s.chunks, chunks, s.embeds, vecs);
    hide Id, Units, Entries;
  }

  lemma {:induction false} AppliedAllSound(unit: Vec -> Vec, s: State, docs: seq<Prepared>)
    requires Normalizes(unit) && Sound(unit, s) && AllOk(docs)
    ensures Sound(unit, AppliedAll(unit, s, docs))
  {
    if |docs| > 0 {
      var n := |docs| - 1;
      AllOkParts(docs);
      AppliedAllSound(unit, s, docs[..n]);
      hide Sound, PreparedOk, Normalizes, Applied;
      AppliedSound(unit, AppliedAll(unit, s, docs[..n]), docs[n]);
    }
  }

  // ---------- rebuilding ----------

  /** A rebuild neither repairs nor harms the embeddings. */
  lemma RebuiltFaithful(unit: Vec -> Vec, s: State)
    requires Normalizes(unit) && Parallel(s)
    ensures Faithful(unit, Reindexed(unit, s)) <==> Faithful(unit, s)
    ensures !s.deferIndex && s.needsRebuild ==> FreshLinks(Reindexed(unit, s)) && SavedFresh(Reindexed(unit, s))
  {
    hide Id;
    assert forall v :: unit(unit(v)) == unit(v);
  }

  // ---------- the other operations ----------

  lemma DeletedSound(unit: Vec -> Vec, s: State, id: string)
    requires Normalizes(unit) && Sound(unit, s)
    ensures Sound(unit, Deleted(unit, s, id))
  {
    DeletedOk(unit, s, id);
    ValidParts(unit, s);
    DeletedParts(unit, s, id);
    var t := Removed(s, id);
    RemovedSound(unit, s, id);
    hide Valid, Normalizes, Removed, Reindexed, Faithful, FreshLinks, SavedFresh, Deleted;
    ReindexedFaithful(unit, t.(versions := t.versions - {id}));
  }

  lemma DeletedParts(unit: Vec -> Vec, s: State, id: string)
    requires Parallel(s)
    ensures var t := Removed(s, id);
            var u := t.(versions := t.versions - {id});
            Deleted(unit, s, id) == u || (Deleted(unit, s, id) == Reindexed(unit, u))
  {
    hide Removed, Reindexed;
  }

  lemma RemovedSound(unit: Vec -> Vec, s: State, id: string)
    requires Sound(unit, s)
    ensures var t := Removed(s, id);
            var u := t.(versions := t.versions - {id});
            Faithful(unit, u) && FreshLinks(u) && SavedFresh(u)
  {
    ChosenFaithful(unit, s, id);
    if id !in s.docSet {
      RemovedNothing(s, id);
      RemovedRest(s, id);
    } else {
      RemovedOk(unit, s, id);
    }
    hide Valid, Removed, Ids;
  }

  lemma RemovedRest(s: State, id: string)
    requires Parallel(s)
    ensures var t := Removed(s, id);
            t.hnsw == s.hnsw && t.saved == s.saved && t.flat == s.flat && t.deferIndex == s.deferIndex
  {
    hide Chosen;
  }

  /** Save and Load: the embeddings are kept, and the saved links describe them. */
  lemma ReopenedSound(unit: Vec -> Vec, s: State)
    requires Normalizes(unit) && Sound(unit, s) && Saved(s).Some?
    ensures Injective(Saved(s).value.hashes)
    ensures Sound(unit, Loaded(Saved(s).value).(truth := s.truth))
  {
    ReopenedOk(unit, s);
    if Saved(s).value.links.Some? {
      SavedLinksDescribe(unit, s);
    }
    var t := Loaded(Saved(s).value);
    TruthIsFree(unit, t, s.truth);
    hide Valid, Normalizes, Id;
    assert s.chunks == [] ==> s.embeds == [] && s.truth == [];
  }

  lemma TruthIsFree(unit: Vec -> Vec, t: State, truth: seq<Vec>)
    requires Valid(unit, t) && |truth| == |t.truth|
    ensures Valid(unit, t.(truth := truth))
  {
    hide InOrder, DocIds, Id, Inverse, Histories;
    BooksSame(t, t.(truth := truth));
  }

  /** Links written to disk were built over exactly the chunks written beside them. */
  lemma SavedLinksDescribe(unit: Vec -> Vec, s: State)
    requires Sound(unit, s) && Saved(s).Some? && Saved(s).value.links.Some?
    ensures Saved(s).value.links.value == Ids(Saved(s).value.chunks)
  {
    hide Id, BooksOk, InOrder, DocIds, Shape;
  }
}
