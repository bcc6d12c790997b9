/** How embeddings are lost when vectors are shared or links restored by length alone: the
    general shape of each loss, and a store that suffers it. */
module StoreLosses {
  import opened Vectors
  import opened StoreStates
  import opened StoreLaws
  import opened StoreRuns
  import opened StoreBatches
  import opened StoreFidelity
  import opened StoreGuards

  // ---------- every update of this shape ----------

  /** p replaces the text of a stored document by another text with as many chunks. */
  ghost predicate SameSizeUpdate(s: State, p: Prepared) {
    && PreparedOk(p) && |p.chunks| > 0 && |p.vecs[0]| == s.dim
    && p.id in s.docSet && p.hash !in s.hashes && p.id in s.idHash
    && Parallel(s) && |Without(s.chunks, s.chunks, p.id)| + |p.chunks| == |s.chunks|
  }

  lemma SameSizeApplied(unit: Vec -> Vec, s: State, p: Prepared)
    requires Valid(unit, s) && s.hnsw.Some? && SameSizeUpdate(s, p)
    ensures Applies(s, p)
    ensures var t := Applied(unit, s, p);
            && t.needsRebuild && t.deferIndex == s.deferIndex && t.hnsw == s.hnsw && t.saved == s.saved && t.flat == s.flat
            && |t.chunks| == |s.chunks| == |t.embeds|
            && t.truth[|s.chunks| - |p.chunks|..] == p.vecs
  {
    RemovedOk(unit, s, p.id);
    assert s.idHash[p.id] in s.hashes;
    hide Kept, InOrder, DocIds, Id, Histories, Ids, Entries, Units;
  }

  lemma OneDocumentBatch(unit: Vec -> Vec, s: State, p: Prepared)
    requires Parallel(s) && PreparedOk(p) && |p.chunks| > 0 && p.hash !in s.hashes
    ensures Batch(s, [p]) == [p] && AllOk([p])
    ensures AppliedAll(unit, s, [p]) == Applied(unit, s, p)
    ensures AnyApplies(unit, s, [p]) == Applies(s, p)
  {
    OfferedOne(s.hashes, p);
    WithChunksOne(p);
    AppliedOne(unit, s, p);
    hide Applied, Applies, AppliedAll, AnyApplies, Offered, WithChunks, PreparedOk;
    assert forall q :: q in [p] ==> q == p;
  }

  lemma OfferedOne(hashes: map<Hash, string>, p: Prepared)
    requires p.hash !in hashes
    ensures Offered(hashes, [p]) == [p]
  {
    assert [p][..0] == [];
    assert Offered(hashes, []) == [];
  }

  lemma WithChunksOne(p: Prepared)
    requires |p.chunks| > 0
    ensures WithChunks([p]) == [p]
  {
    assert [p][..0] == [];
    assert WithChunks([]) == [];
  }

  lemma AppliedOne(unit: Vec -> Vec, s: State, p: Prepared)
    requires Parallel(s) && |p.vecs| == |p.chunks|
    ensures AppliedAll(unit, s, [p]) == Applied(unit, s, p) && AnyApplies(unit, s, [p]) == Applies(s, p)
  {
    hide Applied, Applies;
    assert [p][..0] == [];
    assert AppliedAll(unit, s, []) == s && !AnyApplies(unit, s, []);
  }

  /** Updating one document so that the chunk count comes out unchanged stores none of its
      new embeddings: the store keeps the old vectors, position by position. */
  lemma UpdateKeepsOldVectors(unit: Vec -> Vec, s: State, p: Prepared)
    requires Normalizes(unit) && Valid(unit, s) && SameSizeUpdate(s, p)
    requires !s.deferIndex && !s.needsRebuild && s.hnsw.Some?
    ensures Added(unit, s, [p]).embeds == Units(unit, s.embeds)
  {
    SameSizeApplied(unit, s, p);
    OneDocumentBatch(unit, s, p);
    CurrentIs(unit, s);
    var t := Applied(unit, s, p);
    hide Valid, Applied, Applies, Offered, WithChunks, AppliedAll, AnyApplies, SameSizeUpdate, Id, PreparedOk;
    assert Ensured(unit, s) == s;
    var u := Shared(t);
    assert u.embeds == Units(unit, s.embeds);
    assert Added(unit, s, [p]) == Reindexed(unit, u);
    ReindexedVectors(unit, u);
    assert Units(unit, Units(unit, s.embeds)) == Units(unit, s.embeds);
  }

  lemma CurrentIs(unit: Vec -> Vec, s: State)
    requires Valid(unit, s) && !s.deferIndex && !s.needsRebuild && s.hnsw.Some?
    ensures s.hnsw.value.vecs == Units(unit, s.embeds) && |s.hnsw.value.ids| == |s.embeds|
  {
    hide InOrder, DocIds, Id, BooksOk;
  }

  lemma ReindexedVectors(unit: Vec -> Vec, u: State)
    requires Parallel(u) && u.needsRebuild && !u.deferIndex
    ensures Reindexed(unit, u).embeds == Units(unit, u.embeds)
  {
    hide Id;
  }

  /** The same loss without AddDocuments: an ingest step on a store opened from disk, then
      the first search. */
  lemma IngestThenSearchKeepsOldVectors(unit: Vec -> Vec, s: State, p: Prepared)
    requires Normalizes(unit) && Valid(unit, s) && SameSizeUpdate(s, p)
    requires s.deferIndex && s.saved == Some(Ids(s.chunks)) && s.flat == s.embeds
    ensures Ensured(unit, Applied(unit, s, p)).embeds == Units(unit, s.embeds)
  {
    SameSizeApplied(unit, s, p);
    var t := Applied(unit, s, p);
    hide Valid, Applied, Applies, SameSizeUpdate, Id, Ensured;
    RestoredVectors(unit, t);
  }

  // ---------- stores that suffer it ----------

  /** A store with one document of one chunk. */
  ghost function OneChunk(unit: Vec -> Vec, doc: string, h: Hash, v: Vec): State {
    var c := Passage(doc, 0, "old");
    State(|v|, [c], [v], [v], {doc}, map[h := doc], map[doc := h], map[doc := [h]],
          Some(Index([Id(c)], [unit(v)], [Id(c)])), [(Id(c), "old")], false, false, None, [])
  }

  function OneDocument(doc: string, h: Hash, text: string, v: Vec): Prepared {
    Prepared(doc, h, [Passage(doc, 0, text)], [v])
  }

  /** It is what Build makes of that document when its vector is normalized. */
  lemma OneChunkIsBuilt(unit: Vec -> Vec, doc: string, h: Hash, v: Vec)
    requires unit(v) == v
    ensures Built(unit, [OneDocument(doc, h, "old", v)]) == Some(OneChunk(unit, doc, h, v))
  {
    var p := OneDocument(doc, h, "old", v);
    var s := Appended(unit, Fresh(EMPTY.(dim := |v|)), p.chunks, p.vecs);
    OneAppended(unit, p, v);
    AllOfOne(p);
    RecordedOne(s, p);
    hide AllChunks, AllVecs, RecordedAll, Appended, Id;
    assert Recorded(s, doc, h).versions == map[doc := [] + [h]];
    assert [] + [h] == [h];
    assert Shared(Recorded(s, doc, h)) == OneChunk(unit, doc, h, v);
  }

  lemma OneAppended(unit: Vec -> Vec, p: Prepared, v: Vec)
    requires p == OneDocument(p.id, p.hash, "old", v) && unit(v) == v
    ensures Appended(unit, Fresh(EMPTY.(dim := |v|)), p.chunks, p.vecs)
         == State(|v|, p.chunks, [v], [v], {p.id}, map[], map[], map[],
                  Some(Index([Id(p.chunks[0])], [v], [Id(p.chunks[0])])), [(Id(p.chunks[0]), "old")], false, false, None, [])
  {
    var c := p.chunks[0];
    hide Id;
    assert [] + Ids(p.chunks) == [Id(c)] && [] + Entries(p.chunks) == [(Id(c), "old")] && [] + Units(unit, p.vecs) == [v];
    assert (set x | x in p.chunks :: x.docId) == {p.id};
    assert [] + p.chunks == [c] && [] + p.vecs == [v];
    assert {} + {p.id} == {p.id};
  }

  lemma AllOfOne(p: Prepared)
    ensures AllChunks([p]) == p.chunks && AllVecs([p]) == p.vecs
  {
    assert [p][..0] == [];
    assert AllChunks([]) == [] && AllVecs([]) == [];
  }

  lemma RecordedOne(s: State, p: Prepared)
    ensures RecordedAll(s, [p]) == Recorded(s, p.id, p.hash)
  {
    assert [p][..0] == [];
    assert RecordedAll(s, []) == s;
    hide Recorded;
  }

  lemma OneChunkIsSound(unit: Vec -> Vec, doc: string, h: Hash, v: Vec)
    requires Normalizes(unit)
    ensures Sound(unit, OneChunk(unit, doc, h, v))
  {
    var s := OneChunk(unit, doc, h, v);
    hide Id;
    assert DocIds(s.chunks) == {doc} by {
      assert s.chunks[0] in s.chunks;
    }
    assert Ids(s.chunks) == [Id(s.chunks[0])] && Entries(s.chunks) == s.lex && Units(unit, s.embeds) == s.hnsw.value.vecs;
    assert Histories(s);
  }

  lemma OneIsReplaced(unit: Vec -> Vec, s: State, p: Prepared, w: Vec)
    requires |s.chunks| == |s.embeds| == |s.truth| == 1 && s.chunks[0].docId == "a" && |w| == s.dim
    requires "a" in s.docSet && "a" in s.idHash && 2 !in s.hashes && p == OneDocument("a", 2, "new", w)
    ensures SameSizeUpdate(s, p)
  {
    assert Kept(s.chunks, {"a"}, false, 0) == [];
    assert Kept(s.chunks, {"a"}, false, 1) == [];
  }

  /** AddDocuments does not keep embeddings faithful: one document, one new text, two
      vectors that point in different directions. */
  lemma UpdateCanLoseAnEmbedding(unit: Vec -> Vec, v: Vec, w: Vec)
    requires Normalizes(unit) && |v| == |w| && unit(v) != unit(w)
    ensures var s := OneChunk(unit, "a", 1, v);
            var p := OneDocument("a", 2, "new", w);
            && Sound(unit, s) && AllOk([p])
            && Added(unit, s, [p]).embeds == [unit(v)]
            && Applied(unit, s, p).truth == [w]
            && !Faithful(unit, Added(unit, s, [p]))
  {
    var s := OneChunk(unit, "a", 1, v);
    var p := OneDocument("a", 2, "new", w);
    OneChunkIsSound(unit, "a", 1, v);
    OneIsReplaced(unit, s, p, w);
    UpdateKeepsOldVectors(unit, s, p);
    OneDocumentBatch(unit, s, p);
    SameSizeApplied(unit, s, p);
    var t := Applied(unit, s, p);
    var f := Added(unit, s, [p]);
    hide Valid, Applied, Kept, Id, SameSizeUpdate;
    assert Units(unit, [v]) == [unit(v)];
    assert t.truth == [w];
    AddedTruth(unit, s, p);
    assert f.embeds[0] == unit(v) && f.truth[0] == w;
    assert unit(unit(v)) == unit(v);
  }

  lemma AddedTruth(unit: Vec -> Vec, s: State, p: Prepared)
    requires Parallel(s) && PreparedOk(p) && |p.chunks| > 0 && p.hash !in s.hashes && !s.deferIndex
    ensures Added(unit, s, [p]).truth == Applied(unit, s, p).truth
  {
    OneDocumentBatch(unit, s, p);
    hide Applied, Applies, AppliedAll, AnyApplies, Offered, WithChunks, PreparedOk;
  }

  /** That store, saved and loaded. */
  ghost function Reopened(unit: Vec -> Vec, v: Vec): State {
    var c := Passage("a", 0, "old");
    State(|v|, [c], [v], [v], {"a"}, map[1 := "a"], map["a" := 1], map["a" := [1]],
          Some(Index([], [], [])), [], false, true, Some([Id(c)]), [v])
  }

  lemma ReopenedIs(unit: Vec -> Vec, v: Vec)
    requires Normalizes(unit)
    ensures var s := OneChunk(unit, "a", 1, v);
            && Sound(unit, s) && Saved(s).Some? && Injective(Saved(s).value.hashes)
            && Loaded(Saved(s).value) == Reopened(unit, v) && Sound(unit, Reopened(unit, v))
            && Ids(Reopened(unit, v).chunks) == Reopened(unit, v).saved.value
  {
    var s := OneChunk(unit, "a", 1, v);
    OneChunkIsSound(unit, "a", 1, v);
    ReopenedSound(unit, s);
    hide Id, Sound;
    assert (set c | c in s.chunks :: c.docId) == {"a"};
    assert InverseOf(s.idHash) == map[1 := "a"];
    assert Loaded(Saved(s).value).(truth := s.truth) == Reopened(unit, v);
  }

  /** Neither does an ingest step followed by the first search, on a store opened from disk:
      the step is harmless, the search restores the old block over it. */
  lemma RestoreCanLoseAnEmbedding(unit: Vec -> Vec, v: Vec, w: Vec)
    requires Normalizes(unit) && |v| == |w| && unit(v) != unit(w)
    ensures var s := Reopened(unit, v);
            var t := Applied(unit, s, OneDocument("a", 2, "new", w));
            && Sound(unit, s) && Sound(unit, t)
            && Ensured(unit, t).embeds == [unit(v)] && Ensured(unit, t).truth == [w]
            && !Faithful(unit, Ensured(unit, t))
  {
    var s := Reopened(unit, v);
    var p := OneDocument("a", 2, "new", w);
    ReopenedIs(unit, v);
    OneIsReplaced(unit, s, p, w);
    IngestThenSearchKeepsOldVectors(unit, s, p);
    SameSizeApplied(unit, s, p);
    AppliedSound(unit, s, p);
    var t := Applied(unit, s, p);
    ValidParts(unit, s);
    ValidParts(unit, t);
    EnsuredOk(unit, t);
    hide Valid, IndexOk, BooksOk, Applied, Ensured, Kept, Id, SameSizeUpdate, FreshLinks, SavedFresh;
    assert Units(unit, [v]) == [unit(v)];
    assert t.truth == [w];
    assert Ensured(unit, t).embeds[0] == unit(v) && unit(unit(v)) == unit(v);
  }

  /** Nor does a merge: load, delete the only document, merge a store with one chunk.  As many
      chunks as were saved are there again, and the old block is restored over the new one. */
  lemma MergeCanLoseAnEmbedding(unit: Vec -> Vec, v: Vec, w: Vec)
    requires Normalizes(unit) && |v| == |w| > 0 && unit(v) != unit(w)
    ensures var s := Reopened(unit, v);
            var t := Deleted(unit, s, "a");
            var src := OneChunk(unit, "b", 2, w);
            && Sound(unit, s) && Sound(unit, t) && Sound(unit, src)
            && MergedFrom(unit, t, src).Merged?
            && !Faithful(unit, MergedFrom(unit, t, src).state)
  {
    var s := Reopened(unit, v);
    var src := OneChunk(unit, "b", 2, w);
    ReopenedIs(unit, v);
    OneChunkIsSound(unit, "b", 2, w);
    DeletedSound(unit, s, "a");
    EmptiedIs(unit, v);
    var t := Deleted(unit, s, "a");
    OneIsTaken(unit, t, src, w);
    SoundParts(unit, src);
    hide Sound, Deleted, Id, Valid, TakenChunks, TakenVecs;
    MergedExact(unit, t, src);
    assert !Same(unit, [v], [w]) by {
      assert [v][0] == v && [w][0] == w;
    }
    assert t.truth + TakenVecs(t, src) == [w];
  }

  lemma EmptiedIs(unit: Vec -> Vec, v: Vec)
    ensures var t := Deleted(unit, Reopened(unit, v), "a");
            && t.chunks == [] && t.truth == [] && t.embeds == [] && t.deferIndex && t.saved.Some? && |t.saved.value| == 1
            && t.flat == [v] && t.dim == |v| && t.idHash == map[] && t.hashes == map[] && t.hnsw == Some(Index([], [], []))
  {
    var s := Reopened(unit, v);
    assert Kept(s.chunks, {"a"}, false, 0) == [];
    assert Kept(s.chunks, {"a"}, false, 1) == [];
    hide Id;
  }

  lemma OneIsTaken(unit: Vec -> Vec, t: State, src: State, w: Vec)
    requires src == OneChunk(unit, "b", 2, w) && t.idHash == map[] && t.hashes == map[] && t.dim == |w| && t.hnsw.Some?
    ensures TakenChunks(t, src) == src.chunks && TakenVecs(t, src) == [w]
    ensures MergedFrom(unit, t, src).Merged?
  {
    assert Take(t, src) == {"b"};
    assert Kept(src.chunks, {"b"}, true, 0) == [];
    assert Kept(src.chunks, {"b"}, true, 1) == [0];
    hide Id, Ensured, Reindexed, Booked, Appended;
  }

  // ---------- builds whose books do not agree ----------

  /** Two documents with one text: the second takes over its content. */
  lemma EqualTextsBreakTheBooks(unit: Vec -> Vec, v: Vec)
    requires Normalizes(unit)
    ensures var docs := [OneDocument("a", 1, "text", v), OneDocument("b", 1, "text", v)];
            Built(unit, docs).Some? && !Valid(unit, Built(unit, docs).value)
  {
    var p, q := OneDocument("a", 1, "text", v), OneDocument("b", 1, "text", v);
    AllOfTwo(p, q);
    assert !DistinctTexts([p, q]) by {
      assert [p, q][0].hash == [p, q][1].hash;
    }
    hide AllChunks, AllVecs, Valid, Id;
    BuiltOk(unit, [p, q], |v|);
  }

  /** A blank document: it has a hash, but no chunk. */
  lemma BlankBreaksTheBooks(unit: Vec -> Vec, v: Vec)
    requires Normalizes(unit)
    ensures var docs := [OneDocument("a", 1, "text", v), Prepared("b", 2, [], [])];
            Built(unit, docs).Some? && !Valid(unit, Built(unit, docs).value)
  {
    var p, q := OneDocument("a", 1, "text", v), Prepared("b", 2, [], []);
    AllOfTwo(p, q);
    assert !NoneEmpty([p, q]) by {
      assert [p, q][1].chunks == [];
    }
    hide AllChunks, AllVecs, Valid, Id;
    BuiltOk(unit, [p, q], |v|);
  }

  lemma AllOfTwo(p: Prepared, q: Prepared)
    ensures AllChunks([p, q]) == p.chunks + q.chunks && AllVecs([p, q]) == p.vecs + q.vecs
  {
    assert [p, q][..1] == [p];
    AllOfOne(p);
  }
}
