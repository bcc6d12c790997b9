/** When the operations that share vectors or restore links keep every embedding and every
    link what it should be: conditions on the store and the call alone, each of them exact. */
module StoreGuards {
  import opened Vectors
  import opened StoreStates
  import opened StoreLaws
  import opened StoreRuns
  import opened StoreBatches
  import opened StoreFidelity

  // ---------- vectors up to normalization ----------

  ghost predicate Same(unit: Vec -> Vec, a: seq<Vec>, b: seq<Vec>) {
    |a| == |b| && forall i :: 0 <= i < |a| ==> unit(a[i]) == unit(b[i])
  }

  lemma SameUnits(unit: Vec -> Vec, a: seq<Vec>, b: seq<Vec>)
    requires Normalizes(unit)
    ensures Same(unit, Units(unit, a), b) <==> Same(unit, a, b)
  {
    assert forall v :: unit(unit(v)) == unit(v);
  }

  lemma SameConcat(unit: Vec -> Vec, a: seq<Vec>, b: seq<Vec>, c: seq<Vec>, d: seq<Vec>)
    requires |a| == |c|
    ensures Same(unit, a + b, c + d) <==> Same(unit, a, c) && Same(unit, b, d)
  {
    if Same(unit, a + b, c + d) {
      assert forall i :: 0 <= i < |a| ==> (a + b)[i] == a[i] && (c + d)[i] == c[i];
      assert forall i :: 0 <= i < |b| ==> (a + b)[|a| + i] == b[i] && (c + d)[|c| + i] == d[i];
    }
  }

  lemma FaithfulIs(unit: Vec -> Vec, s: State)
    requires Parallel(s)
    ensures Faithful(unit, s) <==> Same(unit, s.embeds, s.truth)
  {
  }

  // ---------- the first search ----------

  /** The vectors a store works with once its index is up. */
  function BaseVecs(s: State): (r: seq<Vec>)
    requires Parallel(s)
    ensures |r| == |s.chunks|
  {
    if s.deferIndex && Restorable(s) && |s.flat| == |s.chunks| then s.flat else s.embeds
  }

  /** The saved links that a deferred index would adopt are over the stored chunks. */
  ghost predicate LinksFit(s: State) { s.deferIndex && Restorable(s) ==> s.saved.value == Ids(s.chunks) }

  /** A built index over these vectors, which the store now shares. */
  ghost predicate BuiltOver(unit: Vec -> Vec, s: State, e: State, links: seq<string>) {
    && Parallel(s) && e.embeds == Units(unit, BaseVecs(s)) && e.truth == s.truth && e.chunks == s.chunks
    && e.hnsw == Some(Index(Ids(s.chunks), Units(unit, BaseVecs(s)), links))
    && !e.deferIndex && !e.needsRebuild
  }

  lemma EnsuredRestored(unit: Vec -> Vec, s: State)
    requires Parallel(s) && s.deferIndex && Restorable(s)
    ensures BuiltOver(unit, s, Ensured(unit, s), s.saved.value)
  {
    hide Entries;
  }

  lemma EnsuredRebuilt(unit: Vec -> Vec, s: State)
    requires Parallel(s) && s.deferIndex && !Restorable(s)
    ensures BuiltOver(unit, s, Ensured(unit, s), Ids(s.chunks))
  {
    hide Entries;
  }

  /** What building the index leaves, in terms of the store before. */
  lemma EnsuredIs(unit: Vec -> Vec, s: State)
    requires Parallel(s) && s.deferIndex
    ensures BuiltOver(unit, s, Ensured(unit, s), if Restorable(s) then s.saved.value else Ids(s.chunks))
  {
    if Restorable(s) {
      EnsuredRestored(unit, s);
    } else {
      EnsuredRebuilt(unit, s);
    }
    hide BuiltOver, Ensured, Ids, Restorable;
  }

  /** Ensuring keeps every embedding exactly when the vectors it settles on are the given ones. */
  lemma EnsuredFaithful(unit: Vec -> Vec, s: State)
    requires Normalizes(unit) && Parallel(s)
    ensures Faithful(unit, Ensured(unit, s)) <==> Same(unit, BaseVecs(s), s.truth)
  {
    if s.deferIndex {
      EnsuredIs(unit, s);
      SameUnits(unit, BaseVecs(s), s.truth);
    }
    FaithfulIs(unit, Ensured(unit, s));
    hide Same, Faithful, Ensured, Ids, Units, Restorable;
  }

  ghost predicate SearchGuard(unit: Vec -> Vec, s: State)
    requires Parallel(s)
  {
    Same(unit, BaseVecs(s), s.truth) && LinksFit(s)
  }

  lemma SearchExact(unit: Vec -> Vec, s: State)
    requires Normalizes(unit) && Sound(unit, s)
    ensures Parallel(s) && (Sound(unit, Ensured(unit, s)) <==> SearchGuard(unit, s))
  {
    EnsuredValid(unit, s);
    EnsuredFaithful(unit, s);
    if s.deferIndex {
      EnsuredIs(unit, s);
    }
    hide Valid, Faithful, Same, Ensured, Normalizes, Ids, Restorable, BaseVecs;
  }

  lemma ReindexExact(unit: Vec -> Vec, s: State)
    requires Normalizes(unit) && Sound(unit, s)
    ensures Parallel(s) && (Sound(unit, Reindexed(unit, Ensured(unit, s))) <==> SearchGuard(unit, s))
  {
    SearchExact(unit, s);
    if s.deferIndex {
      EnsuredIs(unit, s);
      assert Reindexed(unit, Ensured(unit, s)) == Ensured(unit, s);
    } else {
      ReindexedSound(unit, s);
    }
    hide Sound, Reindexed, Normalizes, Ids, Units, BaseVecs;
  }

  lemma ReindexedSound(unit: Vec -> Vec, s: State)
    requires Normalizes(unit) && Sound(unit, s)
    ensures Sound(unit, Reindexed(unit, s))
  {
    SoundParts(unit, s);
    ReindexedValid(unit, s);
    ReindexedFaithful(unit, s);
    hide Valid, Faithful, FreshLinks, SavedFresh, Normalizes, Reindexed;
  }

  lemma SoundParts(unit: Vec -> Vec, s: State)
    requires Sound(unit, s)
    ensures Valid(unit, s) && Faithful(unit, s) && FreshLinks(s) && SavedFresh(s) && Parallel(s)
  {
  }

  // ---------- AddDocuments ----------

  function BatchDim(s: State, batch: seq<Prepared>): nat {
    if s.hnsw.Some? then s.dim else if |batch| > 0 && |batch[0].vecs| > 0 then |batch[0].vecs[0]| else s.dim
  }

  /** The documents of a call that take effect: those of the batch with vectors of the
      store's dimension. */
  function Effective(s: State, docs: seq<Prepared>): (r: seq<Prepared>)
    ensures forall p :: p in r ==> p in docs
  {
    BatchWithin(s, docs);
    Fitting(BatchDim(s, Batch(s, docs)), Batch(s, docs))
  }

  lemma BatchWithin(s: State, docs: seq<Prepared>)
    ensures forall p :: p in Batch(s, docs) ==> p in docs
  {
  }

  /** Those the vector index sees before a pending rebuild shuts it off. */
  function Seen(s: State, docs: seq<Prepared>): seq<Prepared> {
    if s.needsRebuild && !s.deferIndex then [] else BeforeReplacing(s.docSet, Effective(s, docs))
  }

  /** The vectors of the index once it is up. */
  function IndexVecs(s: State): seq<Vec>
    requires Parallel(s)
  {
    if s.hnsw.None? then [] else if s.deferIndex then BaseVecs(s) else s.hnsw.value.vecs
  }

  /** The rows the call should leave: those of no document replaced, then the new ones. */
  function EndRows(s: State, docs: seq<Prepared>): seq<Row>
    requires Parallel(s) && forall p :: p in docs ==> |p.vecs| == |p.chunks|
  {
    Rest(RowsOf(s.chunks, BaseVecs(s), s.truth), IdsOf(Effective(s, docs))) + NewRows(Effective(s, docs))
  }

  function EndIndex(s: State, docs: seq<Prepared>): seq<Vec>
    requires Parallel(s)
  {
    IndexVecs(s) + AllVecs(Seen(s, docs))
  }

  function Embeds(rows: seq<Row>): (r: seq<Vec>)
    ensures |r| == |rows| && forall i :: 0 <= i < |r| ==> r[i] == rows[i].embed
  {
    seq(|rows|, i requires 0 <= i < |rows| => rows[i].embed)
  }

  function Givens(rows: seq<Row>): (r: seq<Vec>)
    ensures |r| == |rows| && forall i :: 0 <= i < |r| ==> r[i] == rows[i].given
  {
    seq(|rows|, i requires 0 <= i < |rows| => rows[i].given)
  }

  /** Sharing happens: something took effect, and the index then holds as many vectors as
      there are rows. */
  predicate CountsAgree(s: State, docs: seq<Prepared>)
    requires Parallel(s) && forall p :: p in docs ==> |p.vecs| == |p.chunks|
  {
    Effective(s, docs) != [] && |EndIndex(s, docs)| == |EndRows(s, docs)|
  }

  /** The vectors the call ends with are the given ones. */
  ghost predicate AddKeeps(unit: Vec -> Vec, s: State, docs: seq<Prepared>)
    requires Parallel(s) && forall p :: p in docs ==> |p.vecs| == |p.chunks|
  {
    Same(unit, if CountsAgree(s, docs) then EndIndex(s, docs) else Embeds(EndRows(s, docs)), Givens(EndRows(s, docs)))
  }

  /** What a caller can look at before AddDocuments; links that a replaced document makes
      the call rebuild need not fit. */
  ghost predicate AddGuard(unit: Vec -> Vec, s: State, docs: seq<Prepared>)
    requires Parallel(s) && forall p :: p in docs ==> |p.vecs| == |p.chunks|
  {
    |Batch(s, docs)| > 0 ==> AddKeeps(unit, s, docs) && (Replaces(s.docSet, Effective(s, docs)) || LinksFit(s))
  }

  // Rows that differ at most in the length of their embeddings.
  ghost predicate SameRows(unit: Vec -> Vec, a: seq<Row>, b: seq<Row>) {
    |a| == |b| && forall i :: 0 <= i < |a| ==> SameRow(unit, a[i], b[i])
  }

  ghost predicate SameRow(unit: Vec -> Vec, a: Row, b: Row) {
    a.chunk == b.chunk && a.given == b.given && unit(a.embed) == unit(b.embed)
  }

  lemma {:induction false} RestSame(unit: Vec -> Vec, a: seq<Row>, b: seq<Row>, docs: set<string>)
    requires SameRows(unit, a, b)
    ensures SameRows(unit, Rest(a, docs), Rest(b, docs))
    decreases |a|
  {
    if |a| > 0 {
      var n := |a| - 1;
      RestSame(unit, a[..n], b[..n], docs);
      assert SameRow(unit, a[n], b[n]);
    }
  }

  lemma SameRowsConcat(unit: Vec -> Vec, a: seq<Row>, b: seq<Row>, c: seq<Row>)
    requires SameRows(unit, a, b)
    ensures SameRows(unit, a + c, b + c)
  {
  }

  lemma SameRowsVecs(unit: Vec -> Vec, a: seq<Row>, b: seq<Row>)
    requires SameRows(unit, a, b)
    ensures Givens(a) == Givens(b) && Same(unit, Embeds(a), Embeds(b))
  {
    assert forall i :: 0 <= i < |a| ==> SameRow(unit, a[i], b[i]);
  }

  lemma SameTrans(unit: Vec -> Vec, a: seq<Vec>, b: seq<Vec>, c: seq<Vec>)
    requires Same(unit, a, b)
    ensures Same(unit, a, c) <==> Same(unit, b, c)
  {
  }

  lemma RowsVecs(s: State)
    requires Parallel(s)
    ensures Embeds(Rows(s)) == s.embeds && Givens(Rows(s)) == s.truth
  {
  }

  // ----- the store the batch is applied to -----

  /** o is s with its index up, ready for the batch. */
  ghost predicate IsReady(unit: Vec -> Vec, s: State, d: nat, o: State) {
    && Parallel(s) && Parallel(o) && Valid(unit, o) && o.hnsw.Some? && !o.deferIndex
    && o.dim == d && o.hashes == s.hashes && o.docSet == s.docSet
    && o.needsRebuild == (s.needsRebuild && !s.deferIndex)
    && SameRows(unit, Rows(o), RowsOf(s.chunks, BaseVecs(s), s.truth))
    && Same(unit, o.hnsw.value.vecs, IndexVecs(s))
    && (o.needsRebuild || (o.hnsw.value.built == o.hnsw.value.ids <==> LinksFit(s)))
  }

  lemma ReadyFresh(unit: Vec -> Vec, s: State, p: Prepared)
    requires Valid(unit, s) && s.hnsw.None? && |p.vecs| > 0
    ensures IsReady(unit, s, |p.vecs[0]|, Opened(s, p))
  {
    OpenedOk(unit, s, p);
    ValidParts(unit, s);
    hide Valid, IndexOk, BooksOk;
  }

  lemma ReadyEnsured(unit: Vec -> Vec, s: State)
    requires Normalizes(unit) && Sound(unit, s) && s.hnsw.Some? && s.deferIndex
    ensures IsReady(unit, s, s.dim, Ensured(unit, s))
  {
    SoundParts(unit, s);
    ValidParts(unit, s);
    EnsuredOk(unit, s);
    EnsuredValid(unit, s);
    EnsuredIs(unit, s);
    var e := Ensured(unit, s);
    SameUnits(unit, BaseVecs(s), BaseVecs(s));
    BuiltRows(unit, s, e);
    hide Valid, IndexOk, BooksOk, Ensured, Faithful, FreshLinks, SavedFresh, Normalizes, SameRows, Same, Ids, Units, BaseVecs, Shape;
  }

  lemma BuiltRows(unit: Vec -> Vec, s: State, e: State)
    requires Normalizes(unit) && Parallel(s) && e.chunks == s.chunks && e.truth == s.truth && e.embeds == Units(unit, BaseVecs(s))
    ensures Parallel(e) && SameRows(unit, Rows(e), RowsOf(s.chunks, BaseVecs(s), s.truth))
  {
    hide BaseVecs;
    assert forall v :: unit(unit(v)) == unit(v);
  }

  lemma ReadyNow(unit: Vec -> Vec, s: State)
    requires Sound(unit, s) && s.hnsw.Some? && !s.deferIndex
    ensures IsReady(unit, s, s.dim, Ensured(unit, s))
  {
    SoundParts(unit, s);
    hide Valid, Faithful, SavedFresh;
  }

  lemma FirstOfBatch(s: State, docs: seq<Prepared>)
    requires AllOk(docs) && |Batch(s, docs)| > 0
    ensures AllOk(Batch(s, docs)) && NewBatch(s.hashes, Batch(s, docs))
    ensures Batch(s, docs)[0] in Batch(s, docs) && |Batch(s, docs)[0].chunks| == |Batch(s, docs)[0].vecs| > 0
    ensures forall p :: p in Batch(s, docs) ==> |p.vecs| == |p.chunks|
  {
    BatchIsNew(s, docs);
    hide Batch;
  }

  /** The store the batch is applied to, and what AppliedAll makes of it. */
  lemma BatchApplied(unit: Vec -> Vec, s: State, docs: seq<Prepared>) returns (o: State)
    requires Normalizes(unit) && Sound(unit, s) && AllOk(docs) && |Batch(s, docs)| > 0
    ensures (forall p :: p in Batch(s, docs) ==> |p.vecs| == |p.chunks|) && Parallel(Ensured(unit, s)) && Parallel(o)
    ensures IsReady(unit, s, BatchDim(s, Batch(s, docs)), o)
    ensures AppliedAll(unit, Ensured(unit, s), Batch(s, docs)) == AppliedAll(unit, o, Batch(s, docs))
    ensures AnyApplies(unit, Ensured(unit, s), Batch(s, docs)) == AnyApplies(unit, o, Batch(s, docs))
  {
    var batch := Batch(s, docs);
    FirstOfBatch(s, docs);
    SoundParts(unit, s);
    EnsuredParallel(unit, s);
    NoIndexNoDefer(unit, s);
    hide Sound, Batch, AllOk, NewBatch, AppliedAll, AnyApplies, Normalizes, IsReady, Valid;
    if s.hnsw.None? {
      o := Opened(s, batch[0]);
      ReadyFresh(unit, s, batch[0]);
      OpenFirst(unit, s, batch);
    } else {
      o := Ensured(unit, s);
      if s.deferIndex {
        ReadyEnsured(unit, s);
      } else {
        ReadyNow(unit, s);
      }
    }
  }

  lemma EnsuredParallel(unit: Vec -> Vec, s: State)
    requires Parallel(s)
    ensures Parallel(Ensured(unit, s)) && (!s.deferIndex ==> Ensured(unit, s) == s)
  {
  }

  lemma NoIndexNoDefer(unit: Vec -> Vec, s: State)
    requires Valid(unit, s)
    ensures s.hnsw.None? ==> !s.deferIndex
  {
  }

  lemma SeenIs(s: State, docs: seq<Prepared>, o: State)
    requires o.docSet == s.docSet && o.needsRebuild == (s.needsRebuild && !s.deferIndex)
    ensures Indexed(o, Effective(s, docs)) == Seen(s, docs)
  {
    hide Effective;
  }

  /** What sharing would do, in terms of the store before the call. */
  lemma EndIs(unit: Vec -> Vec, s: State, docs: seq<Prepared>, o: State, t: State)
    requires Normalizes(unit) && Parallel(s) && AllOk(docs) && (forall p :: p in docs ==> |p.vecs| == |p.chunks|)
    requires IsReady(unit, s, BatchDim(s, Batch(s, docs)), o) && BatchAfter(unit, o, Effective(s, docs), t)
    ensures t.hnsw.Some? && Parallel(t)
    ensures |t.hnsw.value.vecs| == |t.embeds| <==> |EndIndex(s, docs)| == |EndRows(s, docs)|
    ensures Same(unit, t.hnsw.value.vecs, t.truth) <==> Same(unit, EndIndex(s, docs), Givens(EndRows(s, docs)))
    ensures Same(unit, t.embeds, t.truth) <==> Same(unit, Embeds(EndRows(s, docs)), Givens(EndRows(s, docs)))
  {
    hide *;
    var fit := Effective(s, docs);
    ReadyParts(unit, s, BatchDim(s, Batch(s, docs)), o);
    AfterParts(unit, o, fit, t);
    EffectiveSizes(s, docs);
    SeenIs(s, docs, o);
    BaseSizes(s);
    var base := RowsOf(s.chunks, BaseVecs(s), s.truth);
    RestSame(unit, Rows(o), base, IdsOf(fit));
    SameRowsConcat(unit, Rest(Rows(o), IdsOf(fit)), Rest(base, IdsOf(fit)), NewRows(fit));
    EndRowsIs(s, docs);
    SameRowsVecs(unit, Rows(t), EndRows(s, docs));
    RowsVecs(t);
    SameSizes(unit, t.embeds, Embeds(EndRows(s, docs)));
    SameTrans(unit, t.embeds, Embeds(EndRows(s, docs)), t.truth);
    var seen := AllVecs(Seen(s, docs));
    SameUnits(unit, seen, seen);
    SameSelf(unit, seen);
    SameSizes(unit, o.hnsw.value.vecs, IndexVecs(s));
    SameConcat(unit, o.hnsw.value.vecs, Units(unit, seen), IndexVecs(s), seen);
    SameSizes(unit, t.hnsw.value.vecs, EndIndex(s, docs));
    SameTrans(unit, t.hnsw.value.vecs, EndIndex(s, docs), t.truth);
  }

  lemma BaseSizes(s: State)
    requires Parallel(s)
    ensures |s.chunks| == |s.truth| == |s.embeds|
  {
  }

  lemma SameSelf(unit: Vec -> Vec, a: seq<Vec>)
    ensures Same(unit, a, a)
  {
  }

  lemma SameSizes(unit: Vec -> Vec, a: seq<Vec>, b: seq<Vec>)
    ensures Same(unit, a, b) ==> |a| == |b|
  {
  }

  lemma EffectiveSizes(s: State, docs: seq<Prepared>)
    requires forall p :: p in docs ==> |p.vecs| == |p.chunks|
    ensures forall p :: p in Effective(s, docs) ==> |p.vecs| == |p.chunks|
  {
    hide Effective;
  }

  lemma EndRowsIs(s: State, docs: seq<Prepared>)
    requires Parallel(s) && forall p :: p in docs ==> |p.vecs| == |p.chunks|
    ensures forall p :: p in Effective(s, docs) ==> |p.vecs| == |p.chunks|
    ensures EndRows(s, docs)
         == Rest(RowsOf(s.chunks, BaseVecs(s), s.truth), IdsOf(Effective(s, docs))) + NewRows(Effective(s, docs))
    ensures EndIndex(s, docs) == IndexVecs(s) + AllVecs(Seen(s, docs))
  {
    hide Effective, Rest, NewRows, IdsOf, BaseVecs, RowsOf, IndexVecs, Seen;
  }

  lemma ReadyParts(unit: Vec -> Vec, s: State, d: nat, o: State)
    requires IsReady(unit, s, d, o)
    ensures Parallel(s) && Parallel(o) && Valid(unit, o) && o.hnsw.Some? && !o.deferIndex && o.dim == d
    ensures o.hashes == s.hashes && o.docSet == s.docSet && o.needsRebuild == (s.needsRebuild && !s.deferIndex)
    ensures SameRows(unit, Rows(o), RowsOf(s.chunks, BaseVecs(s), s.truth))
    ensures Same(unit, o.hnsw.value.vecs, IndexVecs(s))
    ensures o.needsRebuild || (o.hnsw.value.built == o.hnsw.value.ids <==> LinksFit(s))
  {
    hide Valid, SameRows, Same, LinksFit;
  }

  lemma AfterParts(unit: Vec -> Vec, o: State, fit: seq<Prepared>, t: State)
    requires BatchAfter(unit, o, fit, t)
    ensures Parallel(o) && Parallel(t) && (forall p :: p in fit ==> |p.vecs| == |p.chunks|)
    ensures Rows(t) == Rest(Rows(o), IdsOf(fit)) + NewRows(fit)
    ensures o.hnsw.Some? && t.hnsw.Some?
    ensures Grown(unit, o.hnsw.value, AllChunks(Indexed(o, fit)), AllVecs(Indexed(o, fit)), t.hnsw.value)
    ensures t.hnsw.value.vecs == o.hnsw.value.vecs + Units(unit, AllVecs(Indexed(o, fit)))
    ensures t.needsRebuild == (o.needsRebuild || Replaces(o.docSet, fit)) && t.deferIndex == o.deferIndex
  {
    hide Rows, Rest, NewRows, IdsOf, Ids, Units, AllChunks, AllVecs, Indexed, Replaces, HasHash;
  }

  // ----- the end of the call -----

  lemma AddedIs(unit: Vec -> Vec, s: State, docs: seq<Prepared>)
    requires Parallel(s) && (forall p :: p in docs ==> |p.vecs| == |p.chunks|)
    requires forall p :: p in Batch(s, docs) ==> |p.vecs| == |p.chunks|
    ensures Parallel(Ensured(unit, s))
    ensures Added(unit, s, docs) ==
            if |Batch(s, docs)| == 0 then s
            else
              var t := AppliedAll(unit, Ensured(unit, s), Batch(s, docs));
              Reindexed(unit, if AnyApplies(unit, Ensured(unit, s), Batch(s, docs)) then Shared(t) else t)
  {
    hide Ensured, AppliedAll, AnyApplies, Reindexed, Offered, WithChunks;
  }

  /** Sharing, if something changed, and then the pending rebuild. */
  lemma ClosedExact(unit: Vec -> Vec, t: State, any: bool)
    requires Normalizes(unit) && Valid(unit, t) && t.hnsw.Some? && !t.deferIndex && Parallel(t)
    ensures var f := Reindexed(unit, if any then Shared(t) else t);
            && (Faithful(unit, f) <==>
                Same(unit, if any && |t.hnsw.value.vecs| == |t.embeds| then t.hnsw.value.vecs else t.embeds, t.truth))
            && (FreshLinks(f) <==> t.needsRebuild || t.hnsw.value.built == t.hnsw.value.ids)
            && SavedFresh(f)
  {
    SharedIs(unit, t);
    var u := if any then Shared(t) else t;
    RebuiltFaithful(unit, u);
    FaithfulIs(unit, u);
    LinksAfter(unit, u);
    hide Valid, Faithful, Same, Normalizes, Reindexed, FreshLinks, SavedFresh, Shared;
  }

  lemma SharedIs(unit: Vec -> Vec, t: State)
    requires Valid(unit, t) && t.hnsw.Some?
    ensures var u := Shared(t);
            && u.embeds == (if |t.hnsw.value.vecs| == |t.embeds| then t.hnsw.value.vecs else t.embeds)
            && u == t.(embeds := u.embeds) && Parallel(u)
  {
    ValidParts(unit, t);
    hide Valid, IndexOk, BooksOk;
  }

  lemma LinksAfter(unit: Vec -> Vec, u: State)
    requires Parallel(u) && u.hnsw.Some? && !u.deferIndex
    ensures var f := Reindexed(unit, u);
            (FreshLinks(f) <==> u.needsRebuild || u.hnsw.value.built == u.hnsw.value.ids) && SavedFresh(f)
  {
    hide Ids, Units, Entries;
  }

  /** Links stay over the chunks exactly when they were, unless a rebuild is pending. */
  lemma GrownLinks(unit: Vec -> Vec, h: Index, chunks: seq<Passage>, vecs: seq<Vec>, g: Index)
    requires Grown(unit, h, chunks, vecs, g)
    ensures |h.built| == |h.ids| ==> (g.built == g.ids <==> h.built == h.ids)
  {
    hide Ids, Units;
    if |h.built| == |h.ids| && g.built == g.ids {
      assert h.built == g.built[..|h.ids|] == g.ids[..|h.ids|] == h.ids;
    }
  }

  /** AddDocuments keeps every embedding and every link what it should be exactly under its
      guard. */
  lemma AddedExact(unit: Vec -> Vec, s: State, docs: seq<Prepared>)
    requires Normalizes(unit) && Sound(unit, s) && AllOk(docs)
    ensures Parallel(s) && forall p :: p in docs ==> |p.vecs| == |p.chunks|
    ensures |Batch(s, docs)| > 0 ==> (Faithful(unit, Added(unit, s, docs)) <==> AddKeeps(unit, s, docs))
    ensures Sound(unit, Added(unit, s, docs)) <==> AddGuard(unit, s, docs)
  {
    SoundParts(unit, s);
    AddedOk(unit, s, docs);
    DocsParallel(docs);
    NoBatch(unit, s, docs);
    if |Batch(s, docs)| > 0 {
      var o := BatchApplied(unit, s, docs);
      EffectiveForm(unit, s, docs, o);
      AddedIs(unit, s, docs);
      AddedEnd(unit, s, docs, o, AppliedAll(unit, o, Batch(s, docs)), AnyApplies(unit, o, Batch(s, docs)));
      SoundFrom(unit, Added(unit, s, docs));
      AddGuardIs(unit, s, docs);
    }
    hide *;
  }

  lemma DocsParallel(docs: seq<Prepared>)
    requires AllOk(docs)
    ensures forall p :: p in docs ==> |p.vecs| == |p.chunks|
  {
  }

  lemma NoBatch(unit: Vec -> Vec, s: State, docs: seq<Prepared>)
    requires Parallel(s) && forall p :: p in docs ==> |p.vecs| == |p.chunks|
    ensures |Batch(s, docs)| == 0 ==> Added(unit, s, docs) == s && AddGuard(unit, s, docs)
  {
    hide Offered, WithChunks, Ensured, AppliedAll;
  }

  lemma SoundFrom(unit: Vec -> Vec, f: State)
    requires Valid(unit, f)
    ensures Sound(unit, f) <==> Faithful(unit, f) && FreshLinks(f) && SavedFresh(f)
  {
    hide Valid, Faithful, FreshLinks, SavedFresh;
  }

  lemma AddGuardIs(unit: Vec -> Vec, s: State, docs: seq<Prepared>)
    requires Parallel(s) && (forall p :: p in docs ==> |p.vecs| == |p.chunks|) && |Batch(s, docs)| > 0
    ensures AddGuard(unit, s, docs) <==> AddKeeps(unit, s, docs) && (Replaces(s.docSet, Effective(s, docs)) || LinksFit(s))
  {
    hide AddKeeps, LinksFit, Effective, Batch;
  }

  lemma EffectiveForm(unit: Vec -> Vec, s: State, docs: seq<Prepared>, o: State)
    requires Normalizes(unit) && AllOk(docs) && |Batch(s, docs)| > 0 && IsReady(unit, s, BatchDim(s, Batch(s, docs)), o)
    ensures Parallel(o) && forall p :: p in Batch(s, docs) ==> |p.vecs| == |p.chunks|
    ensures BatchAfter(unit, o, Effective(s, docs), AppliedAll(unit, o, Batch(s, docs)))
    ensures AnyApplies(unit, o, Batch(s, docs)) <==> Effective(s, docs) != []
    ensures Valid(unit, AppliedAll(unit, o, Batch(s, docs)))
  {
    FirstOfBatch(s, docs);
    ReadyParts(unit, s, BatchDim(s, Batch(s, docs)), o);
    AppliedAllAfter(unit, o, Batch(s, docs));
    AppliedAllOk(unit, o, Batch(s, docs));
    hide IsReady, BatchAfter, AppliedAll, AnyApplies, Fitting, Batch, Valid, AllOk, NewBatch, Normalizes, SameRows, Same;
  }

  lemma AddedEnd(unit: Vec -> Vec, s: State, docs: seq<Prepared>, o: State, t: State, any: bool)
    requires Normalizes(unit) && Parallel(s) && AllOk(docs) && (forall p :: p in docs ==> |p.vecs| == |p.chunks|)
    requires IsReady(unit, s, BatchDim(s, Batch(s, docs)), o) && BatchAfter(unit, o, Effective(s, docs), t)
    requires Valid(unit, t) && any == (Effective(s, docs) != [])
    ensures var f := Reindexed(unit, if any then Shared(t) else t);
            && (Faithful(unit, f) <==> AddKeeps(unit, s, docs))
            && (FreshLinks(f) <==> Replaces(s.docSet, Effective(s, docs)) || (s.needsRebuild && !s.deferIndex) || LinksFit(s))
            && SavedFresh(f)
  {
    hide *;
    ReadyParts(unit, s, BatchDim(s, Batch(s, docs)), o);
    AfterParts(unit, o, Effective(s, docs), t);
    EndIs(unit, s, docs, o, t);
    ClosedExact(unit, t, any);
    AddKeepsIs(unit, s, docs);
    LinksEven(unit, o);
    GrownLinks(unit, o.hnsw.value, AllChunks(Indexed(o, Effective(s, docs))), AllVecs(Indexed(o, Effective(s, docs))), t.hnsw.value);
  }

  lemma LinksEven(unit: Vec -> Vec, o: State)
    requires Valid(unit, o) && o.hnsw.Some?
    ensures |o.hnsw.value.built| == |o.hnsw.value.ids|
  {
  }

  lemma AddKeepsIs(unit: Vec -> Vec, s: State, docs: seq<Prepared>)
    requires Parallel(s) && forall p :: p in docs ==> |p.vecs| == |p.chunks|
    ensures AddKeeps(unit, s, docs) <==>
            if Effective(s, docs) != [] && |EndIndex(s, docs)| == |EndRows(s, docs)|
            then Same(unit, EndIndex(s, docs), Givens(EndRows(s, docs)))
            else Same(unit, Embeds(EndRows(s, docs)), Givens(EndRows(s, docs)))
  {
    hide Effective, EndIndex, EndRows, Same;
  }

  // ----- the two ways it fails, one by one -----

  lemma {:induction false} RestWithin(rows: seq<Row>, docs: set<string>)
    ensures forall r :: r in Rest(rows, docs) ==> r in rows
    decreases |rows|
  {
    if |rows| > 0 {
      RestWithin(rows[..|rows| - 1], docs);
    }
  }

  lemma {:induction false} NewRowsAre(docs: seq<Prepared>)
    requires forall p :: p in docs ==> |p.vecs| == |p.chunks|
    ensures Givens(NewRows(docs)) == AllVecs(docs) && |NewRows(docs)| == |AllVecs(docs)| == |AllChunks(docs)|
    ensures forall r :: r in NewRows(docs) ==> r.embed == r.given
  {
    if |docs| > 0 {
      var front, p := docs[..|docs| - 1], docs[|docs| - 1];
      assert p in docs;
      NewRowsAre(front);
      var more := RowsOf(p.chunks, p.vecs, p.vecs);
      assert Givens(more) == p.vecs;
      hide RowsOf, Givens;
      GivensConcat(NewRows(front), more);
    }
  }

  /** Where the index settles on the given vectors, the rows are as they should be. */
  lemma RowsKept(unit: Vec -> Vec, s: State, docs: seq<Prepared>)
    requires Parallel(s) && (forall p :: p in docs ==> |p.vecs| == |p.chunks|) && Same(unit, BaseVecs(s), s.truth)
    ensures Same(unit, Embeds(EndRows(s, docs)), Givens(EndRows(s, docs)))
  {
    var base := RowsOf(s.chunks, BaseVecs(s), s.truth);
    EffectiveSizes(s, docs);
    NewRowsAre(Effective(s, docs));
    RestWithin(base, IdsOf(Effective(s, docs)));
    hide BaseVecs, Effective, Rest, NewRows, IdsOf;
    forall r | r in EndRows(s, docs) ensures unit(r.embed) == unit(r.given) {
      if r in base {
        var i :| 0 <= i < |base| && base[i] == r;
      }
    }
  }

  /** Unless a restore puts other vectors in place, only sharing can go wrong, and it does so
      exactly when the counts agree and the vectors do not. */
  lemma OnlySharingHarms(unit: Vec -> Vec, s: State, docs: seq<Prepared>)
    requires Parallel(s) && (forall p :: p in docs ==> |p.vecs| == |p.chunks|) && Same(unit, BaseVecs(s), s.truth)
    ensures AddKeeps(unit, s, docs) <==>
            !CountsAgree(s, docs) || Same(unit, EndIndex(s, docs), Givens(EndRows(s, docs)))
  {
    RowsKept(unit, s, docs);
    hide Same, EndRows, EndIndex, BaseVecs;
  }

  /** How many rows belong to these documents. */
  function CountOf(rows: seq<Row>, docs: set<string>): nat {
    if |rows| == 0 then 0
    else CountOf(rows[..|rows| - 1], docs) + if rows[|rows| - 1].chunk.docId in docs then 1 else 0
  }

  lemma {:induction false} CountOfRest(rows: seq<Row>, docs: set<string>)
    ensures |Rest(rows, docs)| + CountOf(rows, docs) == |rows|
    decreases |rows|
  {
    if |rows| > 0 {
      CountOfRest(rows[..|rows| - 1], docs);
    }
  }

  lemma {:induction false} AllVecsSplit(docs: seq<Prepared>, k: nat)
    requires k <= |docs|
    ensures |AllVecs(docs)| == |AllVecs(docs[..k])| + |AllVecs(docs[k..])|
  {
    if k < |docs| {
      var n := |docs| - 1;
      AllVecsSplit(docs[..n], k);
      assert docs[..n][..k] == docs[..k];
      assert docs[k..][..|docs[k..]| - 1] == docs[..n][k..];
    } else {
      assert docs[..k] == docs && docs[k..] == [];
    }
  }

  /** An update that a caller can recognize: some document in effect is stored already, and
      the chunks of those replaced are as many as the chunks that come in from the first
      replacement on. */
  predicate StaleCounts(s: State, docs: seq<Prepared>)
    requires Parallel(s)
  {
    Replaces(s.docSet, Effective(s, docs)) &&
    CountOf(Rows(s), IdsOf(Effective(s, docs))) == |AllVecs(FromReplacing(s.docSet, Effective(s, docs)))|
  }

  /** On a store whose index is current, AddDocuments harms an embedding exactly when those
      counts are equal and some vector of the old index is not the one now given. */
  lemma CurrentAddExact(unit: Vec -> Vec, s: State, docs: seq<Prepared>)
    requires Normalizes(unit) && Sound(unit, s) && AllOk(docs)
    requires !s.deferIndex && !s.needsRebuild && s.hnsw.Some?
    ensures Parallel(s) && forall p :: p in docs ==> |p.vecs| == |p.chunks|
    ensures AddKeeps(unit, s, docs) <==>
            !StaleCounts(s, docs) || Same(unit, EndIndex(s, docs), Givens(EndRows(s, docs)))
  {
    hide *;
    SoundParts(unit, s);
    DocsParallel(docs);
    CurrentBase(unit, s);
    OnlySharingHarms(unit, s, docs);
    if Replaces(s.docSet, Effective(s, docs)) {
      CountsAre(unit, s, docs);
    } else {
      NoneReplaced(unit, s, docs);
      StaleReplaces(s, docs);
    }
  }

  lemma StaleReplaces(s: State, docs: seq<Prepared>)
    requires Parallel(s) && !Replaces(s.docSet, Effective(s, docs))
    ensures !StaleCounts(s, docs)
  {
  }

  lemma CurrentBase(unit: Vec -> Vec, s: State)
    requires Sound(unit, s) && !s.deferIndex && !s.needsRebuild && s.hnsw.Some?
    ensures Parallel(s) && BaseVecs(s) == s.embeds && Same(unit, BaseVecs(s), s.truth)
    ensures IndexVecs(s) == Units(unit, s.embeds) && |IndexVecs(s)| == |s.chunks|
    ensures s.docSet == DocIds(s.chunks)
  {
    hide DocIds, InOrder, BooksOk, Ids;
  }

  lemma CountsAre(unit: Vec -> Vec, s: State, docs: seq<Prepared>)
    requires Sound(unit, s) && !s.deferIndex && !s.needsRebuild && s.hnsw.Some? && AllOk(docs) && Parallel(s)
    requires (forall p :: p in docs ==> |p.vecs| == |p.chunks|) && Replaces(s.docSet, Effective(s, docs))
    ensures CountsAgree(s, docs) <==> StaleCounts(s, docs)
  {
    var fit := Effective(s, docs);
    CurrentBase(unit, s);
    EffectiveSizes(s, docs);
    NewRowsAre(fit);
    BeforeReplacingIs(s.docSet, fit);
    CountOfRest(Rows(s), IdsOf(fit));
    AllVecsSplit(fit, |BeforeReplacing(s.docSet, fit)|);
    hide Sound, Rest, NewRows, AllVecs, AllChunks, CountOf, BeforeReplacing, Effective, IdsOf, Units, DocIds, BaseVecs, AllOk;
    assert RowsOf(s.chunks, BaseVecs(s), s.truth) == Rows(s);
    assert fit != [];
  }

  /** When nothing is replaced the index grows with the rows, and sharing is harmless. */
  lemma NoneReplaced(unit: Vec -> Vec, s: State, docs: seq<Prepared>)
    requires Normalizes(unit) && Sound(unit, s) && !s.deferIndex && !s.needsRebuild && s.hnsw.Some? && AllOk(docs) && Parallel(s)
    requires (forall p :: p in docs ==> |p.vecs| == |p.chunks|) && !Replaces(s.docSet, Effective(s, docs))
    ensures Same(unit, EndIndex(s, docs), Givens(EndRows(s, docs)))
  {
    var fit := Effective(s, docs);
    CurrentBase(unit, s);
    EffectiveSizes(s, docs);
    NewRowsAre(fit);
    BeforeReplacingIs(s.docSet, fit);
    NoneAmong(s, fit);
    RestWhole(Rows(s), IdsOf(fit));
    SeenAll(s, docs);
    SameUnits(unit, s.embeds, s.truth);
    SameSelf(unit, AllVecs(fit));
    EndRowsIs(s, docs);
    hide *;
    GivensConcat(Rows(s), NewRows(fit));
    BaseRows(s);
    RowsVecs(s);
    ParallelIs(s);
    SameSizes(unit, Units(unit, s.embeds), s.truth);
    SameConcat(unit, Units(unit, s.embeds), AllVecs(fit), s.truth, AllVecs(fit));
  }

  lemma ParallelIs(s: State)
    requires Parallel(s)
    ensures |s.embeds| == |s.truth| == |s.chunks|
  {
  }

  lemma BaseRows(s: State)
    requires Parallel(s)
    ensures RowsOf(s.chunks, s.embeds, s.truth) == Rows(s) && |s.embeds| == |s.truth| == |s.chunks|
  {
  }

  lemma GivensConcat(a: seq<Row>, b: seq<Row>)
    ensures Givens(a + b) == Givens(a) + Givens(b)
  {
  }

  lemma SeenAll(s: State, docs: seq<Prepared>)
    requires !s.needsRebuild && !Replaces(s.docSet, Effective(s, docs))
    ensures Seen(s, docs) == Effective(s, docs)
  {
    BeforeReplacingIs(s.docSet, Effective(s, docs));
    hide Effective, BeforeReplacing, Replaces;
  }

  lemma NoneAmong(s: State, fit: seq<Prepared>)
    requires Parallel(s) && s.docSet == DocIds(s.chunks) && !Replaces(s.docSet, fit)
    ensures forall r :: r in Rows(s) ==> r.chunk.docId !in IdsOf(fit)
  {
    forall r | r in Rows(s) ensures r.chunk.docId !in IdsOf(fit) {
      assert r.chunk in s.chunks && r.chunk.docId in s.docSet;
    }
  }

  // ---------- Merge ----------

  /** If the index holds as many vectors as there are embeddings, they are the given ones. */
  ghost predicate IndexHolds(unit: Vec -> Vec, s: State) {
    s.hnsw.Some? && |s.hnsw.value.vecs| == |s.embeds| ==> Same(unit, s.hnsw.value.vecs, s.truth)
  }

  /** The flags and arrays after chunks were embedded into a store. */
  ghost predicate EmbeddedInto(unit: Vec -> Vec, s: State, chunks: seq<Passage>, vecs: seq<Vec>, t: State) {
    && Parallel(s) && Parallel(t) && t.chunks == s.chunks + chunks && t.truth == s.truth + vecs
    && t.deferIndex == s.deferIndex && t.needsRebuild == s.needsRebuild && t.saved == s.saved && t.flat == s.flat
    && t.hnsw.Some?
    && (Same(unit, t.embeds, t.truth) <==> IndexHolds(unit, s))
    && (!s.deferIndex && !s.needsRebuild ==> t.hnsw.value.built == t.hnsw.value.ids)
  }

  lemma EmbeddedExact(unit: Vec -> Vec, s: State, chunks: seq<Passage>, vecs: seq<Vec>)
    requires Normalizes(unit) && Sound(unit, s) && |vecs| == |chunks| > 0 && Embedded(unit, s, chunks, vecs).Some?
    ensures EmbeddedInto(unit, s, chunks, vecs, Embedded(unit, s, chunks, vecs).value)
  {
    var o := if s.hnsw.None? then Fresh(s.(dim := |vecs[0]|)) else s;
    SoundParts(unit, s);
    EmbedStart(unit, s, |vecs[0]|);
    AppendedInto(unit, o, chunks, vecs);
    hide Sound, Valid, Faithful, Same, Normalizes, Appended, FreshLinks, SavedFresh;
  }

  lemma EmbedStart(unit: Vec -> Vec, s: State, d: nat)
    requires Sound(unit, s)
    ensures var o := if s.hnsw.None? then Fresh(s.(dim := d)) else s;
            && Parallel(o) && o.hnsw.Some? && |o.hnsw.value.ids| == |o.hnsw.value.vecs|
            && o.chunks == s.chunks && o.truth == s.truth && o.deferIndex == s.deferIndex && o.needsRebuild == s.needsRebuild
            && o.saved == s.saved && o.flat == s.flat && Same(unit, o.embeds, o.truth)
            && (IndexHolds(unit, o) <==> IndexHolds(unit, s))
            && (!s.deferIndex && !s.needsRebuild ==> o.hnsw.value.built == o.hnsw.value.ids)
  {
    hide DocIds, InOrder, BooksOk, Ids, Entries, Units;
  }

  lemma AppendedInto(unit: Vec -> Vec, o: State, chunks: seq<Passage>, vecs: seq<Vec>)
    requires Normalizes(unit) && Parallel(o) && o.hnsw.Some? && |o.hnsw.value.ids| == |o.hnsw.value.vecs|
    requires |vecs| == |chunks| && Same(unit, o.embeds, o.truth)
    requires !o.deferIndex && !o.needsRebuild ==> o.hnsw.value.built == o.hnsw.value.ids
    ensures EmbeddedInto(unit, o, chunks, vecs, Shared(Appended(unit, o, chunks, vecs)))
  {
    var h := o.hnsw.value;
    SameUnits(unit, vecs, vecs);
    SameSelf(unit, vecs);
    if |h.vecs| == |o.embeds| {
      SameConcat(unit, h.vecs, Units(unit, vecs), o.truth, vecs);
    } else {
      SameConcat(unit, o.embeds, vecs, o.truth, vecs);
    }
    hide Same, Ids, Units, Entries, Normalizes;
  }

  /** The links a deferred index would adopt once the chunks of the merge have arrived. */
  predicate MergeRestores(dst: State, src: State)
    requires |src.embeds| == |src.chunks|
  {
    var n := |dst.chunks| + |TakenChunks(dst, src)|;
    dst.deferIndex && dst.saved.Some? && n != 0 && |dst.saved.value| == n
  }

  /** The vectors the merge ends with are the given ones. */
  ghost predicate MergeKeeps(unit: Vec -> Vec, dst: State, src: State)
    requires |src.embeds| == |src.chunks|
  {
    if MergeRestores(dst, src) && |dst.flat| == |dst.saved.value| then Same(unit, dst.flat, dst.truth + TakenVecs(dst, src))
    else |TakenChunks(dst, src)| > 0 ==> IndexHolds(unit, dst)
  }

  /** What a caller can look at before a merge. */
  ghost predicate MergeGuard(unit: Vec -> Vec, dst: State, src: State)
    requires |src.embeds| == |src.chunks|
  {
    |src.chunks| > 0 ==>
      && MergeKeeps(unit, dst, src)
      && (MergeRestores(dst, src) ==> dst.saved.value == Ids(dst.chunks + TakenChunks(dst, src)))
  }

  /** The arrays and flags of dst with the chunks taken. */
  ghost predicate TakenInto(unit: Vec -> Vec, dst: State, src: State, t: State)
    requires |src.embeds| == |src.chunks|
  {
    && Parallel(dst) && Parallel(t)
    && t.chunks == dst.chunks + TakenChunks(dst, src) && t.truth == dst.truth + TakenVecs(dst, src)
    && t.deferIndex == dst.deferIndex && t.needsRebuild == dst.needsRebuild && t.saved == dst.saved && t.flat == dst.flat
    && (Same(unit, t.embeds, t.truth) <==> (|TakenChunks(dst, src)| > 0 ==> IndexHolds(unit, dst)))
    && (!t.deferIndex && !t.needsRebuild && t.hnsw.Some? ==> t.hnsw.value.built == t.hnsw.value.ids)
  }

  lemma TakenIs(unit: Vec -> Vec, dst: State, src: State)
    requires Normalizes(unit) && Sound(unit, dst) && |src.embeds| == |src.chunks|
    requires |TakenChunks(dst, src)| > 0 ==> Embedded(unit, dst, TakenChunks(dst, src), TakenVecs(dst, src)).Some?
    ensures TakenInto(unit, dst, src, Taken(unit, dst, src))
  {
    SoundParts(unit, dst);
    FaithfulIs(unit, dst);
    var chunks, vecs := TakenChunks(dst, src), TakenVecs(dst, src);
    if |chunks| > 0 {
      EmbeddedExact(unit, dst, chunks, vecs);
    } else {
      assert dst.chunks + [] == dst.chunks && dst.truth + [] == dst.truth;
    }
    hide Sound, Embedded, TakenChunks, TakenVecs, Normalizes, Same, IndexHolds, Valid, Faithful, SavedFresh;
  }

  /** The second half of a merge: the index brought up over whatever the arrays hold. */
  lemma MergeEnd(unit: Vec -> Vec, b: State)
    requires Normalizes(unit) && Valid(unit, b) && Parallel(b)
    requires !b.deferIndex && !b.needsRebuild && b.hnsw.Some? ==> b.hnsw.value.built == b.hnsw.value.ids
    ensures var f := Reindexed(unit, Ensured(unit, b));
            && (Faithful(unit, f) <==> Same(unit, BaseVecs(b), b.truth))
            && (FreshLinks(f) <==> LinksFit(b))
            && SavedFresh(f)
  {
    var e := Ensured(unit, b);
    EnsuredFaithful(unit, b);
    EnsuredParallel(unit, b);
    RebuiltFaithful(unit, e);
    NoIndexNoDefer(unit, b);
    if b.deferIndex {
      EnsuredIs(unit, b);
      assert Reindexed(unit, e) == e;
    } else if b.hnsw.Some? {
      LinksAfter(unit, b);
    }
    if b.hnsw.None? {
      NoIndexEnd(unit, b);
    }
    hide Valid, Faithful, Same, Normalizes, Ensured, BaseVecs, Ids, Units, Restorable;
  }

  lemma NoIndexEnd(unit: Vec -> Vec, b: State)
    requires Valid(unit, b) && b.hnsw.None?
    ensures var f := Reindexed(unit, Ensured(unit, b)); FreshLinks(f) && SavedFresh(f) && LinksFit(b)
  {
    hide BooksOk, InOrder, DocIds, Ids, Entries, Units;
  }

  /** Booking touches neither arrays nor index. */
  lemma BookedArrays(t: State, src: State, take: set<string>)
    ensures var b := Booked(t, src, take);
            && b.chunks == t.chunks && b.embeds == t.embeds && b.truth == t.truth && b.hnsw == t.hnsw
            && b.deferIndex == t.deferIndex && b.needsRebuild == t.needsRebuild && b.saved == t.saved && b.flat == t.flat
  {
  }

  lemma MergeConditions(unit: Vec -> Vec, dst: State, src: State, t: State, b: State)
    requires |src.embeds| == |src.chunks| && TakenInto(unit, dst, src, t)
    requires b.chunks == t.chunks && b.embeds == t.embeds && b.truth == t.truth && b.hnsw == t.hnsw
    requires b.deferIndex == t.deferIndex && b.needsRebuild == t.needsRebuild && b.saved == t.saved && b.flat == t.flat
    ensures Parallel(b) && (Same(unit, BaseVecs(b), b.truth) <==> MergeKeeps(unit, dst, src))
    ensures LinksFit(b) <==> (MergeRestores(dst, src) ==> dst.saved.value == Ids(dst.chunks + TakenChunks(dst, src)))
    ensures !b.deferIndex && !b.needsRebuild && b.hnsw.Some? ==> b.hnsw.value.built == b.hnsw.value.ids
  {
    hide Same, IndexHolds, TakenChunks, TakenVecs, Ids;
  }

  lemma BookedValid(unit: Vec -> Vec, dst: State, src: State)
    requires Normalizes(unit) && Valid(unit, dst) && Valid(unit, src) && |src.embeds| == |src.chunks|
    requires |TakenChunks(dst, src)| > 0 ==> Embedded(unit, dst, TakenChunks(dst, src), TakenVecs(dst, src)).Some?
    ensures Valid(unit, Booked(Taken(unit, dst, src), src, Take(dst, src)))
  {
    hide *;
    ValidParts(unit, dst);
    ValidParts(unit, src);
    TakenValid(unit, dst, src);
    var t := Taken(unit, dst, src);
    BookedOk(dst, src, t);
    BookedIndex(unit, t, src, Take(dst, src));
    ValidFrom(unit, Booked(t, src, Take(dst, src)));
  }

  /** A merge keeps every embedding and every link what it should be exactly under its guard. */
  lemma MergedExact(unit: Vec -> Vec, dst: State, src: State)
    requires Normalizes(unit) && Sound(unit, dst) && Valid(unit, src) && |src.embeds| == |src.chunks|
    requires MergedFrom(unit, dst, src).Merged?
    ensures |src.chunks| > 0 ==> (Faithful(unit, MergedFrom(unit, dst, src).state) <==> MergeKeeps(unit, dst, src))
    ensures Sound(unit, MergedFrom(unit, dst, src).state) <==> MergeGuard(unit, dst, src)
  {
    hide *;
    SoundParts(unit, dst);
    MergedOk(unit, dst, src);
    MergedIs(unit, dst, src);
    MergeGuardIs(unit, dst, src);
    if |src.chunks| > 0 {
      var t, take := Taken(unit, dst, src), Take(dst, src);
      TakenIs(unit, dst, src);
      BookedValid(unit, dst, src);
      BookedArrays(t, src, take);
      MergeConditions(unit, dst, src, t, Booked(t, src, take));
      MergeEnd(unit, Booked(t, src, take));
      FromTakenIs(unit, dst, src, t);
      SoundFrom(unit, MergedFrom(unit, dst, src).state);
    }
  }

  lemma FromTakenIs(unit: Vec -> Vec, dst: State, src: State, t: State)
    ensures FromTaken(unit, dst, src, t) == Reindexed(unit, Ensured(unit, Booked(t, src, Take(dst, src))))
  {
    hide Reindexed, Ensured, Booked, Take;
  }

  lemma MergeGuardIs(unit: Vec -> Vec, dst: State, src: State)
    requires |src.embeds| == |src.chunks|
    ensures MergeGuard(unit, dst, src) <==>
            (|src.chunks| > 0 ==>
              && MergeKeeps(unit, dst, src)
              && (MergeRestores(dst, src) ==> dst.saved.value == Ids(dst.chunks + TakenChunks(dst, src))))
  {
    hide MergeKeeps, MergeRestores, Ids, TakenChunks;
  }

  // ---------- runs ----------

  /** What a caller can look at before an operation. */
  ghost predicate Guard(unit: Vec -> Vec, s: State, op: Op)
    requires Valid(unit, s) && OpOk(unit, op)
  {
    ValidParts(unit, s);
    match op
    case AddDocuments(docs) => AddGuard(unit, s, docs)
    case Merge(src) => ValidParts(unit, src); MergedFrom(unit, s, src).Merged? ==> MergeGuard(unit, s, src)
    case Search => SearchGuard(unit, s)
    case Reindex => SearchGuard(unit, s)
    case _ => true
  }

  /** The store after an operation, remembering what every chunk was given. */
  ghost function StepKeepingTruth(unit: Vec -> Vec, s: State, op: Op): State
    requires Valid(unit, s) && OpOk(unit, op)
  {
    if op.SaveAndLoad? && Saved(s).Some? then Step(unit, s, op).(truth := s.truth) else Step(unit, s, op)
  }

  /** Every operation keeps every embedding and every link what it should be exactly when
      its guard holds. */
  lemma StepExact(unit: Vec -> Vec, s: State, op: Op)
    requires Normalizes(unit) && Sound(unit, s) && OpOk(unit, op)
    ensures Sound(unit, StepKeepingTruth(unit, s, op)) <==> Guard(unit, s, op)
  {
    SoundParts(unit, s);
    match op {
      case AddDocuments(docs) => AddedExact(unit, s, docs);
      case DeleteDocument(id) => DeletedSound(unit, s, id);
      case ApplyPrepared(p) => AppliedSound(unit, s, p);
      case Merge(src) =>
        ValidParts(unit, src);
        if MergedFrom(unit, s, src).Merged? {
          MergedExact(unit, s, src);
        }
      case Search => SearchExact(unit, s);
      case Reindex => ReindexExact(unit, s);
      case SaveAndLoad =>
        if Saved(s).Some? {
          ReopenedSound(unit, s);
        }
    }
    hide *;
  }

  /** Each operation of the run is within its guard when its turn comes. */
  ghost predicate GuardedRun(unit: Vec -> Vec, s: State, ops: seq<Op>)
    requires Normalizes(unit) && Valid(unit, s) && OpsOk(unit, ops)
    decreases |ops|
  {
    |ops| > 0 ==>
      Guard(unit, s, ops[0]) &&
      (TruthKeepsValid(unit, s, ops[0]);
       GuardedRun(unit, StepKeepingTruth(unit, s, ops[0]), ops[1..]))
  }

  lemma TruthKeepsValid(unit: Vec -> Vec, s: State, op: Op)
    requires Normalizes(unit) && Valid(unit, s) && OpOk(unit, op)
    ensures Valid(unit, StepKeepingTruth(unit, s, op))
  {
    StepOk(unit, s, op);
    if op.SaveAndLoad? && Saved(s).Some? {
      ReopenedOk(unit, s);
      ValidParts(unit, s);
      TruthIsFree(unit, Loaded(Saved(s).value), s.truth);
      LoadedSizes(unit, s);
    }
    hide Valid, Loaded, Saved, Normalizes;
  }

  lemma LoadedSizes(unit: Vec -> Vec, s: State)
    requires Valid(unit, s) && Saved(s).Some? && Injective(Saved(s).value.hashes)
    ensures |Loaded(Saved(s).value).truth| == |s.truth|
  {
    hide BooksOk, InOrder, Agrees, DocIds;
  }

  /** Every state of the run holds exactly the given embeddings, linked over its chunks. */
  ghost predicate SoundRun(unit: Vec -> Vec, s: State, ops: seq<Op>)
    requires Normalizes(unit) && Valid(unit, s) && OpsOk(unit, ops)
    decreases |ops|
  {
    Sound(unit, s) &&
    (|ops| > 0 ==>
       (TruthKeepsValid(unit, s, ops[0]);
        SoundRun(unit, StepKeepingTruth(unit, s, ops[0]), ops[1..])))
  }

  /** A run keeps every embedding and every link at every step exactly when each of its
      operations is within its guard when its turn comes. */
  lemma {:induction false} RunExact(unit: Vec -> Vec, s: State, ops: seq<Op>)
    requires Normalizes(unit) && Sound(unit, s) && Valid(unit, s) && OpsOk(unit, ops)
    ensures GuardedRun(unit, s, ops) <==> SoundRun(unit, s, ops)
    decreases |ops|
  {
    hide Sound, StepKeepingTruth, Guard, OpOk, Normalizes, Valid;
    if |ops| > 0 {
      StepExact(unit, s, ops[0]);
      TruthKeepsValid(unit, s, ops[0]);
      var t := StepKeepingTruth(unit, s, ops[0]);
      if Sound(unit, t) {
        RunExact(unit, t, ops[1..]);
      } else {
        UnsoundEnds(unit, t, ops[1..]);
      }
    }
  }

  lemma UnsoundEnds(unit: Vec -> Vec, t: State, ops: seq<Op>)
    requires Normalizes(unit) && Valid(unit, t) && OpsOk(unit, ops) && !Sound(unit, t)
    ensures !SoundRun(unit, t, ops)
  {
    hide Sound, StepKeepingTruth;
  }
}
