/** Whole runs of the store: building, saving and reopening, merging twice, and what
    holds after any sequence of operations. */
module StoreRuns {
  import opened Vectors
  import opened StoreStates
  import opened StoreLaws

  // ---------- Build ----------

  ghost predicate DistinctIds(docs: seq<Prepared>) {
    forall i, j :: 0 <= i < j < |docs| ==> docs[i].id != docs[j].id
  }

  ghost predicate DistinctTexts(docs: seq<Prepared>) {
    forall i, j :: 0 <= i < |docs| && 0 <= j < |docs| && docs[i].hash == docs[j].hash ==> i == j
  }

  ghost predicate NoneEmpty(docs: seq<Prepared>) { forall i :: 0 <= i < |docs| ==> |docs[i].chunks| > 0 }

  function IdsOf(docs: seq<Prepared>): set<string> { set p | p in docs :: p.id }

  lemma IdsOfSnoc(docs: seq<Prepared>)
    requires |docs| > 0
    ensures IdsOf(docs) == IdsOf(docs[..|docs| - 1]) + {docs[|docs| - 1].id}
    ensures DistinctIds(docs) ==> DistinctIds(docs[..|docs| - 1]) && docs[|docs| - 1].id !in IdsOf(docs[..|docs| - 1])
  {
    var n := |docs| - 1;
    assert docs == docs[..n] + [docs[n]];
  }

  /** The chunks of a batch, document by document. */
  lemma {:induction false} AllChunksOk(docs: seq<Prepared>, d: nat)
    requires AllOk(docs) && DistinctIds(docs)
    requires forall p :: p in docs ==> forall i :: 0 <= i < |p.vecs| ==> |p.vecs[i]| == d
    ensures |AllVecs(docs)| == |AllChunks(docs)| && InOrder(AllChunks(docs))
    ensures DocIds(AllChunks(docs)) <= IdsOf(docs)
    ensures DocIds(AllChunks(docs)) == IdsOf(docs) <==> NoneEmpty(docs)
    ensures forall i :: 0 <= i < |AllVecs(docs)| ==> |AllVecs(docs)[i]| == d
  {
    if |docs| == 0 {
      assert DocIds([]) == {} && IdsOf([]) == {};
    } else {
      var n, p := |docs| - 1, docs[|docs| - 1];
      AllOkParts(docs);
      IdsOfSnoc(docs);
      AllChunksOk(docs[..n], d);
      DocIdsConcat(AllChunks(docs[..n]), p.chunks);
      DocIdsOfPrepared(p);
      hide AllOk, DistinctIds, PreparedOk, IdsOf;
      InOrderOfPrepared(p);
      InOrderConcat(AllChunks(docs[..n]), p.chunks);
      hide InOrder, DocIds;
      assert forall i :: 0 <= i < n ==> docs[..n][i] == docs[i];
      assert NoneEmpty(docs) <==> NoneEmpty(docs[..n]) && |p.chunks| > 0;
    }
  }

  lemma DocIdsOfPrepared(p: Prepared)
    requires PreparedOk(p)
    ensures DocIds(p.chunks) == if |p.chunks| > 0 then {p.id} else {}
  {
    if |p.chunks| > 0 {
      assert p.chunks[0] in p.chunks;
    }
  }

  lemma InOrderOfPrepared(p: Prepared)
    requires PreparedOk(p)
    ensures InOrder(p.chunks)
  {
  }

  /** The hash of every document, and of nothing else. */
  ghost predicate IdBook(docs: seq<Prepared>, idHash: map<string, Hash>) {
    && (forall id :: id in idHash <==> exists p :: p in docs && p.id == id)
    && (forall p :: p in docs ==> p.id in idHash && idHash[p.id] == p.hash)
  }

  /** One version of every document. */
  ghost predicate VersionBook(docs: seq<Prepared>, versions: map<string, seq<Hash>>) {
    && (forall id :: id in versions <==> exists p :: p in docs && p.id == id)
    && (forall p :: p in docs ==> p.id in versions && versions[p.id] == [p.hash])
  }

  /** Every content, owned by a document with that content. */
  ghost predicate HashBook(docs: seq<Prepared>, hashes: map<Hash, string>) {
    && (forall p :: p in docs ==> p.hash in hashes)
    && (forall h :: h in hashes ==> exists p :: p in docs && p.hash == h && p.id == hashes[h])
  }

  lemma IdBookNext(docs: seq<Prepared>, d: Prepared, idHash: map<string, Hash>)
    requires IdBook(docs, idHash) && d.id !in IdsOf(docs)
    ensures IdBook(docs + [d], idHash[d.id := d.hash])
  {
    var all, m := docs + [d], idHash[d.id := d.hash];
    forall id ensures id in m <==> exists p :: p in all && p.id == id {
      if id in idHash {
        var p :| p in docs && p.id == id;
        assert p in all;
      }
      assert d in all;
    }
    forall p | p in all ensures p.id in m && m[p.id] == p.hash {
      assert p in docs || p == d;
      assert p in docs ==> p.id in IdsOf(docs);
    }
  }

  lemma VersionBookNext(docs: seq<Prepared>, d: Prepared, versions: map<string, seq<Hash>>)
    requires VersionBook(docs, versions) && d.id !in IdsOf(docs)
    ensures d.id !in versions && VersionBook(docs + [d], versions[d.id := [d.hash]])
  {
    var all, m := docs + [d], versions[d.id := [d.hash]];
    assert d.id in versions ==> d.id in IdsOf(docs);
    forall id ensures id in m <==> exists p :: p in all && p.id == id {
      if id in versions {
        var p :| p in docs && p.id == id;
        assert p in all;
      }
      assert d in all;
    }
    forall p | p in all ensures p.id in m && m[p.id] == [p.hash] {
      assert p in docs || p == d;
      assert p in docs ==> p.id in IdsOf(docs);
    }
  }

  lemma HashBookNext(docs: seq<Prepared>, d: Prepared, hashes: map<Hash, string>)
    requires HashBook(docs, hashes)
    ensures HashBook(docs + [d], hashes[d.hash := d.id])
  {
    var all, m := docs + [d], hashes[d.hash := d.id];
    assert d in all;
    forall h | h in m ensures exists p :: p in all && p.hash == h && p.id == m[h] {
      if h != d.hash {
        var p :| p in docs && p.hash == h && p.id == hashes[h];
        assert p in all;
      }
    }
  }

  /** r is s with the books of docs. */
  ghost predicate BooksOf(docs: seq<Prepared>, s: State, r: State) {
    && r == s.(hashes := r.hashes, idHash := r.idHash, versions := r.versions)
    && IdBook(docs, r.idHash) && VersionBook(docs, r.versions) && HashBook(docs, r.hashes)
  }

  lemma RecordedNew(t: State, d: Prepared)
    requires d.id !in t.versions
    ensures Recorded(t, d.id, d.hash)
         == t.(hashes := t.hashes[d.hash := d.id], idHash := t.idHash[d.id := d.hash], versions := t.versions[d.id := [d.hash]])
  {
    assert [] + [d.hash] == [d.hash];
  }

  lemma RecordedNext(docs: seq<Prepared>, d: Prepared, s: State, t: State)
    requires BooksOf(docs, s, t) && d.id !in IdsOf(docs)
    ensures BooksOf(docs + [d], s, Recorded(t, d.id, d.hash))
  {
    hide IdBook, VersionBook, HashBook, IdsOf, Recorded;
    IdBookNext(docs, d, t.idHash);
    VersionBookNext(docs, d, t.versions);
    HashBookNext(docs, d, t.hashes);
    RecordedNew(t, d);
  }

  /** What the recording loop of Build leaves in the books. */
  lemma {:induction false} RecordedAllIs(s: State, docs: seq<Prepared>)
    requires DistinctIds(docs) && s.idHash == map[] && s.hashes == map[] && s.versions == map[]
    ensures BooksOf(docs, s, RecordedAll(s, docs))
  {
    RecordedAllStep(s, docs);
    hide *;
    if |docs| == 0 {
      BooksNone(s);
      assert docs == [];
    } else {
      var before, d := docs[..|docs| - 1], docs[|docs| - 1];
      IdsOfSnoc(docs);
      RecordedAllIs(s, before);
      assert docs == before + [d];
      RecordedNext(before, d, s, RecordedAll(s, before));
    }
  }

  lemma RecordedAllStep(s: State, docs: seq<Prepared>)
    ensures |docs| == 0 ==> RecordedAll(s, docs) == s
    ensures |docs| > 0 ==>
              (RecordedAll(s, docs)
               == Recorded(RecordedAll(s, docs[..|docs| - 1]), docs[|docs| - 1].id, docs[|docs| - 1].hash))
  {
  }

  lemma BooksNone(s: State)
    requires s.idHash == map[] && s.hashes == map[] && s.versions == map[]
    ensures BooksOf([], s, s)
  {
  }

  /** The books after Build agree exactly when no two texts are equal and every
      document has a chunk. */
  lemma BuiltBooks(docs: seq<Prepared>, r: State)
    requires DistinctIds(docs) && IdBook(docs, r.idHash) && VersionBook(docs, r.versions) && HashBook(docs, r.hashes)
    requires r.docSet == DocIds(AllChunks(docs)) <= IdsOf(docs) && (r.docSet == IdsOf(docs) <==> NoneEmpty(docs))
    ensures BooksOk(r) <==> DistinctTexts(docs) && NoneEmpty(docs)
  {
    assert r.idHash.Keys == IdsOf(docs);
    HistoriesOfBuild(docs, r);
    hide Histories, DocIds, AllChunks, NoneEmpty, VersionBook, IdsOf;
    if Inverse(r.hashes, r.idHash) {
      InverseMeansDistinct(docs, r);
    }
    if DistinctTexts(docs) {
      DistinctMeansInverse(docs, r);
    }
  }

  lemma HistoriesOfBuild(docs: seq<Prepared>, r: State)
    requires IdBook(docs, r.idHash) && VersionBook(docs, r.versions)
    ensures Histories(r)
  {
  }

  lemma InverseMeansDistinct(docs: seq<Prepared>, r: State)
    requires DistinctIds(docs) && IdBook(docs, r.idHash) && Inverse(r.hashes, r.idHash)
    ensures DistinctTexts(docs)
  {
    forall i, j | 0 <= i < |docs| && 0 <= j < |docs| && docs[i].hash == docs[j].hash ensures i == j {
      assert docs[i] in docs && docs[j] in docs;
      assert r.hashes[r.idHash[docs[i].id]] == docs[i].id && r.hashes[r.idHash[docs[j].id]] == docs[j].id;
    }
  }

  lemma DistinctMeansInverse(docs: seq<Prepared>, r: State)
    requires DistinctTexts(docs) && IdBook(docs, r.idHash) && HashBook(docs, r.hashes)
    ensures Inverse(r.hashes, r.idHash)
  {
    forall id | id in r.idHash ensures r.idHash[id] in r.hashes && r.hashes[r.idHash[id]] == id {
      var p :| p in docs && p.id == id;
      var q :| q in docs && q.hash == p.hash && q.id == r.hashes[p.hash];
      SameText(docs, p, q);
    }
  }

  lemma SameText(docs: seq<Prepared>, p: Prepared, q: Prepared)
    requires DistinctTexts(docs) && p in docs && q in docs && p.hash == q.hash
    ensures p == q
  {
    var i :| 0 <= i < |docs| && docs[i] == p;
    var j :| 0 <= j < |docs| && docs[j] == q;
  }

  /** Build keeps the index half of the invariant, and establishes all of it exactly
      when the documents have distinct texts and none is empty. */
  lemma BuiltOk(unit: Vec -> Vec, docs: seq<Prepared>, d: nat)
    requires Normalizes(unit) && AllOk(docs) && DistinctIds(docs)
    requires forall p :: p in docs ==> forall i :: 0 <= i < |p.vecs| ==> |p.vecs[i]| == d
    requires Built(unit, docs).Some?
    ensures var s := Built(unit, docs).value;
            && IndexOk(unit, s) && Current(unit, s) && s.chunks == AllChunks(docs)
            && (Valid(unit, s) <==> DistinctTexts(docs) && NoneEmpty(docs))
  {
    hide *;
    var chunks, vecs := AllChunks(docs), AllVecs(docs);
    BuiltIs(unit, docs);
    AllChunksOk(docs, d);
    BaseOk(unit, d);
    var base := Fresh(EMPTY.(dim := d));
    NewChunksOk(base, chunks, vecs);
    AppendedOk(unit, base, chunks, vecs);
    AppendedToBase(unit, d, chunks, vecs);
    BuiltFrom(unit, docs, Appended(unit, base, chunks, vecs));
  }

  lemma BuiltIs(unit: Vec -> Vec, docs: seq<Prepared>)
    requires Built(unit, docs).Some?
    ensures |AllVecs(docs)| == |AllChunks(docs)| > 0
    ensures Built(unit, docs).value == Reindexed(unit, Shared(RecordedAll(
              Appended(unit, Fresh(EMPTY.(dim := |AllVecs(docs)[0]|)), AllChunks(docs), AllVecs(docs)), docs)))
  {
    hide AllChunks, AllVecs, Appended, RecordedAll, Shared, Reindexed;
  }

  lemma BaseOk(unit: Vec -> Vec, d: nat)
    ensures IndexOk(unit, Fresh(EMPTY.(dim := d)))
    ensures var b := Fresh(EMPTY.(dim := d)); b.hnsw.Some? && b.docSet == {} && b.dim == d
  {
    assert DocIds([]) == {};
  }

  lemma NewChunksOk(s: State, chunks: seq<Passage>, vecs: seq<Vec>)
    requires |vecs| == |chunks| && InOrder(chunks) && s.docSet == {}
    requires forall i :: 0 <= i < |vecs| ==> |vecs[i]| == s.dim
    ensures NewChunks(s, chunks, vecs)
  {
    hide InOrder, DocIds;
  }

  lemma AppendedToBase(unit: Vec -> Vec, d: nat, chunks: seq<Passage>, vecs: seq<Vec>)
    requires |vecs| == |chunks|
    ensures var s := Appended(unit, Fresh(EMPTY.(dim := d)), chunks, vecs);
            && !s.needsRebuild && !s.deferIndex && s.hnsw.Some? && s.chunks == chunks && s.docSet == DocIds(chunks)
            && s.idHash == map[] && s.hashes == map[] && s.versions == map[]
  {
    DocIdsIs(chunks);
    hide DocIds, Id;
  }

  /** From the arrays to the end of Build. */
  lemma BuiltFrom(unit: Vec -> Vec, docs: seq<Prepared>, s: State)
    requires Normalizes(unit) && DistinctIds(docs) && IndexOk(unit, s) && !s.needsRebuild && !s.deferIndex && s.hnsw.Some?
    requires s.idHash == map[] && s.hashes == map[] && s.versions == map[]
    requires s.docSet == DocIds(AllChunks(docs)) <= IdsOf(docs)
    requires DocIds(AllChunks(docs)) == IdsOf(docs) <==> NoneEmpty(docs)
    ensures var f := Reindexed(unit, Shared(RecordedAll(s, docs)));
            && IndexOk(unit, f) && Current(unit, f) && f.chunks == s.chunks
            && (Valid(unit, f) <==> DistinctTexts(docs) && NoneEmpty(docs))
  {
    RecordedAllIs(s, docs);
    var r := RecordedAll(s, docs);
    hide *;
    BooksOfParts(docs, s, r);
    FinishBuild(unit, docs, s, r);
  }

  lemma BooksOfParts(docs: seq<Prepared>, s: State, r: State)
    requires BooksOf(docs, s, r)
    ensures r == s.(hashes := r.hashes, idHash := r.idHash, versions := r.versions)
    ensures IdBook(docs, r.idHash) && VersionBook(docs, r.versions) && HashBook(docs, r.hashes)
  {
  }

  lemma InOrderNone()
    ensures InOrder([])
  {
  }

  lemma FinishBuild(unit: Vec -> Vec, docs: seq<Prepared>, s: State, r: State)
    requires Normalizes(unit) && DistinctIds(docs) && IndexOk(unit, s) && !s.needsRebuild && !s.deferIndex && s.hnsw.Some?
    requires r == s.(hashes := r.hashes, idHash := r.idHash, versions := r.versions)
    requires IdBook(docs, r.idHash) && VersionBook(docs, r.versions) && HashBook(docs, r.hashes)
    requires r.docSet == DocIds(AllChunks(docs)) <= IdsOf(docs) && (r.docSet == IdsOf(docs) <==> NoneEmpty(docs))
    ensures var f := Reindexed(unit, Shared(r));
            && IndexOk(unit, f) && Current(unit, f) && f.chunks == s.chunks
            && (Valid(unit, f) <==> DistinctTexts(docs) && NoneEmpty(docs))
  {
    hide InOrder, DocIds, Id, Normalizes, DistinctIds, DistinctTexts, NoneEmpty, IdBook, VersionBook, HashBook, AllChunks, IdsOf;
    IndexSame(unit, s, r);
    SharedIndexOk(unit, r);
    BuiltBooks(docs, r);
    var f := Shared(r);
    hide IndexOk, Histories, Inverse;
    assert Reindexed(unit, f) == f;
    CurrentOfOk(unit, f);
  }

  lemma CurrentOfOk(unit: Vec -> Vec, f: State)
    requires IndexOk(unit, f) && !f.deferIndex && !f.needsRebuild
    ensures Current(unit, f)
  {
  }

  // ---------- saving and reopening ----------

  lemma InverseIsInjective(hashes: map<Hash, string>, idHash: map<string, Hash>)
    requires Inverse(hashes, idHash)
    ensures Injective(idHash) && InverseOf(idHash) == hashes
  {
    var back := InverseOf(idHash);
    forall h ensures h in back <==> h in hashes {
      if h in hashes {
        assert idHash[hashes[h]] == h;
      }
    }
  }

  /** Saving and loading gives back the arrays and the books; the indexes are left for
      later. */
  lemma ReopenedOk(unit: Vec -> Vec, s: State)
    requires Normalizes(unit) && Valid(unit, s) && Saved(s).Some?
    ensures Injective(Saved(s).value.hashes)
    ensures var t := Loaded(Saved(s).value);
            && Valid(unit, t) && t.dim == s.dim && t.chunks == s.chunks && t.embeds == s.embeds && t.docSet == s.docSet
            && (|s.chunks| > 0 ==> t.hashes == s.hashes && t.idHash == s.idHash && t.versions == s.versions && t.deferIndex)
  {
    InverseIsInjective(s.hashes, s.idHash);
    LoadedIndexOk(unit, s);
    var t := Loaded(Saved(s).value);
    hide Histories, Inverse, Normalizes, IndexOk;
    if |s.chunks| > 0 {
      BooksSame(s, t);
    } else {
      HistoriesNone();
    }
  }

  lemma LoadedIndexOk(unit: Vec -> Vec, s: State)
    requires Valid(unit, s) && Saved(s).Some? && Injective(s.idHash)
    ensures var t := Loaded(Saved(s).value);
            IndexOk(unit, t) && t.dim == s.dim && t.chunks == s.chunks && t.embeds == s.embeds && t.docSet == s.docSet
  {
    var t := Loaded(Saved(s).value);
    DocIdsIs(s.chunks);
    hide InOrder, Id, BooksOk, Injective;
    if |s.chunks| == 0 {
      InOrderNone();
      assert DocIds([]) == {};
      assert s.chunks == [] && s.embeds == [];
    }
  }

  lemma HistoriesNone()
    ensures BooksOk(EMPTY) && forall d: nat :: BooksOk(EMPTY.(dim := d))
  {
  }

  /** Links on disk always have one node per chunk beside them. */
  lemma SavedLinksFit(unit: Vec -> Vec, s: State)
    requires Valid(unit, s) && Saved(s).Some? && Saved(s).value.links.Some?
    ensures |Saved(s).value.links.value| == |Saved(s).value.chunks|
  {
    hide InOrder, BooksOk, Agrees;
  }

  // ---------- merging twice ----------

  lemma {:induction false} KeptNone(chunks: seq<Passage>, n: nat)
    requires n <= |chunks|
    ensures Kept(chunks, {}, true, n) == []
  {
    if n > 0 {
      KeptNone(chunks, n - 1);
    }
  }

  lemma BookedIsBooked(t: State, src: State, take: set<string>)
    ensures var b := Booked(t, src, take);
            && (forall id :: id in t.idHash ==> id in b.idHash)
            && (forall id :: id in take && id in src.idHash ==> id in b.idHash)
            && (forall h :: h in t.hashes ==> h in b.hashes)
  {
  }

  lemma TakesNothing(dst: State, src: State, d: State)
    requires forall id :: id in dst.idHash ==> id in d.idHash
    requires forall id :: id in Take(dst, src) ==> id in d.idHash
    requires forall h :: h in dst.hashes ==> h in d.hashes
    ensures Take(d, src) == {}
  {
    forall id | id in src.idHash ensures id in d.idHash || src.idHash[id] in d.hashes {
      var h := src.idHash[id];
      if h in dst.hashes {
        assert h in d.hashes;
      } else if id !in dst.idHash {
        assert id in Take(dst, src);
      }
    }
  }

  lemma BookedNothing(d: State, src: State)
    ensures Booked(d, src, {}) == d
  {
    var b := Booked(d, src, {});
    assert b.hashes == d.hashes && b.idHash == d.idHash && b.versions == d.versions;
  }

  lemma FromTakenBooks(unit: Vec -> Vec, dst: State, src: State, t: State)
    requires Normalizes(unit) && IndexOk(unit, Booked(t, src, Take(dst, src)))
    ensures var d := FromTaken(unit, dst, src, t);
            && d.idHash == Booked(t, src, Take(dst, src)).idHash && d.hashes == Booked(t, src, Take(dst, src)).hashes
            && d.dim == t.dim && (t.hnsw.Some? ==> d.hnsw.Some?)
            && !d.deferIndex && !d.needsRebuild
  {
    var b := Booked(t, src, Take(dst, src));
    EnsuredOk(unit, b);
    ReindexedOk(unit, Ensured(unit, b));
    ReindexedBooks(unit, Ensured(unit, b));
    hide Ensured, Reindexed, Take, IndexOk, Normalizes;
    assert FromTaken(unit, dst, src, t) == Reindexed(unit, Ensured(unit, b));
  }

  lemma ReindexedBooks(unit: Vec -> Vec, s: State)
    ensures var r := Reindexed(unit, s);
            && r.idHash == s.idHash && r.hashes == s.hashes && r.dim == s.dim && (s.hnsw.Some? ==> r.hnsw.Some?)
            && r.deferIndex == s.deferIndex
  {
  }

  /** Every document of the source is known afterwards, by id or by content. */
  lemma MergeKnowsAll(unit: Vec -> Vec, dst: State, src: State)
    requires Normalizes(unit) && Valid(unit, dst) && Valid(unit, src) && |src.chunks| > 0
    requires MergedFrom(unit, dst, src).Merged?
    ensures var d := MergedFrom(unit, dst, src).state;
            && Take(d, src) == {} && !d.deferIndex && !d.needsRebuild
            && (d.dim == dst.dim || d.dim == src.dim)
            && forall id :: id in src.idHash ==> id in d.idHash || src.idHash[id] in d.hashes
  {
    hide *;
    ValidParts(unit, dst);
    ValidParts(unit, src);
    ParallelParts(src);
    MergedIs(unit, dst, src);
    TakenValid(unit, dst, src);
    var t, take := Taken(unit, dst, src), Take(dst, src);
    BookedIndex(unit, t, src, take);
    FromTakenBooks(unit, dst, src, t);
    BookedIsBooked(t, src, take);
    TakeParts(dst, src);
    var d := FromTaken(unit, dst, src, t);
    TakesNothing(dst, src, d);
    TakeNothingParts(d, src);
    TakenDim(unit, dst, src);
  }

  lemma ParallelParts(s: State)
    requires Parallel(s)
    ensures |s.embeds| == |s.chunks|
  {
  }

  lemma TakeParts(dst: State, src: State)
    ensures forall id :: id in Take(dst, src) ==> id in src.idHash
  {
  }

  lemma TakeNothingParts(d: State, src: State)
    requires Take(d, src) == {}
    ensures forall id :: id in src.idHash ==> id in d.idHash || src.idHash[id] in d.hashes
  {
    forall id | id in src.idHash ensures id in d.idHash || src.idHash[id] in d.hashes {
      assert id !in Take(d, src);
    }
  }

  lemma TakenDim(unit: Vec -> Vec, dst: State, src: State)
    requires Shape(src) && Shape(dst)
    ensures Taken(unit, dst, src).dim == dst.dim || Taken(unit, dst, src).dim == src.dim
  {
    ChosenDims(dst, src, Take(dst, src));
    hide Appended, Take, Chosen;
  }

  /** Merging the same store a second time changes nothing at all. */
  lemma MergeTwice(unit: Vec -> Vec, dst: State, src: State)
    requires Normalizes(unit) && Valid(unit, dst) && Valid(unit, src)
    requires MergedFrom(unit, dst, src).Merged?
    ensures var d := MergedFrom(unit, dst, src).state;
            var again := MergedFrom(unit, d, src);
            again.Merged? && again.state == d && again.documents == 0 && again.chunks == 0
  {
    hide *;
    ValidParts(unit, dst);
    ValidParts(unit, src);
    ParallelParts(src);
    MergedIs(unit, dst, src);
    var d := MergedFrom(unit, dst, src).state;
    if |src.chunks| > 0 {
      MergeKnowsAll(unit, dst, src);
      DimsAgree(unit, dst, src);
      MergeNothing(unit, d, src);
    }
  }

  lemma MergeNothing(unit: Vec -> Vec, d: State, src: State)
    requires |src.embeds| == |src.chunks| > 0 && Take(d, src) == {} && !d.deferIndex && !d.needsRebuild
    requires d.dim == 0 || src.dim == 0 || d.dim == src.dim
    ensures MergedFrom(unit, d, src).Merged? && MergedFrom(unit, d, src).state == d
    ensures MergedFrom(unit, d, src).documents == 0 && MergedFrom(unit, d, src).chunks == 0
  {
    KeptNone(src.chunks, |src.chunks|);
    BookedNothing(d, src);
    hide Take, Kept, Booked, Embedded;
    assert |Chosen(src.chunks, {}, true, src.chunks)| == 0;
  }

  lemma DimsAgree(unit: Vec -> Vec, dst: State, src: State)
    requires |src.embeds| == |src.chunks| > 0 && MergedFrom(unit, dst, src).Merged?
    ensures dst.dim == 0 || src.dim == 0 || dst.dim == src.dim
  {
    hide Take, Chosen, Booked, Embedded, Ensured, Reindexed;
  }

  // ---------- any sequence of operations ----------

  /** The operations of a store in use: AddDocuments, DeleteDocument, one Ingest step,
      Merge, the first search, Reindex, and Save followed by Load. */
  datatype Op =
    | AddDocuments(docs: seq<Prepared>)
    | DeleteDocument(id: string)
    | ApplyPrepared(p: Prepared)
    | Merge(src: State)
    | Search
    | Reindex
    | SaveAndLoad

  ghost predicate OpOk(unit: Vec -> Vec, op: Op) {
    match op
    case AddDocuments(docs) => AllOk(docs)
    case ApplyPrepared(p) => PreparedOk(p)
    case Merge(src) => Valid(unit, src)
    case _ => true
  }

  ghost predicate OpsOk(unit: Vec -> Vec, ops: seq<Op>) { forall i :: 0 <= i < |ops| ==> OpOk(unit, ops[i]) }

  ghost function Step(unit: Vec -> Vec, s: State, op: Op): State
    requires Valid(unit, s) && OpOk(unit, op)
  {
    match op
    case AddDocuments(docs) => Added(unit, s, docs)
    case DeleteDocument(id) => Deleted(unit, s, id)
    case ApplyPrepared(p) => Applied(unit, s, p)
    case Merge(src) => var r := MergedFrom(unit, s, src); if r.Merged? then r.state else s
    case Search => Ensured(unit, s)
    case Reindex => Reindexed(unit, Ensured(unit, s))
    case SaveAndLoad =>
      if Saved(s).Some? && Injective(Saved(s).value.hashes) then Loaded(Saved(s).value) else s
  }

  lemma StepOk(unit: Vec -> Vec, s: State, op: Op)
    requires Normalizes(unit) && Valid(unit, s) && OpOk(unit, op)
    ensures Valid(unit, Step(unit, s, op))
  {
    ValidParts(unit, s);
    match op {
      case AddDocuments(docs) => AddedOk(unit, s, docs);
      case DeleteDocument(id) => DeletedOk(unit, s, id);
      case ApplyPrepared(p) => AppliedOk(unit, s, p);
      case Merge(src) => MergedOk(unit, s, src);
      case Search => EnsuredValid(unit, s);
      case Reindex => EnsuredValid(unit, s); ReindexedValid(unit, Ensured(unit, s));
      case SaveAndLoad =>
        if Saved(s).Some? {
          ReopenedOk(unit, s);
        }
    }
    hide *;
  }

  /** The invariant holds after every sequence of operations. */
  ghost function Run(unit: Vec -> Vec, s: State, ops: seq<Op>): (t: State)
    requires Normalizes(unit) && Valid(unit, s) && OpsOk(unit, ops)
    ensures Valid(unit, t)
    decreases |ops|
  {
    if |ops| == 0 then s
    else
      StepOk(unit, s, ops[0]);
      Run(unit, Step(unit, s, ops[0]), ops[1..])
  }

  lemma EmptyIsValid(unit: Vec -> Vec)
    ensures Valid(unit, EMPTY)
  {
    assert DocIds([]) == {};
    HistoriesNone();
  }

  /** In every state a run reaches, a search that finds the indexes neither deferred nor
      stale sees the current chunks: ordinal for ordinal, the vector index, the lexical
      index and the chunk list name the same chunks, no name twice. */
  lemma SearchesSeeCurrentChunks(unit: Vec -> Vec, s: State, ops: seq<Op>)
    requires Normalizes(unit) && Valid(unit, s) && OpsOk(unit, ops)
    ensures var t := Run(unit, s, ops);
            !t.deferIndex && !t.needsRebuild && t.hnsw.Some? ==>
              && t.hnsw.value.ids == Ids(t.chunks)
              && t.lex == Entries(t.chunks)
              && t.hnsw.value.vecs == Units(unit, t.embeds)
              && forall i, j :: 0 <= i < j < |t.chunks| ==> t.hnsw.value.ids[i] != t.hnsw.value.ids[j]
  {
    var t := Run(unit, s, ops);
    hide Run, Id, BooksOk;
    if !t.deferIndex && !t.needsRebuild && t.hnsw.Some? {
      forall i, j | 0 <= i < j < |t.chunks| ensures Ids(t.chunks)[i] != Ids(t.chunks)[j] {
        IdsAreDistinct(t.chunks, i, j);
      }
    }
  }
}
