/** What every operation of the store keeps: the arrays are parallel, the books on
    documents agree, and the derived indexes are deferred, flagged stale, or in step
    with the chunks. */
module StoreLaws {
  import opened Vectors
  import opened StoreStates

  // ---------- appending and removing ----------

  lemma InOrderConcat(a: seq<Passage>, b: seq<Passage>)
    requires InOrder(a) && InOrder(b) && DocIds(a) !! DocIds(b)
    ensures InOrder(a + b)
  {
    assert forall i :: 0 <= i < |a| ==> a[i].docId in DocIds(a);
    assert forall i :: 0 <= i < |b| ==> b[i].docId in DocIds(b);
    hide DocIds;
  }

  lemma ViewsConcat(unit: Vec -> Vec, a: seq<Passage>, b: seq<Passage>, v: seq<Vec>, w: seq<Vec>)
    ensures Ids(a + b) == Ids(a) + Ids(b)
    ensures Entries(a + b) == Entries(a) + Entries(b)
    ensures Units(unit, v + w) == Units(unit, v) + Units(unit, w)
  {
  }

  /** New chunks of documents not stored yet. */
  ghost predicate NewChunks(s: State, chunks: seq<Passage>, vecs: seq<Vec>) {
    && |vecs| == |chunks| && InOrder(chunks) && s.docSet !! DocIds(chunks)
    && forall i :: 0 <= i < |vecs| ==> |vecs[i]| == s.dim
  }

  lemma AppendedOk(unit: Vec -> Vec, s: State, chunks: seq<Passage>, vecs: seq<Vec>)
    requires Normalizes(unit) && IndexOk(unit, s) && NewChunks(s, chunks, vecs) && s.hnsw.Some?
    ensures IndexOk(unit, Appended(unit, s, chunks, vecs))
  {
    InOrderConcat(s.chunks, chunks);
    DocIdsConcat(s.chunks, chunks);
    ViewsConcat(unit, s.chunks, chunks, s.embeds, vecs);
    hide Id, InOrder, DocIds, Ids, Entries, Units;
    assert (set c | c in chunks :: c.docId) == DocIds(chunks) by {
      DocIdsIs(chunks);
    }
  }

  lemma DocIdsIs(chunks: seq<Passage>)
    ensures DocIds(chunks) == set c | c in chunks :: c.docId
  {
  }

  lemma AppendedArraysOk(unit: Vec -> Vec, s: State, chunks: seq<Passage>, vecs: seq<Vec>)
    requires IndexOk(unit, s) && NewChunks(s, chunks, vecs) && s.hnsw.Some? && (s.needsRebuild || s.deferIndex)
    ensures IndexOk(unit, AppendedArrays(s, chunks, vecs))
  {
    InOrderConcat(s.chunks, chunks);
    DocIdsConcat(s.chunks, chunks);
    DocIdsIs(chunks);
    hide Id, InOrder, DocIds, Ids, Entries, Units;
  }

  lemma RemovedOk(unit: Vec -> Vec, s: State, id: string)
    requires IndexOk(unit, s)
    ensures IndexOk(unit, Removed(s, id))
    ensures Removed(s, id).docSet == s.docSet - {id}
    ensures id in s.docSet ==> Removed(s, id).needsRebuild
  {
    RemovedShape(s, id);
    ChosenDocs(s.chunks, {id}, false);
    WithoutNone(s.chunks, id);
    if id !in s.docSet {
      RemovedNothing(s, id);
    }
    hide Shape, InOrder, DocIds, Ids, Entries, Units, Kept, Chosen, Id;
  }

  lemma RemovedShape(s: State, id: string)
    requires Shape(s)
    ensures Shape(Removed(s, id))
  {
    hide Kept;
  }

  lemma RemovedNothing(s: State, id: string)
    requires Parallel(s) && id !in DocIds(s.chunks)
    ensures Removed(s, id).chunks == s.chunks && Removed(s, id).embeds == s.embeds
    ensures Removed(s, id).truth == s.truth && Removed(s, id).needsRebuild == s.needsRebuild
  {
    KeptAll(s.chunks, id);
    ChosenAll(s.chunks, s.chunks, id);
    ChosenAll(s.chunks, s.embeds, id);
    ChosenAll(s.chunks, s.truth, id);
    hide Chosen, DocIds;
  }

  lemma ChosenAll<T>(chunks: seq<Passage>, xs: seq<T>, id: string)
    requires |xs| == |chunks| == |Kept(chunks, {id}, false, |chunks|)|
    requires forall k :: 0 <= k < |chunks| ==> Kept(chunks, {id}, false, |chunks|)[k] == k
    ensures Without(chunks, xs, id) == xs
  {
    hide Kept;
  }

  lemma KeptAll(chunks: seq<Passage>, id: string)
    requires id !in DocIds(chunks)
    ensures |Kept(chunks, {id}, false, |chunks|)| == |chunks|
    ensures forall k :: 0 <= k < |chunks| ==> Kept(chunks, {id}, false, |chunks|)[k] == k
  {
    KeptFull(chunks, {id}, false, |chunks|);
    hide Kept;
    assert forall i :: 0 <= i < |chunks| ==> Keeps({id}, false, chunks[i]);
  }

  // ---------- the books ----------

  lemma NoRepeatNext(v: seq<Hash>, h: Hash)
    requires NoRepeat(v) && (|v| > 0 ==> v[|v| - 1] != h)
    ensures NoRepeat(v + [h])
  {
  }

  lemma RecordedHistories(s: State, id: string, h: Hash)
    requires forall x :: x in s.idHash && x != id ==>
               x in s.versions && |s.versions[x]| > 0 && s.versions[x][|s.versions[x]| - 1] == s.idHash[x]
    requires forall x :: x in s.versions ==> NoRepeat(s.versions[x])
    ensures Histories(Recorded(s, id, h))
  {
    var v, r := VersionsOf(s, id), Recorded(s, id, h);
    assert NoRepeat(v);
    if |v| == 0 || v[|v| - 1] != h {
      NoRepeatNext(v, h);
    }
    hide NoRepeat;
  }

  /** Recording the content of a document that has none, content nobody has. */
  lemma RecordedBooks(s: State, id: string, h: Hash)
    requires s.docSet == s.idHash.Keys + {id} && id !in s.idHash && h !in s.hashes
    requires Inverse(s.hashes, s.idHash) && Histories(s)
    ensures BooksOk(Recorded(s, id, h))
  {
    RecordedHistories(s, id, h);
    hide Histories;
    InverseAdd(s.hashes, s.idHash, id, h);
    var r := Recorded(s, id, h);
    assert r.idHash == s.idHash[id := h] && r.hashes == s.hashes[h := id] && r.docSet == s.docSet;
    hide Recorded;
  }

  lemma InverseAdd(hashes: map<Hash, string>, idHash: map<string, Hash>, id: string, h: Hash)
    requires Inverse(hashes, idHash) && id !in idHash && h !in hashes
    ensures Inverse(hashes[h := id], idHash[id := h])
  {
  }

  lemma InverseRemove(hashes: map<Hash, string>, idHash: map<string, Hash>, id: string)
    requires Inverse(hashes, idHash) && id in idHash
    ensures Inverse(hashes - {idHash[id]}, idHash - {id}) && idHash[id] !in hashes - {idHash[id]}
  {
  }

  lemma RemovedBooks(s: State, id: string)
    requires BooksOk(s) && Parallel(s)
    ensures BooksOk(Removed(s, id)) && Removed(s, id).versions == s.versions
    ensures id !in Removed(s, id).idHash && Removed(s, id).idHash.Keys == s.idHash.Keys - {id}
    ensures forall h :: h in Removed(s, id).hashes ==> h in s.hashes && s.hashes[h] != id
  {
    hide Kept;
    if id in s.idHash {
      InverseRemove(s.hashes, s.idHash, id);
    }
  }

  // ---------- bringing indexes up to date ----------

  lemma RebuiltIsCurrent(unit: Vec -> Vec, s: State)
    requires Normalizes(unit) && Shape(s)
    ensures Shape(Rebuilt(unit, s)) && Current(unit, Rebuilt(unit, s))
  {
    hide Id;
  }

  /** Sharing vectors with an index that agrees with the arrays keeps it so. */
  lemma SharedIsCurrent(unit: Vec -> Vec, s: State)
    requires Normalizes(unit) && Shape(s) && Current(unit, s)
    ensures Shape(Shared(s)) && Current(unit, Shared(s))
  {
    hide Id;
    if s.hnsw.Some? {
      assert forall i :: 0 <= i < |s.embeds| ==> s.hnsw.value.vecs[i] == unit(s.embeds[i]);
      assert Units(unit, s.hnsw.value.vecs) == s.hnsw.value.vecs;
    }
  }

  lemma ReindexedOk(unit: Vec -> Vec, s: State)
    requires Normalizes(unit) && IndexOk(unit, s)
    ensures IndexOk(unit, Reindexed(unit, s))
    ensures !Reindexed(unit, s).deferIndex ==> !Reindexed(unit, s).needsRebuild && Current(unit, Reindexed(unit, s))
  {
    RebuiltIsCurrent(unit, s);
    SharedIsCurrent(unit, Rebuilt(unit, s));
    hide Current, Normalizes, InOrder, DocIds;
  }

  /** Restored vectors are the normalized ones, whatever block they came from. */
  lemma RestoredShares(unit: Vec -> Vec, s: State)
    requires Normalizes(unit) && Shape(s) && s.hnsw.Some? && Restorable(s)
    ensures var r := Shared(Restored(unit, s).(lex := Entries(s.chunks), needsRebuild := false));
            Shape(r) && Current(unit, r)
  {
    hide Id;
    var vecs := if |s.flat| == |s.chunks| then s.flat else s.embeds;
    assert Units(unit, Units(unit, vecs)) == Units(unit, vecs);
    assert forall i :: 0 <= i < |vecs| ==> |unit(vecs[i])| == s.dim;
  }

  lemma EnsuredOk(unit: Vec -> Vec, s: State)
    requires Normalizes(unit) && IndexOk(unit, s)
    ensures IndexOk(unit, Ensured(unit, s)) && !Ensured(unit, s).deferIndex
    ensures s.deferIndex ==> !Ensured(unit, s).needsRebuild
    ensures Ensured(unit, s).chunks == s.chunks && Ensured(unit, s).truth == s.truth
    ensures Ensured(unit, s).docSet == s.docSet && Ensured(unit, s).idHash == s.idHash
    ensures Ensured(unit, s).hashes == s.hashes && Ensured(unit, s).versions == s.versions
    ensures Ensured(unit, s).dim == s.dim && (s.hnsw.Some? ==> Ensured(unit, s).hnsw.Some?)
  {
    if s.deferIndex {
      var t := s.(deferIndex := false);
      if Restorable(t) {
        RestoredShares(unit, t);
      } else {
        var u := t.(saved := None, flat := []);
        RebuiltIsCurrent(unit, u);
        SharedIsCurrent(unit, Rebuilt(unit, u).(needsRebuild := false));
      }
      hide Current, Normalizes, InOrder, DocIds;
    }
  }

  // ---------- applying a document ----------

  lemma OpenedOk(unit: Vec -> Vec, s: State, p: Prepared)
    requires Valid(unit, s) && |p.vecs| > 0
    ensures Valid(unit, Opened(s, p)) && Opened(s, p).hnsw.Some?
  {
    hide BooksOk, InOrder, Id;
    BooksSame(s, Opened(s, p));
  }

  lemma BooksSame(s: State, t: State)
    requires BooksOk(s) && t.docSet == s.docSet && t.idHash == s.idHash && t.hashes == s.hashes && t.versions == s.versions
    ensures BooksOk(t)
  {
  }

  lemma PreparedIsNew(p: Prepared, docSet: set<string>)
    requires PreparedOk(p) && p.id !in docSet && |p.chunks| > 0
    ensures InOrder(p.chunks) && DocIds(p.chunks) == {p.id} && docSet !! DocIds(p.chunks)
  {
    assert p.chunks[0] in p.chunks;
  }

  /** Every apply keeps the invariant. */
  lemma AppliedOk(unit: Vec -> Vec, s: State, p: Prepared)
    requires Normalizes(unit) && Valid(unit, s) && PreparedOk(p)
    ensures Valid(unit, Applied(unit, s, p))
  {
    if |p.chunks| > 0 {
      OpenedOk(unit, s, p);
      if Applies(s, p) {
        var t := Opened(s, p);
        if p.id in t.docSet {
          UpdateOk(unit, t, p);
        } else {
          AppendOk(unit, t, p);
        }
      }
    }
    hide Valid;
  }

  lemma UpdateOk(unit: Vec -> Vec, t: State, p: Prepared)
    requires Normalizes(unit) && Valid(unit, t) && PreparedOk(p) && |p.chunks| > 0 && t.hnsw.Some? && |p.vecs[0]| == t.dim
    requires p.id in t.docSet && t.idHash[p.id] != p.hash && (p.hash in t.hashes ==> t.hashes[p.hash] == p.id)
    ensures Valid(unit, Recorded(AppendedArrays(Removed(t, p.id), p.chunks, p.vecs), p.id, p.hash))
  {
    var r := Removed(t, p.id);
    RemovedOk(unit, t, p.id);
    RemovedBooks(t, p.id);
    PreparedIsNew(p, r.docSet);
    AppendedArraysOk(unit, r, p.chunks, p.vecs);
    ContentIsNew(t, p);
    DocIdsIs(p.chunks);
    BookAfterAppend(unit, r, AppendedArrays(r, p.chunks, p.vecs), p);
  }

  lemma ContentIsNew(t: State, p: Prepared)
    requires BooksOk(t) && p.id in t.docSet && t.idHash[p.id] != p.hash
    requires p.hash in t.hashes ==> t.hashes[p.hash] == p.id
    ensures p.hash !in t.hashes
  {
  }

  lemma BookAfterAppend(unit: Vec -> Vec, r: State, a: State, p: Prepared)
    requires BooksOk(r) && p.id !in r.docSet && p.hash !in r.hashes && IndexOk(unit, a)
    requires a.docSet == r.docSet + {p.id} && a.idHash == r.idHash && a.hashes == r.hashes && a.versions == r.versions
    ensures Valid(unit, Recorded(a, p.id, p.hash))
  {
    RecordedBooks(a, p.id, p.hash);
    hide BooksOk, InOrder, DocIds, Id;
    IndexSame(unit, a, Recorded(a, p.id, p.hash));
  }

  lemma IndexSame(unit: Vec -> Vec, s: State, t: State)
    requires IndexOk(unit, s) && t == s.(hashes := t.hashes, idHash := t.idHash, versions := t.versions)
    ensures IndexOk(unit, t)
  {
    hide InOrder, DocIds, Id;
  }

  lemma AppendOk(unit: Vec -> Vec, t: State, p: Prepared)
    requires Normalizes(unit) && Valid(unit, t) && PreparedOk(p) && |p.chunks| > 0 && t.hnsw.Some? && |p.vecs[0]| == t.dim
    requires p.id !in t.docSet && (p.hash in t.hashes ==> t.hashes[p.hash] == p.id)
    ensures t.needsRebuild ==> Valid(unit, Recorded(AppendedArrays(t, p.chunks, p.vecs), p.id, p.hash))
    ensures !t.needsRebuild ==> Valid(unit, Recorded(Appended(unit, t, p.chunks, p.vecs), p.id, p.hash))
  {
    PreparedIsNew(p, t.docSet);
    DocIdsIs(p.chunks);
    assert p.hash !in t.hashes;
    if t.needsRebuild {
      AppendedArraysOk(unit, t, p.chunks, p.vecs);
      BookAfterAppend(unit, t, AppendedArrays(t, p.chunks, p.vecs), p);
    } else {
      AppendedOk(unit, t, p.chunks, p.vecs);
      BookAfterAppend(unit, t, Appended(unit, t, p.chunks, p.vecs), p);
    }
  }

  // ---------- the operations ----------

  lemma DeletedOk(unit: Vec -> Vec, s: State, id: string)
    requires Normalizes(unit) && Valid(unit, s)
    ensures Valid(unit, Deleted(unit, s, id))
    ensures Deleted(unit, s, id).docSet == s.docSet - {id}
  {
    ValidParts(unit, s);
    var t := Removed(s, id);
    var u := t.(versions := t.versions - {id});
    RemovedOk(unit, s, id);
    RemovedBooks(s, id);
    BooksWithout(t, id);
    hide BooksOk, IndexOk, Removed, Reindexed, Normalizes;
    IndexSame(unit, t, u);
    ValidFrom(unit, u);
    ReindexedValid(unit, u);
    ReindexedDocs(unit, u);
  }

  lemma BooksWithout(t: State, id: string)
    requires BooksOk(t) && id !in t.idHash
    ensures BooksOk(t.(versions := t.versions - {id}))
  {
  }

  lemma {:induction false} AppliedAllOk(unit: Vec -> Vec, s: State, docs: seq<Prepared>)
    requires Normalizes(unit) && Valid(unit, s) && AllOk(docs)
    ensures Valid(unit, AppliedAll(unit, s, docs))
  {
    hide Valid, PreparedOk, Normalizes;
    if |docs| > 0 {
      var n := |docs| - 1;
      AllOkParts(docs);
      ValidParts(unit, s);
      AppliedAllOk(unit, s, docs[..n]);
      ValidParts(unit, AppliedAll(unit, s, docs[..n]));
      AppliedOk(unit, AppliedAll(unit, s, docs[..n]), docs[n]);
    }
  }

  lemma AllOkParts(docs: seq<Prepared>)
    requires AllOk(docs) && |docs| > 0
    ensures AllOk(docs[..|docs| - 1]) && PreparedOk(docs[|docs| - 1])
    ensures forall p :: p in docs[..|docs| - 1] ==> |p.vecs| == |p.chunks|
  {
  }

  lemma ValidParts(unit: Vec -> Vec, s: State)
    requires Valid(unit, s)
    ensures Shape(s) && Parallel(s) && IndexOk(unit, s) && BooksOk(s)
  {
  }

  /** Sharing vectors by length alone keeps the arrays parallel and the books; the
      pending rebuild then reads whatever the arrays hold. */
  lemma SharedThenReindexedOk(unit: Vec -> Vec, s: State)
    requires Normalizes(unit) && Valid(unit, s)
    ensures Valid(unit, Reindexed(unit, Shared(s)))
  {
    hide *;
    ValidParts(unit, s);
    SharedIndexOk(unit, s);
    SharedBooks(s);
    BooksSame(s, Shared(s));
    ValidFrom(unit, Shared(s));
    ReindexedValid(unit, Shared(s));
  }

  lemma SharedBooks(s: State)
    ensures var r := Shared(s);
            r.docSet == s.docSet && r.idHash == s.idHash && r.hashes == s.hashes && r.versions == s.versions
  {
  }

  lemma ValidFrom(unit: Vec -> Vec, s: State)
    requires IndexOk(unit, s) && BooksOk(s)
    ensures Valid(unit, s)
  {
  }

  lemma SharedIndexOk(unit: Vec -> Vec, s: State)
    requires Normalizes(unit) && IndexOk(unit, s)
    ensures IndexOk(unit, Shared(s))
  {
    if !s.deferIndex && !s.needsRebuild {
      SharedIsCurrent(unit, s);
    }
    hide InOrder, DocIds, Id, Normalizes;
  }

  lemma BatchOk(hashes: map<Hash, string>, docs: seq<Prepared>)
    requires AllOk(docs)
    ensures AllOk(WithChunks(Offered(hashes, docs)))
  {
    hide PreparedOk, Offered, WithChunks;
  }

  lemma EnsuredValid(unit: Vec -> Vec, s: State)
    requires Normalizes(unit) && Valid(unit, s)
    ensures Valid(unit, Ensured(unit, s))
  {
    EnsuredOk(unit, s);
    hide BooksOk, IndexOk, Ensured, Normalizes;
    BooksSame(s, Ensured(unit, s));
  }

  lemma ReindexedValid(unit: Vec -> Vec, s: State)
    requires Normalizes(unit) && Valid(unit, s)
    ensures Valid(unit, Reindexed(unit, s))
  {
    ReindexedOk(unit, s);
    hide BooksOk, IndexOk, Normalizes, Ids, Units, Entries;
    BooksSame(s, Reindexed(unit, s));
  }

  lemma AddedOk(unit: Vec -> Vec, s: State, docs: seq<Prepared>)
    requires Normalizes(unit) && Valid(unit, s) && AllOk(docs)
    ensures Valid(unit, Added(unit, s, docs))
  {
    var batch := WithChunks(Offered(s.hashes, docs));
    BatchOk(s.hashes, docs);
    EnsuredValid(unit, s);
    var e := Ensured(unit, s);
    AppliedAllOk(unit, e, batch);
    var t := AppliedAll(unit, e, batch);
    SharedThenReindexedOk(unit, t);
    ReindexedValid(unit, t);
    hide Valid, Ensured, AppliedAll, AnyApplies, Shared, Reindexed, Offered, WithChunks, Normalizes;
  }

  // ---------- merging ----------

  lemma TakeIsNew(unit: Vec -> Vec, dst: State, src: State)
    requires Valid(unit, dst) && Valid(unit, src)
    ensures var chunks := TakenChunks(dst, src);
            && InOrder(chunks) && DocIds(chunks) == Take(dst, src) && dst.docSet !! DocIds(chunks)
            && (|chunks| == 0 <==> Take(dst, src) == {})
  {
    var take, chunks := Take(dst, src), TakenChunks(dst, src);
    TakeIsUnknown(dst, src);
    BooksKeys(dst);
    BooksKeys(src);
    ChosenDocs(src.chunks, take, true);
    DocIdsNone(chunks);
    hide InOrder, Chosen, Take, BooksOk, DocIds, Agrees, Shape;
    assert DocIds(chunks) == src.docSet * take == take;
  }

  lemma BooksKeys(s: State)
    requires BooksOk(s)
    ensures s.docSet == s.idHash.Keys
  {
  }

  lemma TakeIsUnknown(dst: State, src: State)
    ensures Take(dst, src) <= src.idHash.Keys && Take(dst, src) !! dst.idHash.Keys
  {
  }

  lemma DocIdsNone(chunks: seq<Passage>)
    ensures |chunks| == 0 <==> DocIds(chunks) == {}
  {
    if |chunks| > 0 {
      assert chunks[0] in chunks && chunks[0].docId in DocIds(chunks);
    }
  }

  lemma EmbeddedOk(unit: Vec -> Vec, s: State, chunks: seq<Passage>, vecs: seq<Vec>)
    requires Normalizes(unit) && IndexOk(unit, s) && |vecs| == |chunks| > 0
    requires InOrder(chunks) && s.docSet !! DocIds(chunks) && forall i :: 0 <= i < |vecs| ==> |vecs[i]| == |vecs[0]|
    ensures Embedded(unit, s, chunks, vecs).Some? ==>
              var t := Embedded(unit, s, chunks, vecs).value;
              && IndexOk(unit, t) && t.docSet == s.docSet + DocIds(chunks) && t.hnsw.Some?
              && t.hashes == s.hashes && t.idHash == s.idHash && t.versions == s.versions
              && t.chunks == s.chunks + chunks
  {
    var t := if s.hnsw.None? then Fresh(s.(dim := |vecs[0]|)) else s;
    if |vecs[0]| == t.dim {
      assert IndexOk(unit, t) by {
        hide InOrder, DocIds, Id;
      }
      AppendedOk(unit, t, chunks, vecs);
      SharedIndexOk(unit, Appended(unit, t, chunks, vecs));
      DocIdsIs(chunks);
      hide IndexOk, InOrder, DocIds, Ids, Entries, Units, Normalizes;
    }
  }

  /** The books after a merge. */
  lemma BookedOk(dst: State, src: State, t: State)
    requires BooksOk(dst) && BooksOk(src)
    requires t.hashes == dst.hashes && t.idHash == dst.idHash && t.versions == dst.versions
    requires t.docSet == dst.docSet + Take(dst, src)
    ensures BooksOk(Booked(t, src, Take(dst, src)))
  {
    var take := Take(dst, src);
    var b := Booked(t, src, take);
    assert b.idHash.Keys == dst.idHash.Keys + take;
    BookedInverse(dst, src);
    BookedHistories(dst, src, t);
    hide Histories, Inverse;
  }

  lemma BookedInverse(dst: State, src: State)
    requires BooksOk(dst) && BooksOk(src)
    ensures var take := Take(dst, src);
            Inverse(dst.hashes + map h | h in src.hashes && src.hashes[h] in take :: src.hashes[h],
                    dst.idHash + map id | id in src.idHash && id in take :: src.idHash[id])
  {
    hide Histories;
    var take := Take(dst, src);
    var hashes := map h | h in src.hashes && src.hashes[h] in take :: src.hashes[h];
    var idHash := map id | id in src.idHash && id in take :: src.idHash[id];
    assert Inverse(hashes, idHash);
    assert forall h :: h in hashes ==> h !in dst.hashes;
    assert forall id :: id in idHash ==> id !in dst.idHash;
    InverseUnion(dst.hashes, dst.idHash, hashes, idHash);
  }

  lemma InverseUnion(h1: map<Hash, string>, i1: map<string, Hash>, h2: map<Hash, string>, i2: map<string, Hash>)
    requires Inverse(h1, i1) && Inverse(h2, i2)
    requires (forall h :: h in h2 ==> h !in h1) && (forall id :: id in i2 ==> id !in i1)
    ensures Inverse(h1 + h2, i1 + i2)
  {
    forall id | id in i1 + i2 ensures (i1 + i2)[id] in h1 + h2 && (h1 + h2)[(i1 + i2)[id]] == id {
      if id in i1 {
        var h := i1[id];
        assert h in h1;
      }
    }
    forall h | h in h1 + h2 ensures (h1 + h2)[h] in i1 + i2 && (i1 + i2)[(h1 + h2)[h]] == h {
      if h in h1 {
        var id := h1[h];
        assert id in i1;
      }
    }
  }

  lemma BookedHistories(dst: State, src: State, t: State)
    requires BooksOk(dst) && BooksOk(src) && t.idHash == dst.idHash && t.versions == dst.versions
    ensures Histories(Booked(t, src, Take(dst, src)))
  {
    hide NoRepeat, Inverse;
  }

  /** A merge keeps the invariant and takes exactly the unknown documents. */
  lemma MergedOk(unit: Vec -> Vec, dst: State, src: State)
    requires Normalizes(unit) && Valid(unit, dst) && Valid(unit, src)
    ensures MergedFrom(unit, dst, src).Merged? ==>
              && Valid(unit, MergedFrom(unit, dst, src).state)
              && MergedFrom(unit, dst, src).state.docSet == dst.docSet + if |src.chunks| == 0 then {} else Take(dst, src)
  {
    hide *;
    ValidParts(unit, dst);
    ValidParts(unit, src);
    MergedIs(unit, dst, src);
    if MergedFrom(unit, dst, src).Merged? && |src.chunks| > 0 {
      TakenValid(unit, dst, src);
      FromTakenOk(unit, dst, src, Taken(unit, dst, src));
    }
    assert dst.docSet + {} == dst.docSet;
  }

  /** The store after the chunks of a merge have arrived. */
  ghost function Taken(unit: Vec -> Vec, dst: State, src: State): State
    requires |src.embeds| == |src.chunks|
  {
    var chunks, vecs := TakenChunks(dst, src), TakenVecs(dst, src);
    if |chunks| > 0 && Embedded(unit, dst, chunks, vecs).Some? then Embedded(unit, dst, chunks, vecs).value else dst
  }

  ghost function FromTaken(unit: Vec -> Vec, dst: State, src: State, t: State): State {
    Reindexed(unit, Ensured(unit, Booked(t, src, Take(dst, src))))
  }

  lemma TakenValid(unit: Vec -> Vec, dst: State, src: State)
    requires Normalizes(unit) && Valid(unit, dst) && Valid(unit, src) && |src.embeds| == |src.chunks|
    requires |TakenChunks(dst, src)| > 0 ==> Embedded(unit, dst, TakenChunks(dst, src), TakenVecs(dst, src)).Some?
    ensures var t := Taken(unit, dst, src);
            && IndexOk(unit, t) && t.docSet == dst.docSet + Take(dst, src)
            && t.hashes == dst.hashes && t.idHash == dst.idHash && t.versions == dst.versions
  {
    ValidParts(unit, dst);
    ValidParts(unit, src);
    TakeIsNew(unit, dst, src);
    ChosenDims(dst, src, Take(dst, src));
    hide Valid, IndexOk, BooksOk, Embedded, TakenChunks, TakenVecs, Take, Normalizes, InOrder, DocIds, Shape;
    if |TakenChunks(dst, src)| > 0 {
      EmbeddedOk(unit, dst, TakenChunks(dst, src), TakenVecs(dst, src));
    } else {
      assert dst.docSet + {} == dst.docSet;
    }
  }

  function TakenChunks(dst: State, src: State): seq<Passage> {
    Chosen(src.chunks, Take(dst, src), true, src.chunks)
  }

  function TakenVecs(dst: State, src: State): seq<Vec>
    requires |src.embeds| == |src.chunks|
    ensures |TakenVecs(dst, src)| == |TakenChunks(dst, src)|
  {
    Chosen(src.chunks, Take(dst, src), true, src.embeds)
  }

  lemma MergedIs(unit: Vec -> Vec, dst: State, src: State)
    requires |src.embeds| == |src.chunks|
    ensures |src.chunks| == 0 ==> MergedFrom(unit, dst, src) == Merged(dst, 0, 0, 0)
    ensures MergedFrom(unit, dst, src).Merged? && |src.chunks| > 0 ==>
              var chunks := TakenChunks(dst, src);
              && (|chunks| > 0 ==> Embedded(unit, dst, chunks, TakenVecs(dst, src)).Some?)
              && MergedFrom(unit, dst, src).state == FromTaken(unit, dst, src, Taken(unit, dst, src))
  {
    hide Embedded, Reindexed, Ensured, Booked, Take, Chosen;
  }

  /** From the chunks taken to the end of the merge. */
  lemma FromTakenOk(unit: Vec -> Vec, dst: State, src: State, t: State)
    requires Normalizes(unit) && BooksOk(dst) && BooksOk(src) && IndexOk(unit, t)
    requires t.hashes == dst.hashes && t.idHash == dst.idHash && t.versions == dst.versions
    requires t.docSet == dst.docSet + Take(dst, src)
    ensures Valid(unit, FromTaken(unit, dst, src, t)) && FromTaken(unit, dst, src, t).docSet == t.docSet
  {
    var b := Booked(t, src, Take(dst, src));
    assert b.docSet == t.docSet;
    BookedOk(dst, src, t);
    BookedIndex(unit, t, src, Take(dst, src));
    hide Ensured, Reindexed, Normalizes, IndexOk, BooksOk, Booked, Take;
    EnsuredOk(unit, b);
    EnsuredValid(unit, b);
    ReindexedValid(unit, Ensured(unit, b));
    ReindexedDocs(unit, Ensured(unit, b));
  }

  lemma ReindexedDocs(unit: Vec -> Vec, s: State)
    ensures Reindexed(unit, s).docSet == s.docSet
  {
  }

  lemma ChosenDims(dst: State, src: State, take: set<string>)
    requires Shape(src) && take == Take(dst, src)
    ensures forall i :: 0 <= i < |TakenVecs(dst, src)| ==> |TakenVecs(dst, src)[i]| == src.dim
  {
    hide Kept;
  }

  lemma BookedIndex(unit: Vec -> Vec, t: State, src: State, take: set<string>)
    requires IndexOk(unit, t)
    ensures IndexOk(unit, Booked(t, src, take))
  {
    hide InOrder, DocIds, Id;
    IndexSame(unit, t, Booked(t, src, take));
  }
}
