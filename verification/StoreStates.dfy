/** The state of the corpus store of rag/store.go and what each locked step does to
    it. The arrays of chunks and embeddings are the source of truth; the vector index,
    the lexical index and the saved links are derived from them. */
module StoreStates {
  import opened Vectors
  import opened Spans

  datatype Option<T> = None | Some(value: T)

  type Hash = int

  /** A stored chunk; its id is the document id and the position. */
  datatype Passage = Passage(docId: string, pos: nat, text: string)

  function Id(c: Passage): string { ChunkId(c.docId, c.pos) }

  /** The vector index as the store sees it: ids and normalized vectors by ordinal,
      and the ids its links were built over. */
  datatype Index = Index(ids: seq<string>, vecs: seq<Vec>, built: seq<string>)

  /** A document that has been chunked and embedded. */
  datatype Prepared = Prepared(id: string, hash: Hash, chunks: seq<Passage>, vecs: seq<Vec>)

  /** truth is the vector every chunk was given; it exists for the specification only. */
  datatype State = State(
    dim: nat, chunks: seq<Passage>, embeds: seq<Vec>, truth: seq<Vec>,
    docSet: set<string>, hashes: map<Hash, string>, idHash: map<string, Hash>, versions: map<string, seq<Hash>>,
    hnsw: Option<Index>, lex: seq<(string, string)>,
    needsRebuild: bool, deferIndex: bool, saved: Option<seq<string>>, flat: seq<Vec>)

  const EMPTY := State(0, [], [], [], {}, map[], map[], map[], None, [], false, false, None, [])

  /** index.normalize, as the store relies on it. */
  ghost predicate Normalizes(unit: Vec -> Vec) {
    forall v :: unit(unit(v)) == unit(v) && |unit(v)| == |v|
  }

  // ---------- views of the arrays ----------

  function Ids(chunks: seq<Passage>): (r: seq<string>)
    ensures |r| == |chunks| && forall i :: 0 <= i < |r| ==> r[i] == Id(chunks[i])
  {
    seq(|chunks|, i requires 0 <= i < |chunks| => Id(chunks[i]))
  }

  function Entries(chunks: seq<Passage>): (r: seq<(string, string)>)
    ensures |r| == |chunks| && forall i :: 0 <= i < |r| ==> r[i] == (Id(chunks[i]), chunks[i].text)
  {
    seq(|chunks|, i requires 0 <= i < |chunks| => (Id(chunks[i]), chunks[i].text))
  }

  function Units(unit: Vec -> Vec, vecs: seq<Vec>): (r: seq<Vec>)
    ensures |r| == |vecs| && forall i :: 0 <= i < |r| ==> r[i] == unit(vecs[i])
  {
    seq(|vecs|, i requires 0 <= i < |vecs| => unit(vecs[i]))
  }

  ghost function DocIds(chunks: seq<Passage>): set<string> { set c | c in chunks :: c.docId }

  predicate Keeps(docs: set<string>, only: bool, c: Passage) { (c.docId in docs) == only }

  /** The positions below n of the chunks of docs (only), or of all others, ascending. */
  function Kept(chunks: seq<Passage>, docs: set<string>, only: bool, n: nat): (r: seq<nat>)
    requires n <= |chunks|
    ensures |r| <= n && forall k :: 0 <= k < |r| ==> r[k] < n && Keeps(docs, only, chunks[r[k]])
    ensures forall k, l :: 0 <= k < l < |r| ==> r[k] < r[l]
    ensures forall i :: 0 <= i < n && Keeps(docs, only, chunks[i]) ==> i in r
  {
    if n == 0 then []
    else
      var rest := Kept(chunks, docs, only, n - 1);
      if Keeps(docs, only, chunks[n - 1]) then rest + [n - 1] else rest
  }

  /** All positions are kept exactly when none is dropped. */
  lemma {:induction false} KeptFull(chunks: seq<Passage>, docs: set<string>, only: bool, n: nat)
    requires n <= |chunks|
    ensures |Kept(chunks, docs, only, n)| == n <==> forall i :: 0 <= i < n ==> Keeps(docs, only, chunks[i])
    ensures |Kept(chunks, docs, only, n)| == n ==> forall k :: 0 <= k < n ==> Kept(chunks, docs, only, n)[k] == k
  {
    hide *;
    KeptStep(chunks, docs, only, n);
    if n > 0 {
      KeptFull(chunks, docs, only, n - 1);
      KeptIsShort(chunks, docs, only, n - 1);
      FullNext(Kept(chunks, docs, only, n - 1), n, Keeps(docs, only, chunks[n - 1]));
    }
  }

  lemma KeptIsShort(chunks: seq<Passage>, docs: set<string>, only: bool, n: nat)
    requires n <= |chunks|
    ensures |Kept(chunks, docs, only, n)| <= n
  {
    hide *;
  }

  lemma FullNext(before: seq<nat>, n: nat, keeps: bool)
    requires 0 < n && |before| <= n - 1 && (|before| == n - 1 ==> forall k :: 0 <= k < n - 1 ==> before[k] == k)
    ensures var now := before + if keeps then [n - 1] else [];
            (|now| == n <==> |before| == n - 1 && keeps) && (|now| == n ==> forall k :: 0 <= k < n ==> now[k] == k)
  {
  }

  lemma KeptStep(chunks: seq<Passage>, docs: set<string>, only: bool, n: nat)
    requires n <= |chunks|
    ensures n == 0 ==> Kept(chunks, docs, only, n) == []
    ensures n > 0 ==>
              (Kept(chunks, docs, only, n)
               == Kept(chunks, docs, only, n - 1) + if Keeps(docs, only, chunks[n - 1]) then [n - 1] else [])
  {
    hide Keeps;
  }

  /** The entries of xs at those positions. */
  function Chosen<T>(chunks: seq<Passage>, docs: set<string>, only: bool, xs: seq<T>): (r: seq<T>)
    requires |xs| == |chunks|
    ensures |r| == |Kept(chunks, docs, only, |chunks|)|
    ensures forall k :: 0 <= k < |r| ==> r[k] == xs[Kept(chunks, docs, only, |chunks|)[k]]
  {
    var kept := Kept(chunks, docs, only, |chunks|);
    seq(|kept|, k requires 0 <= k < |kept| => xs[kept[k]])
  }

  function Without<T>(chunks: seq<Passage>, xs: seq<T>, id: string): seq<T>
    requires |xs| == |chunks|
  {
    Chosen(chunks, {id}, false, xs)
  }

  /** Chunks, embeddings and the vectors they were given, entry by entry. */
  predicate Parallel(s: State) { |s.embeds| == |s.chunks| == |s.truth| }

  // ---------- the locked steps ----------

  /** initIndexes. */
  function Fresh(s: State): State { s.(hnsw := Some(Index([], [], [])), lex := []) }

  /** appendChunksLocked on vectors of the store's dimension. */
  function Appended(unit: Vec -> Vec, s: State, chunks: seq<Passage>, vecs: seq<Vec>): (r: State)
    requires s.hnsw.Some? && |vecs| == |chunks|
    ensures Parallel(s) ==> Parallel(r)
  {
    var h := s.hnsw.value;
    AppendedArrays(
      s.(hnsw := Some(Index(h.ids + Ids(chunks), h.vecs + Units(unit, vecs), h.built + Ids(chunks))),
         lex := s.lex + Entries(chunks)),
      chunks, vecs)
  }

  /** appendToArraysLocked. */
  function AppendedArrays(s: State, chunks: seq<Passage>, vecs: seq<Vec>): (r: State)
    requires |vecs| == |chunks|
    ensures Parallel(s) ==> Parallel(r)
  {
    s.(chunks := s.chunks + chunks, embeds := s.embeds + vecs, truth := s.truth + vecs,
       docSet := s.docSet + set c | c in chunks :: c.docId)
  }

  /** The arrays without a document's chunks; a rebuild is due when there were any. */
  function WithoutChunks(s: State, id: string): (r: State)
    requires Parallel(s)
    ensures Parallel(r)
  {
    var chunks := Without(s.chunks, s.chunks, id);
    s.(chunks := chunks, embeds := Without(s.chunks, s.embeds, id), truth := Without(s.chunks, s.truth, id),
       needsRebuild := s.needsRebuild || |chunks| < |s.chunks|)
  }

  /** The books without a document. */
  function Forgotten(s: State, id: string): State {
    var t := s.(docSet := s.docSet - {id});
    if id in s.idHash then t.(hashes := t.hashes - {s.idHash[id]}, idHash := t.idHash - {id}) else t
  }

  /** removeDocLocked. */
  function Removed(s: State, id: string): (r: State)
    requires Parallel(s)
    ensures Parallel(r)
  {
    Forgotten(WithoutChunks(s, id), id)
  }

  /** rebuildIndexesLocked. */
  function Rebuilt(unit: Vec -> Vec, s: State): State {
    s.(hnsw := Some(Index(Ids(s.chunks), Units(unit, s.embeds), Ids(s.chunks))), lex := Entries(s.chunks))
  }

  /** shareVectorsLocked compares lengths only. */
  function Shared(s: State): State {
    if s.hnsw.None? || |s.hnsw.value.ids| != |s.embeds| || |s.hnsw.value.vecs| != |s.embeds| then s
    else s.(embeds := s.hnsw.value.vecs)
  }

  /** restoreHNSWLocked fits: there are saved links with one node per chunk. */
  predicate Restorable(s: State) { s.saved.Some? && |s.chunks| != 0 && |s.saved.value| == |s.chunks| }

  /** The restored index: current ids, the saved links, and the vectors of the block
      read from disk when it still has one row per chunk. */
  function Restored(unit: Vec -> Vec, s: State): State
    requires Restorable(s)
  {
    var vecs := if |s.flat| == |s.chunks| then s.flat else s.embeds;
    s.(hnsw := Some(Index(Ids(s.chunks), Units(unit, vecs), s.saved.value)), saved := None, flat := [])
  }

  /** ensureSearchLocked. */
  function Ensured(unit: Vec -> Vec, s: State): (r: State)
    ensures Parallel(s) ==> Parallel(r)
  {
    if !s.deferIndex then s
    else
      var t := s.(deferIndex := false);
      var u := if Restorable(t) then Restored(unit, t).(lex := Entries(t.chunks))
               else Rebuilt(unit, t.(saved := None, flat := []));
      Shared(u.(needsRebuild := false))
  }

  /** reindexLocked, up to the similarity graph. */
  function Reindexed(unit: Vec -> Vec, s: State): State {
    if s.deferIndex || !s.needsRebuild then s
    else Shared(Rebuilt(unit, s)).(needsRebuild := false)
  }

  function VersionsOf(s: State, id: string): seq<Hash> { if id in s.versions then s.versions[id] else [] }

  /** recordHashLocked and recordVersionLocked. */
  function Recorded(s: State, id: string, h: Hash): State {
    var v := VersionsOf(s, id);
    s.(hashes := s.hashes[h := id], idHash := s.idHash[id := h],
       versions := if |v| > 0 && v[|v| - 1] == h then s.versions else s.versions[id := v + [h]])
  }

  /** The store an apply works on: initialized by its first document. */
  function Opened(s: State, p: Prepared): State
    requires |p.vecs| > 0
  {
    if s.hnsw.None? then Fresh(s.(dim := |p.vecs[0]|)) else s
  }

  /** applyPreparedLocked changes something. */
  predicate Applies(s: State, p: Prepared)
    requires |p.vecs| == |p.chunks|
  {
    |p.chunks| > 0 &&
    (var t := Opened(s, p);
     && |p.vecs[0]| == t.dim
     && (p.hash in t.hashes ==> t.hashes[p.hash] == p.id)
     && (p.id in t.docSet && p.id in t.idHash ==> t.idHash[p.id] != p.hash))
  }

  /** applyPreparedLocked: an update, an append behind a pending rebuild, or an append. */
  function Applied(unit: Vec -> Vec, s: State, p: Prepared): (r: State)
    requires |p.vecs| == |p.chunks| && Parallel(s)
    ensures Parallel(r)
  {
    if |p.chunks| == 0 then s
    else
      var t := Opened(s, p);
      if !Applies(s, p) then t
      else
        Recorded(
          if p.id in t.docSet then AppendedArrays(Removed(t, p.id), p.chunks, p.vecs)
          else if t.needsRebuild then AppendedArrays(t, p.chunks, p.vecs)
          else Appended(unit, t, p.chunks, p.vecs),
          p.id, p.hash)
  }

  // ---------- the operations ----------

  /** DeleteDocument. */
  function Deleted(unit: Vec -> Vec, s: State, id: string): State
    requires Parallel(s)
  {
    var t := Removed(s, id);
    var u := t.(versions := t.versions - {id});
    if |t.chunks| < |s.chunks| then Reindexed(unit, u) else u
  }

  /** newDocuments: content that is stored is skipped, and so is a repeat of an id or a
      content earlier in the batch. */
  function Offered(hashes: map<Hash, string>, docs: seq<Prepared>): (r: seq<Prepared>)
    ensures forall p :: p in r ==> p in docs
  {
    if |docs| == 0 then []
    else
      var d, rest := docs[|docs| - 1], Offered(hashes, docs[..|docs| - 1]);
      if d.hash in hashes || exists p :: p in rest && (p.hash == d.hash || p.id == d.id) then rest else rest + [d]
  }

  /** Documents without chunks are dropped. */
  function WithChunks(docs: seq<Prepared>): (r: seq<Prepared>)
    ensures forall p :: p in r ==> p in docs
  {
    if |docs| == 0 then []
    else
      var d, rest := docs[|docs| - 1], WithChunks(docs[..|docs| - 1]);
      if |d.chunks| > 0 then rest + [d] else rest
  }

  ghost predicate AllOk(docs: seq<Prepared>) { forall p :: p in docs ==> PreparedOk(p) }

  /** Applying a batch. */
  function AppliedAll(unit: Vec -> Vec, s: State, docs: seq<Prepared>): (r: State)
    requires (forall p :: p in docs ==> |p.vecs| == |p.chunks|) && Parallel(s)
    ensures Parallel(r)
  {
    if |docs| == 0 then s else Applied(unit, AppliedAll(unit, s, docs[..|docs| - 1]), docs[|docs| - 1])
  }

  /** Some document of the batch changed the store. */
  function AnyApplies(unit: Vec -> Vec, s: State, docs: seq<Prepared>): bool
    requires (forall p :: p in docs ==> |p.vecs| == |p.chunks|) && Parallel(s)
  {
    |docs| > 0 &&
    (AnyApplies(unit, s, docs[..|docs| - 1]) ||
     Applies(AppliedAll(unit, s, docs[..|docs| - 1]), docs[|docs| - 1]))
  }

  /** AddDocuments: the index is brought up first, the batch applied, the vectors
      shared, and the pending rebuild run last. */
  function Added(unit: Vec -> Vec, s: State, docs: seq<Prepared>): State
    requires (forall p :: p in docs ==> |p.vecs| == |p.chunks|) && Parallel(s)
  {
    var batch := WithChunks(Offered(s.hashes, docs));
    if |batch| == 0 then s
    else
      var e := Ensured(unit, s);
      var t := AppliedAll(unit, e, batch);
      Reindexed(unit, if AnyApplies(unit, e, batch) then Shared(t) else t)
  }

  /** AddEmbedded on a non-empty batch of vectors of one dimension; None is its error. */
  function Embedded(unit: Vec -> Vec, s: State, chunks: seq<Passage>, vecs: seq<Vec>): Option<State>
    requires |vecs| == |chunks| > 0
  {
    var t := if s.hnsw.None? then Fresh(s.(dim := |vecs[0]|)) else s;
    if |vecs[0]| != t.dim then None else Some(Shared(Appended(unit, t, chunks, vecs)))
  }

  /** The documents a merge takes: known neither by id nor by content. */
  function Take(dst: State, src: State): set<string> {
    set id | id in src.idHash && id !in dst.idHash && src.idHash[id] !in dst.hashes
  }

  /** The second half of a merge: the books of the documents taken. */
  function Booked(dst: State, src: State, take: set<string>): State {
    dst.(hashes := dst.hashes + map h | h in src.hashes && src.hashes[h] in take :: src.hashes[h],
         idHash := dst.idHash + map id | id in src.idHash && id in take :: src.idHash[id],
         versions := dst.versions + map id | id in src.versions && id in take :: src.versions[id])
  }

  datatype MergeResult = Merged(state: State, documents: nat, chunks: nat, skipped: nat) | Refused

  /** Merge of a store with vectors into another one, and the Reindex that ends it. */
  function MergedFrom(unit: Vec -> Vec, dst: State, src: State): MergeResult
    requires |src.embeds| == |src.chunks|
  {
    if |src.chunks| == 0 then Merged(dst, 0, 0, 0)
    else if dst.dim != 0 && src.dim != 0 && dst.dim != src.dim then Refused
    else
      var take := Take(dst, src);
      var chunks := Chosen(src.chunks, take, true, src.chunks);
      var vecs := Chosen(src.chunks, take, true, src.embeds);
      var t := if |chunks| > 0 then Embedded(unit, dst, chunks, vecs) else Some(dst);
      if t.None? then Refused
      else
        Merged(Reindexed(unit, Ensured(unit, Booked(t.value, src, take))),
               |take|, |chunks|, |src.idHash.Keys - take|)
  }

  /** What Save writes with exact vectors, up to the parts not modelled. */
  datatype Snapshot = Snapshot(dim: nat, chunks: seq<Passage>, vecs: seq<Vec>, hashes: map<string, Hash>,
                               versions: map<string, seq<Hash>>, links: Option<seq<string>>)

  /** hnswSnapshot: the links of a built and current index, or those read from disk when
      nothing made them stale. */
  function LinksToSave(s: State): Option<seq<string>> {
    if !s.deferIndex && !s.needsRebuild && s.hnsw.Some? && |s.hnsw.value.ids| == |s.chunks| then
      Some(s.hnsw.value.built)
    else if s.deferIndex && !s.needsRebuild && s.saved.Some? && |s.saved.value| == |s.chunks| then
      s.saved
    else None
  }

  /** Save; an empty store cannot be saved. */
  function Saved(s: State): Option<Snapshot> {
    if s.hnsw.None? then None
    else Some(Snapshot(s.dim, s.chunks, s.embeds, s.idHash, s.versions, LinksToSave(s)))
  }

  predicate Injective(m: map<string, Hash>) {
    forall a, b :: a in m && b in m && m[a] == m[b] ==> a == b
  }

  /** The owner of every content. */
  function InverseOf(m: map<string, Hash>): map<Hash, string>
    requires Injective(m)
  {
    map id | id in m :: m[id] := id
  }

  /** Load: arrays and books, with everything derived left for later. */
  function Loaded(snap: Snapshot): State
    requires Injective(snap.hashes)
  {
    if |snap.chunks| == 0 then EMPTY.(dim := snap.dim)
    else
      State(snap.dim, snap.chunks, snap.vecs, snap.vecs, set c | c in snap.chunks :: c.docId,
            InverseOf(snap.hashes), snap.hashes, snap.versions,
            Some(Index([], [], [])), [], false, true, snap.links, snap.vecs)
  }

  function AllChunks(docs: seq<Prepared>): seq<Passage> {
    if |docs| == 0 then [] else AllChunks(docs[..|docs| - 1]) + docs[|docs| - 1].chunks
  }

  function AllVecs(docs: seq<Prepared>): seq<Vec> {
    if |docs| == 0 then [] else AllVecs(docs[..|docs| - 1]) + docs[|docs| - 1].vecs
  }

  function RecordedAll(s: State, docs: seq<Prepared>): State {
    if |docs| == 0 then s
    else
      var d := docs[|docs| - 1];
      Recorded(RecordedAll(s, docs[..|docs| - 1]), d.id, d.hash)
  }

  /** Build on a new store; None when the documents have no chunk at all. */
  function Built(unit: Vec -> Vec, docs: seq<Prepared>): Option<State> {
    var chunks, vecs := AllChunks(docs), AllVecs(docs);
    if |chunks| == 0 || |vecs| != |chunks| then None
    else
      var s := Appended(unit, Fresh(EMPTY.(dim := |vecs[0]|)), chunks, vecs);
      Some(Reindexed(unit, Shared(RecordedAll(s, docs))))
  }

  // ---------- what holds in every state ----------

  /** The arrays are parallel and of one dimension; an index holds one vector and one
      node per id; nothing is stored before the first index exists. */
  ghost predicate Shape(s: State) {
    && Parallel(s)
    && (forall i :: 0 <= i < |s.embeds| ==> |s.embeds[i]| == s.dim)
    && (forall i :: 0 <= i < |s.flat| ==> |s.flat[i]| == s.dim)
    && (s.hnsw.Some? ==>
          && |s.hnsw.value.ids| == |s.hnsw.value.vecs| == |s.hnsw.value.built|
          && forall i :: 0 <= i < |s.hnsw.value.vecs| ==> |s.hnsw.value.vecs[i]| == s.dim)
    && (s.hnsw.None? ==> s.chunks == [] && s.flat == [] && !s.needsRebuild && !s.deferIndex)
  }

  /** The chunks of one document stand in order of their positions. */
  ghost predicate InOrder(chunks: seq<Passage>) {
    forall i, j :: 0 <= i < j < |chunks| && chunks[i].docId == chunks[j].docId ==> chunks[i].pos < chunks[j].pos
  }

  /** hashes and idHash are mutually inverse. */
  ghost predicate Inverse(hashes: map<Hash, string>, idHash: map<string, Hash>) {
    && (forall id :: id in idHash ==> idHash[id] in hashes && hashes[idHash[id]] == id)
    && (forall h :: h in hashes ==> hashes[h] in idHash && idHash[hashes[h]] == h)
  }

  ghost predicate NoRepeat(v: seq<Hash>) { forall i :: 0 < i < |v| ==> v[i - 1] != v[i] }

  /** The newest version of a document is its current content; no version repeats. */
  ghost predicate Histories(s: State) {
    && (forall id :: id in s.idHash ==>
          id in s.versions && |s.versions[id]| > 0 && s.versions[id][|s.versions[id]| - 1] == s.idHash[id])
    && (forall id :: id in s.versions ==> NoRepeat(s.versions[id]))
  }

  /** Both indexes hold exactly the chunks, in order. */
  ghost predicate Current(unit: Vec -> Vec, s: State) {
    s.hnsw.Some? ==>
      && s.hnsw.value.ids == Ids(s.chunks)
      && s.hnsw.value.vecs == Units(unit, s.embeds)
      && s.lex == Entries(s.chunks)
  }

  /** The index is not built, or flagged stale, or agrees with the arrays. */
  ghost predicate Agrees(unit: Vec -> Vec, s: State) { s.deferIndex || s.needsRebuild || Current(unit, s) }

  /** The arrays and the indexes derived from them. */
  ghost predicate IndexOk(unit: Vec -> Vec, s: State) {
    Shape(s) && InOrder(s.chunks) && s.docSet == DocIds(s.chunks) && Agrees(unit, s)
  }

  /** The known documents are those with a hash, and the books on them agree. */
  ghost predicate BooksOk(s: State) {
    s.docSet == s.idHash.Keys && Inverse(s.hashes, s.idHash) && Histories(s)
  }

  ghost predicate Valid(unit: Vec -> Vec, s: State) { IndexOk(unit, s) && BooksOk(s) }

  ghost predicate PreparedOk(p: Prepared) {
    && |p.vecs| == |p.chunks|
    && (forall i :: 0 <= i < |p.chunks| ==> p.chunks[i].docId == p.id && p.chunks[i].pos == i)
    && (forall i :: 0 <= i < |p.vecs| ==> |p.vecs[i]| == |p.vecs[0]|)
  }

  /** Chunk ids are distinct, so that an ordinal can be found from its id. */
  lemma IdsAreDistinct(chunks: seq<Passage>, i: nat, j: nat)
    requires InOrder(chunks) && i < j < |chunks|
    ensures Ids(chunks)[i] != Ids(chunks)[j]
  {
    if Ids(chunks)[i] == Ids(chunks)[j] {
      ChunkIdsAreUnique(chunks[i].docId, chunks[i].pos, chunks[j].docId, chunks[j].pos);
    }
  }

  lemma DocIdsConcat(a: seq<Passage>, b: seq<Passage>)
    ensures DocIds(a + b) == DocIds(a) + DocIds(b)
  {
    assert forall c :: c in a + b <==> c in a || c in b;
  }

  /** Choosing chunks by document chooses exactly theirs, and keeps their order. */
  lemma ChosenDocs(chunks: seq<Passage>, docs: set<string>, only: bool)
    ensures DocIds(Chosen(chunks, docs, only, chunks)) == if only then DocIds(chunks) * docs else DocIds(chunks) - docs
    ensures InOrder(chunks) ==> InOrder(Chosen(chunks, docs, only, chunks))
  {
    hide Kept, Chosen;
    var kept, left := Kept(chunks, docs, only, |chunks|), Chosen(chunks, docs, only, chunks);
    forall d ensures d in DocIds(left) <==> d in DocIds(chunks) && (d in docs) == only {
      if d in DocIds(chunks) && (d in docs) == only {
        var i :| 0 <= i < |chunks| && chunks[i].docId == d;
        var k :| 0 <= k < |kept| && kept[k] == i;
        assert left[k].docId == d;
      }
    }
  }

  /** Nothing is removed exactly when the document has no chunk. */
  lemma WithoutNone(chunks: seq<Passage>, id: string)
    ensures |Without(chunks, chunks, id)| == |chunks| <==> id !in DocIds(chunks)
  {
    KeptFull(chunks, {id}, false, |chunks|);
    hide Kept, Chosen;
  }
}
