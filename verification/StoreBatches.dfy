/** What applying a batch of documents comes to, in closed form: which documents take
    effect, which chunks they replace, and what the vector index has seen of it. */
module StoreBatches {
  import opened Vectors
  import opened StoreStates
  import opened StoreLaws
  import opened StoreRuns

  // ---------- the arrays as rows ----------

  /** A chunk, the embedding stored for it, and the vector it was given. */
  datatype Row = Row(chunk: Passage, embed: Vec, given: Vec)

  function RowsOf(chunks: seq<Passage>, embeds: seq<Vec>, truth: seq<Vec>): (r: seq<Row>)
    requires |embeds| == |chunks| == |truth|
    ensures |r| == |chunks| && forall i :: 0 <= i < |r| ==> r[i] == Row(chunks[i], embeds[i], truth[i])
  {
    seq(|chunks|, i requires 0 <= i < |chunks| => Row(chunks[i], embeds[i], truth[i]))
  }

  function Rows(s: State): (r: seq<Row>)
    requires Parallel(s)
    ensures |r| == |s.chunks|
  {
    RowsOf(s.chunks, s.embeds, s.truth)
  }

  lemma RowsConcat(a: seq<Passage>, b: seq<Passage>, v: seq<Vec>, w: seq<Vec>, t: seq<Vec>, u: seq<Vec>)
    requires |a| == |v| == |t| && |b| == |w| == |u|
    ensures RowsOf(a + b, v + w, t + u) == RowsOf(a, v, t) + RowsOf(b, w, u)
  {
  }

  /** The rows of no document in docs. */
  function Rest(rows: seq<Row>, docs: set<string>): seq<Row> {
    if |rows| == 0 then []
    else
      var n := |rows| - 1;
      Rest(rows[..n], docs) + if rows[n].chunk.docId in docs then [] else [rows[n]]
  }

  lemma RestSnoc(rows: seq<Row>, r: Row, docs: set<string>)
    ensures Rest(rows + [r], docs) == Rest(rows, docs) + if r.chunk.docId in docs then [] else [r]
  {
    assert (rows + [r])[..|rows|] == rows;
  }

  lemma {:induction false} RestConcat(a: seq<Row>, b: seq<Row>, docs: set<string>)
    ensures Rest(a + b, docs) == Rest(a, docs) + Rest(b, docs)
    decreases |b|
  {
    if |b| == 0 {
      assert a + b == a;
    } else {
      hide *;
      var front, last := b[..|b| - 1], b[|b| - 1];
      RestConcat(a, front, docs);
      assert b == front + [last];
      RestConcatNext(a, front, last, docs);
    }
  }

  lemma RestConcatNext(a: seq<Row>, front: seq<Row>, last: Row, docs: set<string>)
    requires Rest(a + front, docs) == Rest(a, docs) + Rest(front, docs)
    ensures Rest(a + (front + [last]), docs) == Rest(a, docs) + Rest(front + [last], docs)
  {
    hide *;
    RestSnoc(front, last, docs);
    RestSnoc(a + front, last, docs);
    Associate(a, front, [last]);
    Associate(Rest(a, docs), Rest(front, docs), if last.chunk.docId in docs then [] else [last]);
  }

  lemma Associate(a: seq<Row>, b: seq<Row>, c: seq<Row>)
    ensures (a + b) + c == a + (b + c)
  {
  }

  /** Dropping the rows of some documents, then those of others. */
  lemma {:induction false} RestTwice(rows: seq<Row>, docs: set<string>, more: set<string>)
    ensures Rest(Rest(rows, docs), more) == Rest(rows, docs + more)
    decreases |rows|
  {
    if |rows| > 0 {
      hide *;
      var front, last := rows[..|rows| - 1], rows[|rows| - 1];
      RestTwice(front, docs, more);
      assert rows == front + [last];
      RestSnoc(front, last, docs);
      RestSnoc(front, last, docs + more);
      RestSnoc(Rest(front, docs), last, more);
      assert Rest(front, docs) + [] == Rest(front, docs);
      assert Rest(front, docs + more) + [] == Rest(front, docs + more);
    }
  }

  /** Only documents with a row matter. */
  lemma {:induction false} RestBy(rows: seq<Row>, docs: set<string>, other: set<string>)
    requires forall r :: r in rows ==> (r.chunk.docId in docs <==> r.chunk.docId in other)
    ensures Rest(rows, docs) == Rest(rows, other)
    decreases |rows|
  {
    if |rows| > 0 {
      RestBy(rows[..|rows| - 1], docs, other);
    }
  }

  lemma {:induction false} RestWhole(rows: seq<Row>, docs: set<string>)
    requires forall r :: r in rows ==> r.chunk.docId !in docs
    ensures Rest(rows, docs) == rows
    decreases |rows|
  {
    if |rows| > 0 {
      RestWhole(rows[..|rows| - 1], docs);
      assert rows == rows[..|rows| - 1] + [rows[|rows| - 1]];
    }
  }

  /** The rows at some positions. */
  function At(rows: seq<Row>, ks: seq<nat>): (r: seq<Row>)
    requires forall k :: 0 <= k < |ks| ==> ks[k] < |rows|
    ensures |r| == |ks| && forall k :: 0 <= k < |r| ==> r[k] == rows[ks[k]]
  {
    seq(|ks|, k requires 0 <= k < |ks| => rows[ks[k]])
  }

  lemma AtSnoc(rows: seq<Row>, ks: seq<nat>, k: nat)
    requires (forall j :: 0 <= j < |ks| ==> ks[j] < |rows|) && k < |rows|
    ensures At(rows, ks + [k]) == At(rows, ks) + [rows[k]]
  {
  }

  /** Keeping by position is dropping by document. */
  lemma {:induction false} KeptRows(chunks: seq<Passage>, rows: seq<Row>, docs: set<string>, n: nat)
    requires n <= |chunks| == |rows| && forall i :: 0 <= i < |rows| ==> rows[i].chunk == chunks[i]
    ensures At(rows, Kept(chunks, docs, false, n)) == Rest(rows[..n], docs)
  {
    hide *;
    KeptStep(chunks, docs, false, n);
    KeptInRange(chunks, docs, n);
    if n == 0 {
      NothingAt(rows, docs);
    } else {
      KeptRows(chunks, rows, docs, n - 1);
      KeptInRange(chunks, docs, n - 1);
      KeepsIs(docs, chunks[n - 1]);
      AtNext(rows, docs, n, Kept(chunks, docs, false, n - 1), Kept(chunks, docs, false, n));
    }
  }

  lemma KeptInRange(chunks: seq<Passage>, docs: set<string>, n: nat)
    requires n <= |chunks|
    ensures forall k :: 0 <= k < |Kept(chunks, docs, false, n)| ==> Kept(chunks, docs, false, n)[k] < |chunks|
  {
    hide Kept;
  }

  lemma KeepsIs(docs: set<string>, c: Passage)
    ensures Keeps(docs, false, c) <==> c.docId !in docs
  {
  }

  lemma NothingAt(rows: seq<Row>, docs: set<string>)
    ensures At(rows, []) == Rest(rows[..0], docs)
  {
  }

  lemma AtNext(rows: seq<Row>, docs: set<string>, n: nat, before: seq<nat>, now: seq<nat>)
    requires 0 < n <= |rows| && now == before + if rows[n - 1].chunk.docId in docs then [] else [n - 1]
    requires (forall k :: 0 <= k < |now| ==> now[k] < |rows|) && (forall k :: 0 <= k < |before| ==> before[k] < |rows|)
    requires At(rows, before) == Rest(rows[..n - 1], docs)
    ensures At(rows, now) == Rest(rows[..n], docs)
  {
    var front, r := rows[..n - 1], rows[n - 1];
    assert rows[..n] == front + [r];
    RestSnoc(front, r, docs);
    hide Rest;
    if r.chunk.docId in docs {
      assert now == before;
      assert Rest(front, docs) + [] == Rest(front, docs);
    } else {
      AtSnoc(rows, before, n - 1);
    }
  }

  lemma RemovedRows(s: State, id: string)
    requires Parallel(s)
    ensures Rows(Removed(s, id)) == Rest(Rows(s), {id})
  {
    var rows, kept := Rows(s), Kept(s.chunks, {id}, false, |s.chunks|);
    KeptRows(s.chunks, rows, {id}, |s.chunks|);
    assert rows[..|rows|] == rows;
    hide Kept, Rest;
    assert Rows(Removed(s, id)) == At(rows, kept);
  }

  // ---------- the documents of a batch that take effect ----------

  /** New documents with chunks: fresh contents, and no id or content twice. */
  ghost predicate NewBatch(hashes: map<Hash, string>, docs: seq<Prepared>) {
    (forall p :: p in docs ==> p.hash !in hashes && |p.chunks| > 0) && Unlike(docs)
  }

  /** No id and no content twice. */
  ghost predicate Unlike(docs: seq<Prepared>) {
    forall i, j :: 0 <= i < j < |docs| ==> docs[i].id != docs[j].id && docs[i].hash != docs[j].hash
  }

  lemma UnlikeSnoc(docs: seq<Prepared>, d: Prepared)
    requires Unlike(docs) && forall p :: p in docs ==> p.id != d.id && p.hash != d.hash
    ensures Unlike(docs + [d])
  {
    assert forall i :: 0 <= i < |docs| ==> docs[i] in docs;
  }

  /** The documents whose vectors have the store's dimension. */
  function Fitting(d: nat, docs: seq<Prepared>): (r: seq<Prepared>)
    ensures forall p :: p in r ==> p in docs
  {
    if |docs| == 0 then []
    else
      var p, rest := docs[|docs| - 1], Fitting(d, docs[..|docs| - 1]);
      if |p.vecs| > 0 && |p.vecs[0]| == d then rest + [p] else rest
  }

  /** The documents before the first one that replaces a stored document. */
  function BeforeReplacing(docSet: set<string>, docs: seq<Prepared>): (r: seq<Prepared>)
    ensures |r| <= |docs|
  {
    if |docs| == 0 then []
    else
      var n := |docs| - 1;
      var before := BeforeReplacing(docSet, docs[..n]);
      if |before| == n && docs[n].id !in docSet then before + [docs[n]] else before
  }

  /** That document and all behind it. */
  function FromReplacing(docSet: set<string>, docs: seq<Prepared>): seq<Prepared> {
    docs[|BeforeReplacing(docSet, docs)|..]
  }

  /** Those that reach the vector index at once: none behind a pending rebuild. */
  function Indexed(o: State, docs: seq<Prepared>): seq<Prepared> {
    if o.needsRebuild then [] else BeforeReplacing(o.docSet, docs)
  }

  predicate Replaces(docSet: set<string>, docs: seq<Prepared>) { exists p :: p in docs && p.id in docSet }

  lemma {:induction false} BeforeReplacingIs(docSet: set<string>, docs: seq<Prepared>)
    ensures |BeforeReplacing(docSet, docs)| <= |docs|
    ensures BeforeReplacing(docSet, docs) == docs[..|BeforeReplacing(docSet, docs)|]
    ensures |BeforeReplacing(docSet, docs)| == |docs| <==> !Replaces(docSet, docs)
    ensures Replaces(docSet, docs) ==> docs[|BeforeReplacing(docSet, docs)|].id in docSet
  {
    if |docs| > 0 {
      var n := |docs| - 1;
      BeforeReplacingIs(docSet, docs[..n]);
      assert forall p :: p in docs <==> p in docs[..n] || p == docs[n];
    }
  }

  // ---------- the arrays and the index after a batch ----------

  /** The rows a batch adds. */
  function NewRows(docs: seq<Prepared>): seq<Row>
    requires forall p :: p in docs ==> |p.vecs| == |p.chunks|
  {
    if |docs| == 0 then []
    else
      var p := docs[|docs| - 1];
      NewRows(docs[..|docs| - 1]) + RowsOf(p.chunks, p.vecs, p.vecs)
  }

  lemma NewRowsSnoc(docs: seq<Prepared>, p: Prepared)
    requires forall q :: q in docs + [p] ==> |q.vecs| == |q.chunks|
    ensures forall q :: q in docs ==> |q.vecs| == |q.chunks|
    ensures NewRows(docs + [p]) == NewRows(docs) + RowsOf(p.chunks, p.vecs, p.vecs)
    ensures IdsOf(docs + [p]) == IdsOf(docs) + {p.id}
  {
    assert forall q :: q in docs + [p] <==> q in docs || q == p;
    assert (docs + [p])[..|docs|] == docs;
  }

  lemma {:induction false} NewRowsDocs(docs: seq<Prepared>)
    requires AllOk(docs)
    ensures forall r :: r in NewRows(docs) ==> r.chunk.docId in IdsOf(docs)
  {
    if |docs| > 0 {
      var front, p := docs[..|docs| - 1], docs[|docs| - 1];
      AllOkParts(docs);
      NewRowsDocs(front);
      assert docs == front + [p];
      NewRowsSnoc(front, p);
      hide NewRows, IdsOf;
    }
  }

  /** t holds the rows of o without those of the documents replaced, and then the new ones. */
  ghost predicate RowsAfter(o: State, fit: seq<Prepared>, t: State) {
    && Parallel(o) && Parallel(t) && AllOk(fit)
    && Rows(t) == Rest(Rows(o), IdsOf(fit)) + NewRows(fit)
  }

  /** What an applied document does to the rows, whichever way it is added. */
  lemma AppliedRows(unit: Vec -> Vec, t: State, p: Prepared)
    requires Parallel(t) && |p.vecs| == |p.chunks|
    ensures Parallel(Recorded(AppendedArrays(Removed(t, p.id), p.chunks, p.vecs), p.id, p.hash))
    ensures Parallel(Recorded(AppendedArrays(t, p.chunks, p.vecs), p.id, p.hash))
    ensures t.hnsw.Some? ==> Parallel(Recorded(Appended(unit, t, p.chunks, p.vecs), p.id, p.hash))
    ensures Rows(Recorded(AppendedArrays(Removed(t, p.id), p.chunks, p.vecs), p.id, p.hash))
         == Rest(Rows(t), {p.id}) + RowsOf(p.chunks, p.vecs, p.vecs)
    ensures Rows(Recorded(AppendedArrays(t, p.chunks, p.vecs), p.id, p.hash)) == Rows(t) + RowsOf(p.chunks, p.vecs, p.vecs)
    ensures t.hnsw.Some? ==>
              Rows(Recorded(Appended(unit, t, p.chunks, p.vecs), p.id, p.hash)) == Rows(t) + RowsOf(p.chunks, p.vecs, p.vecs)
  {
    RemovedRows(t, p.id);
    var r := Removed(t, p.id);
    hide Removed, Rest, RowsOf, Ids, Units, Entries;
    RowsConcat(r.chunks, p.chunks, r.embeds, p.vecs, r.truth, p.vecs);
    RowsConcat(t.chunks, p.chunks, t.embeds, p.vecs, t.truth, p.vecs);
  }

  /** The rows after a replacing document. */
  lemma UpdatedRows(unit: Vec -> Vec, o: State, fit: seq<Prepared>, t: State, p: Prepared)
    requires RowsAfter(o, fit, t) && AllOk(fit + [p]) && p.id !in IdsOf(fit)
    ensures PreparedOk(p) && RowsAfter(o, fit + [p], Recorded(AppendedArrays(Removed(t, p.id), p.chunks, p.vecs), p.id, p.hash))
  {
    hide *;
    RowsAfterParts(o, fit, t);
    LastOk(fit, p);
    NewRowsDocs(fit);
    NewRowsSnoc(fit, p);
    AppliedRows(unit, t, p);
    var old_, new_, more := Rest(Rows(o), IdsOf(fit)), NewRows(fit), RowsOf(p.chunks, p.vecs, p.vecs);
    RestConcat(old_, new_, {p.id});
    RestTwice(Rows(o), IdsOf(fit), {p.id});
    RestWhole(new_, {p.id});
    Associate(Rest(Rows(o), IdsOf(fit) + {p.id}), new_, more);
    RowsAfterFrom(o, fit + [p], Recorded(AppendedArrays(Removed(t, p.id), p.chunks, p.vecs), p.id, p.hash));
  }

  lemma RowsAfterParts(o: State, fit: seq<Prepared>, t: State)
    requires RowsAfter(o, fit, t)
    ensures Parallel(o) && Parallel(t) && AllOk(fit) && (forall p :: p in fit ==> |p.vecs| == |p.chunks|)
    ensures Rows(t) == Rest(Rows(o), IdsOf(fit)) + NewRows(fit)
  {
    hide Rows, Rest, NewRows, IdsOf;
  }

  lemma RowsAfterFrom(o: State, fit: seq<Prepared>, t: State)
    requires Parallel(o) && AllOk(fit) && (forall p :: p in fit ==> |p.vecs| == |p.chunks|)
    requires Parallel(t) && Rows(t) == Rest(Rows(o), IdsOf(fit)) + NewRows(fit)
    ensures RowsAfter(o, fit, t)
  {
    hide Rows, Rest, NewRows, IdsOf;
  }

  /** The rows after a new document. */
  lemma ExtendedRows(unit: Vec -> Vec, o: State, fit: seq<Prepared>, t: State, p: Prepared)
    requires RowsAfter(o, fit, t) && AllOk(fit + [p]) && p.id !in DocIds(o.chunks)
    ensures PreparedOk(p) && RowsAfter(o, fit + [p], Recorded(AppendedArrays(t, p.chunks, p.vecs), p.id, p.hash))
    ensures t.hnsw.Some? ==> RowsAfter(o, fit + [p], Recorded(Appended(unit, t, p.chunks, p.vecs), p.id, p.hash))
  {
    hide *;
    RowsAfterParts(o, fit, t);
    LastOk(fit, p);
    NewRowsSnoc(fit, p);
    AppliedRows(unit, t, p);
    NotAmong(o, p.id, IdsOf(fit));
    RestBy(Rows(o), IdsOf(fit), IdsOf(fit) + {p.id});
    Associate(Rest(Rows(o), IdsOf(fit)), NewRows(fit), RowsOf(p.chunks, p.vecs, p.vecs));
    RowsAfterFrom(o, fit + [p], Recorded(AppendedArrays(t, p.chunks, p.vecs), p.id, p.hash));
    if t.hnsw.Some? {
      RowsAfterFrom(o, fit + [p], Recorded(Appended(unit, t, p.chunks, p.vecs), p.id, p.hash));
    }
  }

  lemma LastOk(fit: seq<Prepared>, p: Prepared)
    requires AllOk(fit + [p])
    ensures AllOk(fit) && PreparedOk(p) && |p.vecs| == |p.chunks|
    ensures forall q :: q in fit + [p] ==> |q.vecs| == |q.chunks|
  {
    assert forall q :: q in fit + [p] <==> q in fit || q == p;
  }

  lemma NotAmong(o: State, id: string, docs: set<string>)
    requires Parallel(o) && id !in DocIds(o.chunks)
    ensures forall r :: r in Rows(o) ==> (r.chunk.docId in docs <==> r.chunk.docId in docs + {id})
  {
    assert forall c :: c in o.chunks ==> c.docId in DocIds(o.chunks);
    forall r | r in Rows(o) ensures r.chunk.docId in docs <==> r.chunk.docId in docs + {id} {
      assert r.chunk in o.chunks;
    }
  }

  /** Index g is h with these chunks behind it. */
  ghost predicate Grown(unit: Vec -> Vec, h: Index, chunks: seq<Passage>, vecs: seq<Vec>, g: Index) {
    g.ids == h.ids + Ids(chunks) && g.vecs == h.vecs + Units(unit, vecs) && g.built == h.built + Ids(chunks)
  }

  lemma GrownTwice(unit: Vec -> Vec, h: Index, a: seq<Passage>, v: seq<Vec>, g: Index, b: seq<Passage>, w: seq<Vec>, f: Index)
    requires Grown(unit, h, a, v, g) && Grown(unit, g, b, w, f)
    ensures Grown(unit, h, a + b, v + w, f)
  {
    ViewsConcat(unit, a, b, v, w);
    hide Ids, Units, Entries;
  }

  /** The index of t has grown by the documents that reached it. */
  ghost predicate IndexAfter(unit: Vec -> Vec, o: State, fit: seq<Prepared>, t: State) {
    && o.hnsw.Some? && t.hnsw.Some?
    && Grown(unit, o.hnsw.value, AllChunks(Indexed(o, fit)), AllVecs(Indexed(o, fit)), t.hnsw.value)
  }

  ghost predicate FlagsAfter(o: State, fit: seq<Prepared>, t: State) {
    && t.needsRebuild == (o.needsRebuild || Replaces(o.docSet, fit))
    && t.deferIndex == o.deferIndex && t.dim == o.dim && t.docSet == o.docSet + IdsOf(fit)
    && forall h :: h in t.hashes ==> h in o.hashes || HasHash(fit, h)
  }

  ghost predicate HasHash(docs: seq<Prepared>, h: Hash) { exists p :: p in docs && p.hash == h }

  lemma FitsIsApplies(unit: Vec -> Vec, t: State, p: Prepared)
    requires Valid(unit, t) && t.hnsw.Some? && PreparedOk(p) && |p.chunks| > 0 && p.hash !in t.hashes
    ensures Applies(t, p) <==> |p.vecs| > 0 && |p.vecs[0]| == t.dim
  {
    assert p.id in t.idHash ==> t.idHash[p.id] in t.hashes;
  }

  lemma AllSnoc(docs: seq<Prepared>, p: Prepared)
    ensures AllChunks(docs + [p]) == AllChunks(docs) + p.chunks && AllVecs(docs + [p]) == AllVecs(docs) + p.vecs
  {
    assert (docs + [p])[..|docs|] == docs;
  }

  lemma ReplacesSnoc(o: State, fit: seq<Prepared>, p: Prepared)
    ensures Replaces(o.docSet, fit + [p]) <==> Replaces(o.docSet, fit) || p.id in o.docSet
    ensures Indexed(o, fit + [p])
         == Indexed(o, fit) + if !o.needsRebuild && !Replaces(o.docSet, fit) && p.id !in o.docSet then [p] else []
    ensures forall h :: HasHash(fit + [p], h) <==> HasHash(fit, h) || p.hash == h
  {
    assert forall q :: q in fit + [p] <==> q in fit || q == p;
    assert (fit + [p])[..|fit|] == fit;
    BeforeReplacingIs(o.docSet, fit);
  }

  /** A replacing document leaves the index alone and flags it. */
  lemma UpdatedIndex(unit: Vec -> Vec, o: State, fit: seq<Prepared>, t: State, p: Prepared)
    requires IndexOk(unit, t) && IndexAfter(unit, o, fit, t) && FlagsAfter(o, fit, t) && p.id in o.docSet
    requires PreparedOk(p) && |p.chunks| > 0
    ensures var r := Recorded(AppendedArrays(Removed(t, p.id), p.chunks, p.vecs), p.id, p.hash);
            IndexAfter(unit, o, fit + [p], r) && FlagsAfter(o, fit + [p], r)
  {
    ReplacesSnoc(o, fit, p);
    NewIds(fit, p);
    UpdatedIs(unit, t, p);
    hide Grown, Ids, Units, AllChunks, AllVecs, Indexed, Replaces, HasHash, IdsOf, IndexOk, PreparedOk, Recorded,
      AppendedArrays, Removed;
    assert Indexed(o, fit) + [] == Indexed(o, fit);
  }

  lemma UpdatedIs(unit: Vec -> Vec, t: State, p: Prepared)
    requires IndexOk(unit, t) && |p.vecs| == |p.chunks|
    ensures var r := Recorded(AppendedArrays(Removed(t, p.id), p.chunks, p.vecs), p.id, p.hash);
            && r.hnsw == t.hnsw && r.deferIndex == t.deferIndex && r.dim == t.dim
            && r.needsRebuild == (t.needsRebuild || p.id in t.docSet)
            && r.docSet == t.docSet - {p.id} + (set c | c in p.chunks :: c.docId)
            && forall h :: h in r.hashes ==> h in t.hashes || h == p.hash
  {
    RemovedOk(unit, t, p.id);
    RemovedFacts(unit, t, p.id);
    hide Removed, IndexOk;
  }

  lemma RemovedFacts(unit: Vec -> Vec, t: State, id: string)
    requires IndexOk(unit, t)
    ensures var r := Removed(t, id);
            && r.hnsw == t.hnsw && r.deferIndex == t.deferIndex && r.dim == t.dim
            && (id !in t.docSet ==> r.needsRebuild == t.needsRebuild)
            && forall h :: h in r.hashes ==> h in t.hashes
  {
    if id !in t.docSet {
      RemovedNothing(t, id);
    }
    hide Without, DocIds, InOrder;
  }

  lemma NewIds(fit: seq<Prepared>, p: Prepared)
    requires PreparedOk(p) && |p.chunks| > 0
    ensures IdsOf(fit + [p]) == IdsOf(fit) + {p.id} && (set c | c in p.chunks :: c.docId) == {p.id}
  {
    assert forall q :: q in fit + [p] <==> q in fit || q == p;
    assert p.chunks[0] in p.chunks;
  }

  /** Behind a pending rebuild a new document does not reach the index. */
  lemma PendingIndex(unit: Vec -> Vec, o: State, fit: seq<Prepared>, t: State, p: Prepared)
    requires IndexAfter(unit, o, fit, t) && FlagsAfter(o, fit, t) && p.id !in o.docSet && t.needsRebuild
    requires PreparedOk(p) && |p.chunks| > 0
    ensures var r := Recorded(AppendedArrays(t, p.chunks, p.vecs), p.id, p.hash);
            IndexAfter(unit, o, fit + [p], r) && FlagsAfter(o, fit + [p], r)
  {
    ReplacesSnoc(o, fit, p);
    NewIds(fit, p);
    hide Grown, Ids, Units, AllChunks, AllVecs, Indexed, Replaces, HasHash, IdsOf, PreparedOk;
    assert Indexed(o, fit) + [] == Indexed(o, fit);
  }

  /** Without one it does. */
  lemma ExtendedIndex(unit: Vec -> Vec, o: State, fit: seq<Prepared>, t: State, p: Prepared)
    requires IndexAfter(unit, o, fit, t) && FlagsAfter(o, fit, t) && p.id !in o.docSet && !t.needsRebuild
    requires PreparedOk(p) && |p.chunks| > 0
    ensures var r := Recorded(Appended(unit, t, p.chunks, p.vecs), p.id, p.hash);
            IndexAfter(unit, o, fit + [p], r) && FlagsAfter(o, fit + [p], r)
  {
    ReplacesSnoc(o, fit, p);
    NewIds(fit, p);
    var pre := Indexed(o, fit);
    AllSnoc(pre, p);
    ExtendedIs(unit, t, p);
    var r := Recorded(Appended(unit, t, p.chunks, p.vecs), p.id, p.hash);
    GrownTwice(unit, o.hnsw.value, AllChunks(pre), AllVecs(pre), t.hnsw.value, p.chunks, p.vecs, r.hnsw.value);
    hide Grown, Ids, Units, AllChunks, AllVecs, Indexed, Replaces, HasHash, IdsOf, PreparedOk, Recorded, Appended;
  }

  lemma ExtendedIs(unit: Vec -> Vec, t: State, p: Prepared)
    requires t.hnsw.Some? && |p.vecs| == |p.chunks|
    ensures var r := Recorded(Appended(unit, t, p.chunks, p.vecs), p.id, p.hash);
            && r.hnsw.Some? && Grown(unit, t.hnsw.value, p.chunks, p.vecs, r.hnsw.value)
            && r.needsRebuild == t.needsRebuild && r.deferIndex == t.deferIndex && r.dim == t.dim
            && r.docSet == (t.docSet + set c | c in p.chunks :: c.docId) && r.hashes == t.hashes[p.hash := p.id]
  {
    hide Ids, Units, Entries;
  }

  /** The whole state after a batch. */
  ghost predicate BatchAfter(unit: Vec -> Vec, o: State, fit: seq<Prepared>, t: State) {
    RowsAfter(o, fit, t) && IndexAfter(unit, o, fit, t) && FlagsAfter(o, fit, t)
  }

  lemma StepAfter(unit: Vec -> Vec, o: State, fit: seq<Prepared>, t: State, p: Prepared)
    requires Valid(unit, o) && Valid(unit, t) && BatchAfter(unit, o, fit, t) && AllOk(fit + [p])
    requires |p.chunks| == |p.vecs| > 0 && |p.vecs[0]| == o.dim && p.id !in IdsOf(fit) && Applies(t, p)
    ensures |p.vecs| == |p.chunks| && Parallel(t) && BatchAfter(unit, o, fit + [p], Applied(unit, t, p))
  {
    LastOk(fit, p);
    ValidParts(unit, o);
    ValidParts(unit, t);
    DocSetIs(unit, o);
    hide RowsAfter, IndexAfter, AllOk, Valid, IndexOk, BooksOk, Applies, Removed, Appended, AppendedArrays, Recorded, IdsOf,
      Replaces, HasHash, DocIds, PreparedOk, Parallel, Shape;
    if p.id in o.docSet {
      UpdatedRows(unit, o, fit, t, p);
      UpdatedIndex(unit, o, fit, t, p);
    } else {
      ExtendedRows(unit, o, fit, t, p);
      if t.needsRebuild {
        PendingIndex(unit, o, fit, t, p);
      } else {
        ExtendedIndex(unit, o, fit, t, p);
      }
    }
    AppliedForm(unit, t, p);
  }

  lemma DocSetIs(unit: Vec -> Vec, o: State)
    requires Valid(unit, o)
    ensures o.docSet == DocIds(o.chunks)
  {
    hide DocIds, Shape, InOrder, BooksOk, Agrees;
  }

  lemma AppliedForm(unit: Vec -> Vec, t: State, p: Prepared)
    requires Parallel(t) && t.hnsw.Some? && |p.vecs| == |p.chunks| > 0 && Applies(t, p)
    ensures Applied(unit, t, p) ==
            Recorded(
              if p.id in t.docSet then AppendedArrays(Removed(t, p.id), p.chunks, p.vecs)
              else if t.needsRebuild then AppendedArrays(t, p.chunks, p.vecs)
              else Appended(unit, t, p.chunks, p.vecs),
              p.id, p.hash)
  {
    hide Removed, Appended, AppendedArrays, Recorded, Applies;
  }

  /** An empty batch. */
  lemma NothingAfter(unit: Vec -> Vec, o: State)
    requires Valid(unit, o) && o.hnsw.Some?
    ensures BatchAfter(unit, o, [], o)
  {
    ValidParts(unit, o);
    NoRowsAfter(o);
    NoneIndexed(unit, o);
    NoFlagsAfter(o);
    hide *;
    BatchAfterFrom(unit, o, [], o);
  }

  lemma BatchAfterFrom(unit: Vec -> Vec, o: State, fit: seq<Prepared>, t: State)
    requires RowsAfter(o, fit, t) && IndexAfter(unit, o, fit, t) && FlagsAfter(o, fit, t)
    ensures BatchAfter(unit, o, fit, t)
  {
  }

  lemma NoRowsAfter(o: State)
    requires Parallel(o)
    ensures RowsAfter(o, [], o)
  {
    assert IdsOf([]) == {};
    RestWhole(Rows(o), {});
    hide Rest, Rows, IdsOf;
    assert Rows(o) + [] == Rows(o);
  }

  lemma NoneIndexed(unit: Vec -> Vec, o: State)
    requires o.hnsw.Some?
    ensures IndexAfter(unit, o, [], o)
  {
    assert Indexed(o, []) == [];
    assert AllChunks([]) == [] && AllVecs([]) == [];
  }

  lemma NoFlagsAfter(o: State)
    ensures FlagsAfter(o, [], o)
  {
    assert IdsOf([]) == {};
    hide IdsOf;
  }

  /** The next document of a batch is new. */
  lemma NextIsNew(unit: Vec -> Vec, o: State, docs: seq<Prepared>, fit: seq<Prepared>, t: State)
    requires NewBatch(o.hashes, docs) && |docs| > 0 && FlagsAfter(o, fit, t)
    requires forall p :: p in fit ==> p in docs[..|docs| - 1]
    ensures var p := docs[|docs| - 1]; p.hash !in t.hashes && p.id !in IdsOf(fit) && |p.chunks| > 0
    ensures NewBatch(o.hashes, docs[..|docs| - 1])
  {
    var n, p := |docs| - 1, docs[|docs| - 1];
    assert p in docs;
    forall q | q in fit ensures q.hash != p.hash && q.id != p.id {
      assert q in docs[..n];
      var i :| 0 <= i < n && docs[i] == q;
    }
  }

  /** The whole batch, in closed form. */
  lemma {:induction false} AppliedAllAfter(unit: Vec -> Vec, o: State, docs: seq<Prepared>)
    requires Normalizes(unit) && Valid(unit, o) && o.hnsw.Some? && AllOk(docs) && NewBatch(o.hashes, docs)
    ensures BatchAfter(unit, o, Fitting(o.dim, docs), AppliedAll(unit, o, docs))
    ensures AnyApplies(unit, o, docs) <==> Fitting(o.dim, docs) != []
  {
    hide Valid, Normalizes, PreparedOk, Applied, Applies, RowsAfter, IndexAfter;
    ValidParts(unit, o);
    if |docs| == 0 {
      NothingAfter(unit, o);
    } else {
      var front, p := docs[..|docs| - 1], docs[|docs| - 1];
      AllOkParts(docs);
      SmallerBatch(o.hashes, docs);
      AppliedAllAfter(unit, o, front);
      AppliedAllOk(unit, o, front);
      NextAfter(unit, o, docs, Fitting(o.dim, front), AppliedAll(unit, o, front));
    }
  }

  lemma SmallerBatch(hashes: map<Hash, string>, docs: seq<Prepared>)
    requires NewBatch(hashes, docs) && |docs| > 0
    ensures NewBatch(hashes, docs[..|docs| - 1])
  {
  }

  lemma NextAfter(unit: Vec -> Vec, o: State, docs: seq<Prepared>, fit: seq<Prepared>, t: State)
    requires Normalizes(unit) && Valid(unit, o) && Valid(unit, t) && o.hnsw.Some? && AllOk(docs) && |docs| > 0
    requires NewBatch(o.hashes, docs) && BatchAfter(unit, o, fit, t) && forall p :: p in fit ==> p in docs[..|docs| - 1]
    ensures var p := docs[|docs| - 1];
            var fits := |p.vecs| > 0 && |p.vecs[0]| == o.dim;
            && Parallel(t) && |p.vecs| == |p.chunks|
            && (Applies(t, p) <==> fits)
            && BatchAfter(unit, o, if fits then fit + [p] else fit, Applied(unit, t, p))
  {
    var p := docs[|docs| - 1];
    AllOkParts(docs);
    ValidParts(unit, t);
    NextIsNew(unit, o, docs, fit, t);
    HasIndex(unit, o, fit, t);
    FitsIsApplies(unit, t, p);
    if |p.vecs| > 0 && |p.vecs[0]| == o.dim {
      FitIsOk(docs, fit);
      StepAfter(unit, o, fit, t, p);
    } else {
      NotApplied(unit, t, p);
    }
    hide *;
  }

  lemma HasIndex(unit: Vec -> Vec, o: State, fit: seq<Prepared>, t: State)
    requires BatchAfter(unit, o, fit, t)
    ensures t.hnsw.Some? && t.dim == o.dim && FlagsAfter(o, fit, t)
  {
    hide RowsAfter, Replaces, IdsOf, HasHash, Grown;
  }

  lemma FitIsOk(docs: seq<Prepared>, fit: seq<Prepared>)
    requires AllOk(docs) && |docs| > 0 && forall p :: p in fit ==> p in docs[..|docs| - 1]
    ensures AllOk(fit + [docs[|docs| - 1]])
  {
    hide PreparedOk;
    assert forall p :: p in docs[..|docs| - 1] ==> p in docs;
    assert docs[|docs| - 1] in docs;
  }

  lemma NotApplied(unit: Vec -> Vec, t: State, p: Prepared)
    requires Parallel(t) && t.hnsw.Some? && |p.vecs| == |p.chunks| && !Applies(t, p)
    ensures Applied(unit, t, p) == t
  {
    hide Applies;
  }

  // ---------- the batch of AddDocuments ----------

  /** The documents AddDocuments goes on with. */
  function Batch(s: State, docs: seq<Prepared>): seq<Prepared> { WithChunks(Offered(s.hashes, docs)) }

  lemma {:induction false} OfferedIsNew(hashes: map<Hash, string>, docs: seq<Prepared>)
    ensures var r := Offered(hashes, docs);
            (forall p :: p in r ==> p.hash !in hashes) && Unlike(r)
  {
    if |docs| > 0 {
      var front, d := docs[..|docs| - 1], docs[|docs| - 1];
      OfferedIsNew(hashes, front);
      var rest := Offered(hashes, front);
      hide Unlike;
      if !(d.hash in hashes || exists p :: p in rest && (p.hash == d.hash || p.id == d.id)) {
        UnlikeSnoc(rest, d);
      }
    }
  }

  lemma {:induction false} WithChunksIsNew(hashes: map<Hash, string>, docs: seq<Prepared>)
    requires (forall p :: p in docs ==> p.hash !in hashes) && Unlike(docs)
    ensures NewBatch(hashes, WithChunks(docs))
  {
    if |docs| > 0 {
      var n := |docs| - 1;
      WithChunksIsNew(hashes, docs[..n]);
      var rest := WithChunks(docs[..n]);
      forall p | p in rest ensures p.id != docs[n].id && p.hash != docs[n].hash {
        assert p in docs[..n];
        var j :| 0 <= j < n && docs[j] == p;
      }
      hide Unlike;
      UnlikeSnoc(rest, docs[n]);
    }
  }

  lemma BatchIsNew(s: State, docs: seq<Prepared>)
    requires AllOk(docs)
    ensures AllOk(Batch(s, docs)) && NewBatch(s.hashes, Batch(s, docs))
  {
    BatchOk(s.hashes, docs);
    OfferedIsNew(s.hashes, docs);
    WithChunksIsNew(s.hashes, Offered(s.hashes, docs));
    hide Offered, WithChunks, AllOk, NewBatch;
  }

  /** Applying a batch to a store without an index opens it first. */
  lemma {:induction false} OpenFirst(unit: Vec -> Vec, s: State, docs: seq<Prepared>)
    requires AllOk(docs) && |docs| > 0 && |docs[0].chunks| > 0 && Parallel(s) && s.hnsw.None?
    requires forall p :: p in docs ==> |p.vecs| == |p.chunks|
    ensures |docs[0].vecs| > 0 && Parallel(Opened(s, docs[0]))
    ensures AppliedAll(unit, s, docs) == AppliedAll(unit, Opened(s, docs[0]), docs)
    ensures AnyApplies(unit, s, docs) == AnyApplies(unit, Opened(s, docs[0]), docs)
    decreases |docs|
  {
    var n, p := |docs| - 1, docs[0];
    assert p in docs;
    var o := Opened(s, p);
    assert Opened(o, p) == o && Parallel(o);
    if n == 0 {
      assert docs[..0] == [];
      assert Applies(s, p) == Applies(o, p);
      AppliedOnce(unit, s, docs);
      AppliedOnce(unit, o, docs);
      hide Applies, Recorded, Removed, Appended, AppendedArrays, Fresh;
    } else {
      AllOkParts(docs);
      assert docs[..n][0] == p;
      OpenFirst(unit, s, docs[..n]);
      hide Applied, Applies, PreparedOk;
    }
  }

  lemma AppliedOnce(unit: Vec -> Vec, s: State, docs: seq<Prepared>)
    requires Parallel(s) && |docs| == 1 && forall p :: p in docs ==> |p.vecs| == |p.chunks|
    ensures docs[0] in docs && AppliedAll(unit, s, docs) == Applied(unit, s, docs[0])
    ensures AnyApplies(unit, s, docs) == Applies(s, docs[0])
  {
    assert docs[..0] == [];
    assert AppliedAll(unit, s, []) == s && !AnyApplies(unit, s, []);
    hide Applied, Applies;
  }
}
