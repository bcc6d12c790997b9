/** The store object of rag/store.go, rag/update.go, rag/merge.go and rag/persist.go:
    every method leaves exactly the state that StoreStates describes. */
module Stores {
  import opened Vectors
  import opened Orders
  import opened StoreStates
  import opened StoreLaws
  import opened StoreRuns
  import StoreEffects

  // ---------- steps of the loops ----------

  lemma AppendedNone(unit: Vec -> Vec, s: State)
    requires s.hnsw.Some?
    ensures Appended(unit, s, [], []) == s
  {
    var a := Appended(unit, s, [], []);
    assert a.chunks == s.chunks && a.embeds == s.embeds && a.truth == s.truth && a.docSet == s.docSet && a.lex == s.lex;
    assert a.hnsw.value.ids == s.hnsw.value.ids && a.hnsw.value.vecs == s.hnsw.value.vecs && a.hnsw.value.built == s.hnsw.value.built;
  }

  lemma AppendedArraysNone(s: State)
    ensures AppendedArrays(s, [], []) == s
  {
    var a := AppendedArrays(s, [], []);
    assert a.chunks == s.chunks && a.embeds == s.embeds && a.truth == s.truth && a.docSet == s.docSet;
  }

  function IndexAdd(unit: Vec -> Vec, h: Index, id: string, v: Vec): Index {
    Index(h.ids + [id], h.vecs + [unit(v)], h.built + [id])
  }

  lemma AppendedArraysNext(s: State, chunks: seq<Passage>, vecs: seq<Vec>, i: nat)
    requires i < |chunks| == |vecs|
    ensures var a := AppendedArrays(s, chunks[..i], vecs[..i]);
            (AppendedArrays(s, chunks[..i + 1], vecs[..i + 1])
             == a.(chunks := a.chunks + [chunks[i]], embeds := a.embeds + [vecs[i]], truth := a.truth + [vecs[i]],
                   docSet := a.docSet + {chunks[i].docId}))
  {
    assert chunks[..i + 1] == chunks[..i] + [chunks[i]] && vecs[..i + 1] == vecs[..i] + [vecs[i]];
    DocIdsConcat(chunks[..i], [chunks[i]]);
    DocIdsIs(chunks[..i]);
    DocIdsIs(chunks[..i + 1]);
    assert DocIds([chunks[i]]) == {chunks[i].docId};
    hide DocIds;
    var a, b := AppendedArrays(s, chunks[..i], vecs[..i]), AppendedArrays(s, chunks[..i + 1], vecs[..i + 1]);
    assert b.chunks == a.chunks + [chunks[i]] && b.embeds == a.embeds + [vecs[i]] && b.truth == a.truth + [vecs[i]];
    assert b.docSet == a.docSet + {chunks[i].docId};
  }

  /** The derived half of an append. */
  ghost function Indexed(unit: Vec -> Vec, s: State, chunks: seq<Passage>, vecs: seq<Vec>): State
    requires s.hnsw.Some? && |vecs| == |chunks|
  {
    var h := s.hnsw.value;
    s.(hnsw := Some(Index(h.ids + Ids(chunks), h.vecs + Units(unit, vecs), h.built + Ids(chunks))),
       lex := s.lex + Entries(chunks))
  }

  lemma IndexedNext(unit: Vec -> Vec, s: State, chunks: seq<Passage>, vecs: seq<Vec>, i: nat)
    requires s.hnsw.Some? && i < |chunks| == |vecs|
    ensures var a := Indexed(unit, s, chunks[..i], vecs[..i]);
            (Indexed(unit, s, chunks[..i + 1], vecs[..i + 1])
             == a.(hnsw := Some(IndexAdd(unit, a.hnsw.value, Id(chunks[i]), vecs[i])),
                   lex := a.lex + [(Id(chunks[i]), chunks[i].text)]))
  {
    ViewsConcat(unit, chunks[..i], [chunks[i]], vecs[..i], [vecs[i]]);
    assert chunks[..i + 1] == chunks[..i] + [chunks[i]] && vecs[..i + 1] == vecs[..i] + [vecs[i]];
    assert Ids([chunks[i]]) == [Id(chunks[i])] && Entries([chunks[i]]) == [(Id(chunks[i]), chunks[i].text)];
    assert Units(unit, [vecs[i]]) == [unit(vecs[i])];
    hide Ids, Entries, Units, Id;
    var h := s.hnsw.value;
    assert h.ids + (Ids(chunks[..i]) + [Id(chunks[i])]) == (h.ids + Ids(chunks[..i])) + [Id(chunks[i])];
    assert h.built + (Ids(chunks[..i]) + [Id(chunks[i])]) == (h.built + Ids(chunks[..i])) + [Id(chunks[i])];
    assert h.vecs + (Units(unit, vecs[..i]) + [unit(vecs[i])]) == (h.vecs + Units(unit, vecs[..i])) + [unit(vecs[i])];
    assert s.lex + (Entries(chunks[..i]) + [(Id(chunks[i]), chunks[i].text)])
        == (s.lex + Entries(chunks[..i])) + [(Id(chunks[i]), chunks[i].text)];
  }

  lemma AppendedIs(unit: Vec -> Vec, s: State, chunks: seq<Passage>, vecs: seq<Vec>)
    requires s.hnsw.Some? && |vecs| == |chunks|
    ensures Appended(unit, s, chunks, vecs) == AppendedArrays(Indexed(unit, s, chunks, vecs), chunks, vecs)
  {
  }

  /** The step of the append loop. */
  lemma AppendedNext(unit: Vec -> Vec, s: State, chunks: seq<Passage>, vecs: seq<Vec>, i: nat)
    requires s.hnsw.Some? && i < |chunks| == |vecs|
    ensures var a := Appended(unit, s, chunks[..i], vecs[..i]);
            && a.hnsw.Some?
            && (Appended(unit, s, chunks[..i + 1], vecs[..i + 1])
                == a.(hnsw := Some(IndexAdd(unit, a.hnsw.value, Id(chunks[i]), vecs[i])),
                      lex := a.lex + [(Id(chunks[i]), chunks[i].text)],
                      chunks := a.chunks + [chunks[i]], embeds := a.embeds + [vecs[i]], truth := a.truth + [vecs[i]],
                      docSet := a.docSet + {chunks[i].docId}))
  {
    AppendedIs(unit, s, chunks[..i], vecs[..i]);
    AppendedIs(unit, s, chunks[..i + 1], vecs[..i + 1]);
    IndexedNext(unit, s, chunks, vecs, i);
    AppendedArraysNext(s, chunks, vecs, i);
    hide Ids, Entries, Units, Id, IndexAdd;
  }

  lemma KeptNext(chunks: seq<Passage>, docs: set<string>, only: bool, i: nat)
    requires i < |chunks|
    ensures Kept(chunks, docs, only, i + 1) == Kept(chunks, docs, only, i) + if Keeps(docs, only, chunks[i]) then [i] else []
  {
  }

  /** The first n entries of now are the kept ones among the first i of was. */
  ghost predicate Compacted<T>(cs: seq<Passage>, id: string, was: seq<T>, now: seq<T>, n: nat, i: nat) {
    && i <= |cs| == |was| == |now|
    && n == |Kept(cs, {id}, false, i)|
    && (forall k :: 0 <= k < n ==> now[k] == was[Kept(cs, {id}, false, i)[k]])
    && (forall k :: i <= k < |was| ==> now[k] == was[k])
  }

  lemma CompactedStart<T>(cs: seq<Passage>, id: string, was: seq<T>)
    requires |was| == |cs|
    ensures Compacted(cs, id, was, was, 0, 0)
  {
  }

  lemma CompactedNext<T>(cs: seq<Passage>, id: string, was: seq<T>, now: seq<T>, n: nat, i: nat)
    requires Compacted(cs, id, was, now, n, i) && i < |cs|
    ensures n <= i && now[i] == was[i]
    ensures cs[i].docId != id ==> Compacted(cs, id, was, now[n := now[i]], n + 1, i + 1)
    ensures cs[i].docId == id ==> Compacted(cs, id, was, now, n, i + 1)
  {
    KeptNext(cs, {id}, false, i);
    hide Kept;
  }

  lemma CompactedDone<T>(cs: seq<Passage>, id: string, was: seq<T>, now: seq<T>, n: nat)
    requires Compacted(cs, id, was, now, n, |cs|)
    ensures n <= |now| && now[..n] == Without(cs, was, id)
  {
    hide Kept;
  }

  /** The index over some chunks, in order. */
  ghost function IndexOf(unit: Vec -> Vec, chunks: seq<Passage>, embeds: seq<Vec>): Index {
    Index(Ids(chunks), Units(unit, embeds), Ids(chunks))
  }

  lemma IndexOfNone(unit: Vec -> Vec, chunks: seq<Passage>, embeds: seq<Vec>)
    ensures IndexOf(unit, chunks[..0], embeds[..0]) == Index([], [], [])
  {
  }

  lemma IndexOfNext(unit: Vec -> Vec, chunks: seq<Passage>, embeds: seq<Vec>, i: nat)
    requires i < |chunks| == |embeds|
    ensures IndexOf(unit, chunks[..i + 1], embeds[..i + 1])
         == IndexAdd(unit, IndexOf(unit, chunks[..i], embeds[..i]), Id(chunks[i]), embeds[i])
  {
    ViewsConcat(unit, chunks[..i], [chunks[i]], embeds[..i], [embeds[i]]);
    assert chunks[..i + 1] == chunks[..i] + [chunks[i]] && embeds[..i + 1] == embeds[..i] + [embeds[i]];
    hide Id;
    assert Ids([chunks[i]]) == [Id(chunks[i])] && Units(unit, [embeds[i]]) == [unit(embeds[i])];
  }

  /** The books of one more document of a merge. */
  lemma BookedNext(t: State, src: State, done: set<string>, id: string)
    requires Inverse(src.hashes, src.idHash) && id in src.idHash && id !in done
    ensures var b := Booked(t, src, done);
            (Booked(t, src, done + {id})
             == b.(hashes := b.hashes[src.idHash[id] := id], idHash := b.idHash[id := src.idHash[id]],
                   versions := if id in src.versions then b.versions[id := src.versions[id]] else b.versions))
  {
    HashesNext(t.hashes, src, done, id);
    IdHashNext(t.idHash, src, done, id);
    VersionsNext(t.versions, src, done, id);
    hide Inverse;
  }

  lemma HashesNext(m: map<Hash, string>, src: State, done: set<string>, id: string)
    requires Inverse(src.hashes, src.idHash) && id in src.idHash && id !in done
    ensures m + (map h | h in src.hashes && src.hashes[h] in done + {id} :: src.hashes[h])
         == (m + map h | h in src.hashes && src.hashes[h] in done :: src.hashes[h])[src.idHash[id] := id]
  {
    var hash := src.idHash[id];
    assert hash in src.hashes && src.hashes[hash] == id;
    assert forall h :: h in src.hashes && src.hashes[h] == id ==> h == hash;
    hide Inverse;
  }

  lemma IdHashNext(m: map<string, Hash>, src: State, done: set<string>, id: string)
    requires id in src.idHash && id !in done
    ensures m + (map x | x in src.idHash && x in done + {id} :: src.idHash[x])
         == (m + map x | x in src.idHash && x in done :: src.idHash[x])[id := src.idHash[id]]
  {
  }

  lemma VersionsNext(m: map<string, seq<Hash>>, src: State, done: set<string>, id: string)
    requires id !in done
    ensures (m + map x | x in src.versions && x in done + {id} :: src.versions[x])
         == (var b := m + map x | x in src.versions && x in done :: src.versions[x];
             if id in src.versions then b[id := src.versions[id]] else b)
  {
  }

  lemma BookedStart(t: State, src: State)
    ensures Booked(t, src, {}) == t
  {
    BookedNothing(t, src);
  }

  ghost function ChosenTo<T>(chunks: seq<Passage>, docs: set<string>, xs: seq<T>, i: nat): seq<T>
    requires |xs| == |chunks| && i <= |chunks|
  {
    var kept := Kept(chunks, docs, true, i);
    seq(|kept|, k requires 0 <= k < |kept| => xs[kept[k]])
  }

  lemma ChosenToNext<T>(chunks: seq<Passage>, docs: set<string>, xs: seq<T>, i: nat)
    requires |xs| == |chunks| && i < |chunks|
    ensures ChosenTo(chunks, docs, xs, i + 1) == ChosenTo(chunks, docs, xs, i) + if chunks[i].docId in docs then [xs[i]] else []
  {
    KeptNext(chunks, docs, true, i);
    hide Kept;
  }

  lemma ChosenToDone<T>(chunks: seq<Passage>, docs: set<string>, xs: seq<T>)
    requires |xs| == |chunks|
    ensures ChosenTo(chunks, docs, xs, 0) == [] && ChosenTo(chunks, docs, xs, |chunks|) == Chosen(chunks, docs, true, xs)
  {
  }

  /** Copying the chunks of the documents taken. */
  method CopyTaken(chunks: seq<Passage>, vecs: seq<Vec>, take: set<string>) returns (cs: seq<Passage>, vs: seq<Vec>)
    requires |vecs| == |chunks|
    ensures cs == Chosen(chunks, take, true, chunks) && vs == Chosen(chunks, take, true, vecs)
  {
    ChosenToDone(chunks, take, chunks);
    ChosenToDone(chunks, take, vecs);
    hide *;
    cs, vs := [], [];
    for i := 0 to |chunks|
      invariant cs == ChosenTo(chunks, take, chunks, i) && vs == ChosenTo(chunks, take, vecs, i)
    {
      ChosenToNext(chunks, take, chunks, i);
      ChosenToNext(chunks, take, vecs, i);
      if chunks[i].docId in take {
        cs := cs + [chunks[i]];
        vs := vs + [vecs[i]];
      }
    }
  }

  lemma OfferedNext(hashes: map<Hash, string>, docs: seq<Prepared>, i: nat)
    requires i < |docs|
    ensures var rest := Offered(hashes, docs[..i]);
            (Offered(hashes, docs[..i + 1])
             == if docs[i].hash in hashes || exists p :: p in rest && (p.hash == docs[i].hash || p.id == docs[i].id)
                then rest else rest + [docs[i]])
    ensures Offered(hashes, docs[..0]) == []
  {
    assert docs[..i + 1][..i] == docs[..i];
  }

  lemma WithChunksNext(docs: seq<Prepared>, i: nat)
    requires i < |docs|
    ensures WithChunks(docs[..i + 1]) == WithChunks(docs[..i]) + if |docs[i].chunks| > 0 then [docs[i]] else []
  {
    assert docs[..i + 1][..i] == docs[..i];
  }

  lemma AppliedAllNext(unit: Vec -> Vec, s: State, docs: seq<Prepared>, i: nat)
    requires i < |docs| && (forall p :: p in docs ==> |p.vecs| == |p.chunks|) && Parallel(s)
    ensures AppliedAll(unit, s, docs[..i + 1]) == Applied(unit, AppliedAll(unit, s, docs[..i]), docs[i])
    ensures AnyApplies(unit, s, docs[..i + 1])
       <==> AnyApplies(unit, s, docs[..i]) || Applies(AppliedAll(unit, s, docs[..i]), docs[i])
  {
    hide Applied, Applies;
    assert docs[..i + 1][..i] == docs[..i];
  }

  lemma OfferedNone(hashes: map<Hash, string>, docs: seq<Prepared>)
    ensures Offered(hashes, docs[..0]) == []
  {
  }

  lemma WithChunksNone()
    ensures WithChunks([]) == [] && forall docs: seq<Prepared> :: WithChunks(docs[..0]) == []
  {
  }

  lemma OkShapes(docs: seq<Prepared>)
    requires AllOk(docs)
    ensures forall p :: p in docs ==> |p.vecs| == |p.chunks|
    ensures forall i :: 0 <= i < |docs| ==> |docs[i].vecs| == |docs[i].chunks|
    ensures forall i, k :: 0 <= i < |docs| && 0 <= k < |docs[i].vecs| ==> |docs[i].vecs[k]| == |docs[i].vecs[0]|
  {
    forall i, k | 0 <= i < |docs| && 0 <= k < |docs[i].vecs| ensures |docs[i].vecs[k]| == |docs[i].vecs[0]| {
      assert PreparedOk(docs[i]);
    }
  }

  lemma MergeShapes(unit: Vec -> Vec, t: State, s: State)
    requires Valid(unit, s)
    ensures Inverse(s.hashes, s.idHash) && |s.embeds| == |s.chunks|
    ensures Take(t, s) <= s.idHash.Keys
    ensures forall i :: 0 <= i < |TakenVecs(t, s)| ==> |TakenVecs(t, s)[i]| == s.dim
  {
    ChosenDims(t, s, Take(t, s));
    hide Histories, InOrder, DocIds, Chosen, Agrees;
  }

  lemma EmbeddedParallel(unit: Vec -> Vec, t: State, cs: seq<Passage>, vs: seq<Vec>)
    requires Parallel(t) && |vs| == |cs| > 0 && Embedded(unit, t, cs, vs).Some?
    ensures Parallel(Embedded(unit, t, cs, vs).value)
  {
    hide Ids, Units, Entries;
  }

  lemma AppliedAllNone(unit: Vec -> Vec, s: State, docs: seq<Prepared>)
    requires Parallel(s)
    ensures AppliedAll(unit, s, docs[..0]) == s && !AnyApplies(unit, s, docs[..0])
  {
  }

  ghost function TakeOf(idHash: map<string, Hash>, hashes: map<Hash, string>, from: map<string, Hash>, done: set<string>): set<string> {
    set id | id in done && id in from && id !in idHash && from[id] !in hashes
  }

  lemma TakeOfNone(idHash: map<string, Hash>, hashes: map<Hash, string>, from: map<string, Hash>)
    ensures TakeOf(idHash, hashes, from, {}) == {}
  {
  }

  lemma TakeOfNext(idHash: map<string, Hash>, hashes: map<Hash, string>, from: map<string, Hash>, done: set<string>, id: string)
    requires id in from && id !in done
    ensures var t, n := TakeOf(idHash, hashes, from, done), TakeOf(idHash, hashes, from, done + {id});
            if id in idHash || from[id] in hashes then n == t && |done + {id} - n| == |done - t| + 1
            else n == t + {id} && |done + {id} - n| == |done - t|
  {
    var t, n := TakeOf(idHash, hashes, from, done), TakeOf(idHash, hashes, from, done + {id});
    if id in idHash || from[id] in hashes {
      assert n == t;
      assert done + {id} - n == (done - t) + {id};
    } else {
      assert n == t + {id};
      assert done + {id} - n == done - t;
    }
  }

  lemma TakeOfAll(dst: State, src: State)
    ensures TakeOf(dst.idHash, dst.hashes, src.idHash, src.idHash.Keys) == Take(dst, src)
  {
  }

  lemma MergedFromIs(unit: Vec -> Vec, dst: State, src: State)
    requires |src.embeds| == |src.chunks|
    ensures MergedFrom(unit, dst, src) ==
            if |src.chunks| == 0 then Merged(dst, 0, 0, 0)
            else if dst.dim != 0 && src.dim != 0 && dst.dim != src.dim then Refused
            else if |TakenChunks(dst, src)| > 0 && Embedded(unit, dst, TakenChunks(dst, src), TakenVecs(dst, src)).None? then Refused
            else Merged(FromTaken(unit, dst, src, Taken(unit, dst, src)),
                        |Take(dst, src)|, |TakenChunks(dst, src)|, |src.idHash.Keys - Take(dst, src)|)
  {
    hide Take, Chosen, Embedded, Ensured, Reindexed, Booked;
  }

  lemma TakenRefused(unit: Vec -> Vec, dst: State, src: State)
    requires |src.embeds| == |src.chunks|
    requires |TakenChunks(dst, src)| > 0 && Embedded(unit, dst, TakenChunks(dst, src), TakenVecs(dst, src)).None?
    ensures Taken(unit, dst, src) == dst
  {
    hide TakenChunks, TakenVecs, Embedded;
  }

  lemma BookedParallel(t: State, src: State, take: set<string>)
    requires Parallel(t)
    ensures Parallel(Booked(t, src, take))
  {
  }

  lemma FromTakenIs(unit: Vec -> Vec, dst: State, src: State)
    requires |src.embeds| == |src.chunks|
    ensures FromTaken(unit, dst, src, Taken(unit, dst, src))
         == Reindexed(unit, Ensured(unit, Booked(Taken(unit, dst, src), src, Take(dst, src))))
  {
  }

  lemma LoadedIs(snap: Snapshot)
    requires Injective(snap.hashes) && |snap.vecs| == |snap.chunks| > 0
    ensures Loaded(snap) == AppendedArrays(Fresh(EMPTY.(dim := snap.dim)).(flat := snap.vecs), snap.chunks, snap.vecs).(
              deferIndex := true, saved := snap.links,
              hashes := InverseOf(snap.hashes), idHash := snap.hashes, versions := snap.versions)
    ensures var a := AppendedArrays(Fresh(EMPTY.(dim := snap.dim)).(flat := snap.vecs), snap.chunks, snap.vecs);
            a.hashes == map[] && a.idHash == map[]
  {
    assert [] + snap.chunks == snap.chunks && [] + snap.vecs == snap.vecs;
  }

  /** The books hold the contents of the documents done. */
  ghost predicate HashesFilled(from: map<string, Hash>, done: set<string>, hashes: map<Hash, string>, idHash: map<string, Hash>) {
    && (forall h :: h in hashes ==> hashes[h] in done && hashes[h] in from && from[hashes[h]] == h)
    && (forall id :: id in done && id in from ==> from[id] in hashes)
    && (forall id :: id in idHash <==> id in done && id in from)
    && (forall id :: id in idHash && id in from ==> idHash[id] == from[id])
  }

  lemma HashesFilledNone(from: map<string, Hash>)
    ensures HashesFilled(from, {}, map[], map[])
  {
  }

  lemma HashesFilledNext(from: map<string, Hash>, done: set<string>, hashes: map<Hash, string>, idHash: map<string, Hash>, id: string)
    requires HashesFilled(from, done, hashes, idHash) && id in from
    ensures HashesFilled(from, done + {id}, hashes[from[id] := id], idHash[id := from[id]])
  {
  }

  lemma HashesFilledAll(from: map<string, Hash>, hashes: map<Hash, string>, idHash: map<string, Hash>)
    requires Injective(from) && HashesFilled(from, from.Keys, hashes, idHash)
    ensures hashes == InverseOf(from) && idHash == from
  {
    var back := InverseOf(from);
    forall h ensures h in back <==> h in hashes {
    }
    forall h | h in hashes ensures back[h] == hashes[h] {
      var id := hashes[h];
      assert from[id] == h;
    }
  }

  lemma BuiltShapes(unit: Vec -> Vec, docs: seq<Prepared>, s: State)
    requires |AllVecs(docs)| == |AllChunks(docs)| > 0
    requires s == RecordedAll(Appended(unit, Fresh(EMPTY.(dim := |AllVecs(docs)[0]|)), AllChunks(docs), AllVecs(docs)), docs)
    ensures Parallel(s) && Parallel(Shared(s)) && Built(unit, docs) == Some(Reindexed(unit, Shared(s)))
  {
    RecordedArrays(Appended(unit, Fresh(EMPTY.(dim := |AllVecs(docs)[0]|)), AllChunks(docs), AllVecs(docs)), docs);
    hide AllChunks, AllVecs, RecordedAll, Reindexed, Ids, Entries, Units;
  }

  lemma {:induction false} RecordedArrays(s: State, docs: seq<Prepared>)
    ensures Parallel(s) ==> Parallel(RecordedAll(s, docs))
  {
    if |docs| > 0 {
      RecordedArrays(s, docs[..|docs| - 1]);
    }
  }

  class Store {
    const unit: Vec -> Vec
    var dim: nat
    var chunks: seq<Passage>
    var embeds: seq<Vec>
    var docSet: set<string>
    var hashes: map<Hash, string>
    var idHash: map<string, Hash>
    var versions: map<string, seq<Hash>>
    var hnsw: Option<Index>
    var lex: seq<(string, string)>
    var needsRebuild: bool
    var deferIndex: bool
    var saved: Option<seq<string>>
    var flat: seq<Vec>
    ghost var truth: seq<Vec>

    ghost function Value(): State
      reads this
    {
      State(dim, chunks, embeds, truth, docSet, hashes, idHash, versions, hnsw, lex, needsRebuild, deferIndex, saved, flat)
    }

    /** Valid, and every index that is built holds exactly the chunks. */
    ghost predicate Searchable()
      reads this
    {
      StoreEffects.Searchable(unit, Value())
    }

    /** New. */
    constructor (unit: Vec -> Vec)
      ensures Value() == EMPTY && this.unit == unit
    {
      this.unit := unit;
      dim, chunks, embeds, truth := 0, [], [], [];
      docSet, hashes, idHash, versions := {}, map[], map[], map[];
      hnsw, lex := None, [];
      needsRebuild, deferIndex, saved, flat := false, false, None, [];
    }

    method InitIndexes()
      modifies this
      ensures Value() == Fresh(old(Value()))
    {
      hnsw := Some(Index([], [], []));
      lex := [];
    }

    method AppendChunks(cs: seq<Passage>, vecs: seq<Vec>)
      requires hnsw.Some? && |vecs| == |cs| && forall i :: 0 <= i < |vecs| ==> |vecs[i]| == dim
      modifies this
      ensures Value() == Appended(unit, old(Value()), cs, vecs)
    {
      ghost var s := Value();
      AppendedNone(unit, s);
      assert cs[..0] == [] && vecs[..0] == [];
      hide *;
      for i := 0 to |cs|
        invariant hnsw.Some? && Value() == Appended(unit, s, cs[..i], vecs[..i])
      {
        AppendedNext(unit, s, cs, vecs, i);
        var c := cs[i];
        AddOne(c, vecs[i]);
      }
      assert cs[..|cs|] == cs && vecs[..|cs|] == vecs;
    }

    /** The body of the append loop. */
    method AddOne(c: Passage, v: Vec)
      requires hnsw.Some?
      modifies this
      ensures var a := old(Value());
              Value() == a.(hnsw := Some(IndexAdd(unit, a.hnsw.value, Id(c), v)), lex := a.lex + [(Id(c), c.text)],
                            chunks := a.chunks + [c], embeds := a.embeds + [v], truth := a.truth + [v],
                            docSet := a.docSet + {c.docId})
      ensures hnsw.Some?
    {
      var h := hnsw.value;
      hnsw := Some(Index(h.ids + [Id(c)], h.vecs + [unit(v)], h.built + [Id(c)]));
      lex := lex + [(Id(c), c.text)];
      chunks := chunks + [c];
      embeds := embeds + [v];
      truth := truth + [v];
      docSet := docSet + {c.docId};
    }

    method AppendToArrays(cs: seq<Passage>, vecs: seq<Vec>)
      requires |vecs| == |cs|
      modifies this
      ensures Value() == AppendedArrays(old(Value()), cs, vecs)
    {
      ghost var s := Value();
      AppendedArraysNone(s);
      assert cs[..0] == [] && vecs[..0] == [];
      hide *;
      for i := 0 to |cs|
        invariant Value() == AppendedArrays(s, cs[..i], vecs[..i])
      {
        AppendedArraysNext(s, cs, vecs, i);
        AddToArrays(cs[i], vecs[i]);
      }
      assert cs[..|cs|] == cs && vecs[..|cs|] == vecs;
    }

    method AddToArrays(c: Passage, v: Vec)
      modifies this
      ensures var a := old(Value());
              Value() == a.(chunks := a.chunks + [c], embeds := a.embeds + [v], truth := a.truth + [v],
                            docSet := a.docSet + {c.docId})
    {
      chunks := chunks + [c];
      embeds := embeds + [v];
      truth := truth + [v];
      docSet := docSet + {c.docId};
    }

    /** The loop of removeDocLocked: the arrays are compacted in place, then cut. */
    method Compact(id: string) returns (removed: nat)
      requires |embeds| == |chunks|
      modifies this`chunks, this`embeds
      ensures chunks == Without(old(chunks), old(chunks), id) && embeds == Without(old(chunks), old(embeds), id)
      ensures removed == |old(chunks)| - |chunks|
    {
      ghost var cs, es := chunks, embeds;
      var n: nat, kept, vecs := 0, chunks, embeds;
      CompactedStart(cs, id, cs);
      CompactedStart(cs, id, es);
      hide *;
      for i := 0 to |kept|
        invariant |kept| == |vecs| == |cs| == |es|
        invariant Compacted(cs, id, cs, kept, n, i) && Compacted(cs, id, es, vecs, n, i)
      {
        CompactedNext(cs, id, cs, kept, n, i);
        CompactedNext(cs, id, es, vecs, n, i);
        if kept[i].docId != id {
          kept := kept[n := kept[i]];
          vecs := vecs[n := vecs[i]];
          n := n + 1;
        }
      }
      CompactedDone(cs, id, cs, kept, n);
      CompactedDone(cs, id, es, vecs, n);
      removed := |kept| - n;
      chunks := kept[..n];
      embeds := vecs[..n];
    }

    method DropChunks(id: string) returns (removed: nat)
      requires Parallel(Value())
      modifies this
      ensures Value() == WithoutChunks(old(Value()), id) && removed == |old(chunks)| - |chunks|
    {
      hide Chosen, Kept;
      ghost var cs := chunks;
      removed := Compact(id);
      truth := Without(cs, truth, id);
      if removed > 0 {
        needsRebuild := true;
      }
    }

    method Forget(id: string)
      modifies this
      ensures Value() == Forgotten(old(Value()), id)
    {
      docSet := docSet - {id};
      if id in idHash {
        var h := idHash[id];
        hashes := hashes - {h};
        idHash := idHash - {id};
      }
    }

    /** removeDocLocked. */
    method RemoveDoc(id: string) returns (removed: nat)
      requires Parallel(Value())
      modifies this
      ensures Value() == Removed(old(Value()), id)
      ensures removed == |old(chunks)| - |chunks|
    {
      hide WithoutChunks;
      removed := DropChunks(id);
      Forget(id);
    }

    /** rebuildLexicalLocked. */
    method RebuildLexical()
      modifies this`lex
      ensures lex == Entries(chunks)
    {
      hide Id;
      var entries: seq<(string, string)> := [];
      for i := 0 to |chunks|
        invariant entries == Entries(chunks[..i])
      {
        assert chunks[..i + 1] == chunks[..i] + [chunks[i]];
        entries := entries + [(Id(chunks[i]), chunks[i].text)];
      }
      assert chunks[..|chunks|] == chunks;
      lex := entries;
    }

    /** rebuildIndexesLocked. */
    method RebuildIndexes()
      requires Parallel(Value())
      modifies this`hnsw, this`lex
      ensures Value() == Rebuilt(unit, old(Value()))
    {
      hide Ids, Units, Entries, Id, IndexAdd;
      hnsw := Some(Index([], [], []));
      lex := [];
      IndexOfNone(unit, chunks, embeds);
      for i := 0 to |chunks|
        invariant hnsw == Some(IndexOf(unit, chunks[..i], embeds[..i]))
      {
        IndexOfNext(unit, chunks, embeds, i);
        hnsw := Some(IndexAdd(unit, hnsw.value, Id(chunks[i]), embeds[i]));
      }
      assert chunks[..|chunks|] == chunks && embeds[..|chunks|] == embeds;
      RebuildLexical();
    }

    /** shareVectorsLocked. */
    method ShareVectors()
      modifies this
      ensures Value() == Shared(old(Value()))
    {
      ghost var s := Value();
      if hnsw.None? || |hnsw.value.ids| != |embeds| || |hnsw.value.vecs| != |embeds| {
        return;
      }
      for i := 0 to |embeds|
        invariant |embeds| == |s.embeds| && Value() == s.(embeds := embeds)
        invariant forall k :: 0 <= k < i ==> embeds[k] == hnsw.value.vecs[k]
      {
        embeds := embeds[i := hnsw.value.vecs[i]];
      }
      assert embeds == s.hnsw.value.vecs;
    }

    /** restoreHNSWLocked: the saved links and block are consumed either way. */
    method RestoreHnsw() returns (ok: bool)
      requires Parallel(Value())
      modifies this
      ensures ok == Restorable(old(Value()))
      ensures Value() == if ok then Restored(unit, old(Value())) else old(Value()).(saved := None, flat := [])
    {
      var g, block := saved, flat;
      saved := None;
      flat := [];
      if g.None? || |chunks| == 0 || |g.value| != |chunks| {
        return false;
      }
      var ids := Ids(chunks);
      if |block| == |chunks| {
        hnsw := Some(Index(ids, Units(unit, block), g.value));
        return true;
      }
      hnsw := Some(Index(ids, Units(unit, embeds), g.value));
      ok := true;
    }

    /** ensureSearchLocked. */
    method EnsureSearch()
      requires Parallel(Value())
      modifies this
      ensures Value() == Ensured(unit, old(Value()))
    {
      hide Ids, Units, Entries, Restorable;
      if !deferIndex {
        return;
      }
      deferIndex := false;
      var ok := RestoreHnsw();
      if ok {
        RebuildLexical();
        needsRebuild := false;
        ShareVectors();
        return;
      }
      RebuildIndexes();
      needsRebuild := false;
      ShareVectors();
    }

    /** reindexLocked, up to the similarity graph. */
    method ReindexLocked()
      requires Parallel(Value())
      modifies this
      ensures Value() == Reindexed(unit, old(Value()))
    {
      hide Ids, Units, Entries;
      if deferIndex {
        return;
      }
      if needsRebuild {
        RebuildIndexes();
        ShareVectors();
        needsRebuild := false;
      }
    }

    /** Reindex, up to the similarity graph. */
    method Reindex()
      requires Parallel(Value())
      modifies this
      ensures Value() == Reindexed(unit, Ensured(unit, old(Value())))
      ensures old(Searchable()) ==> Searchable()
    {
      StoreEffects.ReindexSearchable(unit, Value());
      hide Ensured, Reindexed, StoreEffects.Searchable;
      EnsureSearch();
      ReindexLocked();
    }

    method RecordHash(id: string, h: Hash)
      modifies this
      ensures Value() == old(Value()).(hashes := old(hashes)[h := id], idHash := old(idHash)[id := h])
    {
      hashes := hashes[h := id];
      idHash := idHash[id := h];
    }

    /** recordVersionLocked: a repeat of the newest version is ignored. */
    method RecordVersion(id: string, h: Hash)
      modifies this
      ensures var v := VersionsOf(old(Value()), id);
              Value() == old(Value()).(versions := if |v| > 0 && v[|v| - 1] == h then old(versions) else old(versions)[id := v + [h]])
    {
      var v := if id in versions then versions[id] else [];
      var n := |v|;
      if n > 0 && v[n - 1] == h {
        return;
      }
      versions := versions[id := v + [h]];
    }

    /** Recording a document's content, and its newest version. */
    method Record(id: string, h: Hash)
      modifies this
      ensures Value() == Recorded(old(Value()), id, h)
    {
      RecordHash(id, h);
      RecordVersion(id, h);
    }

    /** The two ways applyPreparedLocked adds a document's chunks. */
    method Install(p: Prepared)
      requires hnsw.Some? && Parallel(Value()) && |p.vecs| == |p.chunks|
      requires forall i :: 0 <= i < |p.vecs| ==> |p.vecs[i]| == dim
      modifies this
      ensures Value() == Recorded(
                if p.id in old(docSet) then AppendedArrays(Removed(old(Value()), p.id), p.chunks, p.vecs)
                else if old(needsRebuild) then AppendedArrays(old(Value()), p.chunks, p.vecs)
                else Appended(unit, old(Value()), p.chunks, p.vecs),
                p.id, p.hash)
    {
      hide Appended, AppendedArrays, Removed, Recorded;
      if p.id in docSet {
        var removed := RemoveDoc(p.id);
        AppendToArrays(p.chunks, p.vecs);
        Record(p.id, p.hash);
        return;
      }
      if needsRebuild {
        AppendToArrays(p.chunks, p.vecs);
      } else {
        AppendChunks(p.chunks, p.vecs);
      }
      Record(p.id, p.hash);
    }

    /** applyPreparedLocked. */
    method ApplyPrepared(p: Prepared) returns (changed: bool)
      requires Parallel(Value()) && |p.vecs| == |p.chunks|
      requires forall i :: 0 <= i < |p.vecs| ==> |p.vecs[i]| == |p.vecs[0]|
      modifies this
      ensures changed == Applies(old(Value()), p) && Value() == Applied(unit, old(Value()), p)
    {
      if |p.chunks| == 0 {
        return false;
      }
      ghost var s := Value();
      if hnsw.None? {
        dim := |p.vecs[0]|;
        InitIndexes();
      }
      assert Value() == Opened(s, p) && hnsw.Some?;
      hide Appended, AppendedArrays, Removed, Recorded, Opened;
      if |p.vecs[0]| != dim {
        return false;
      }
      if p.hash in hashes && hashes[p.hash] != p.id {
        return false;
      }
      if p.id in docSet && p.id in idHash && idHash[p.id] == p.hash {
        return false;
      }
      Install(p);
      changed := true;
    }

    /** newDocuments. */
    method NewDocuments(docs: seq<Prepared>) returns (out: seq<Prepared>)
      ensures out == Offered(hashes, docs)
    {
      out := [];
      var seenId: set<string>, seenHash: set<Hash> := {}, {};
      hide Offered;
      OfferedNone(hashes, docs);
      for i := 0 to |docs|
        invariant out == Offered(hashes, docs[..i])
        invariant forall id :: id in seenId <==> exists p :: p in out && p.id == id
        invariant forall h :: h in seenHash <==> exists p :: p in out && p.hash == h
      {
        OfferedNext(hashes, docs, i);
        var d := docs[i];
        if d.hash in hashes || d.hash in seenHash || d.id in seenId {
          continue;
        }
        assert forall p :: p in out + [d] <==> p in out || p == d;
        seenId := seenId + {d.id};
        seenHash := seenHash + {d.hash};
        out := out + [d];
      }
      assert docs[..|docs|] == docs;
    }

    /** The part of AddDocuments that runs under the write lock. */
    method ApplyAll(docs: seq<Prepared>) returns (changed: bool)
      requires Parallel(Value()) && AllOk(docs)
      modifies this
      ensures changed == AnyApplies(unit, old(Value()), docs) && Value() == AppliedAll(unit, old(Value()), docs)
    {
      ghost var s := Value();
      changed := false;
      AppliedAllNone(unit, s, docs);
      OkShapes(docs);
      hide *;
      for i := 0 to |docs|
        invariant Value() == AppliedAll(unit, s, docs[..i]) && Parallel(Value())
        invariant changed == AnyApplies(unit, s, docs[..i])
      {
        AppliedAllNext(unit, s, docs, i);
        var applied := ApplyPrepared(docs[i]);
        if applied {
          changed := true;
        }
      }
      assert docs[..|docs|] == docs;
    }

    /** The documents AddDocuments goes on with: new content, and not empty. */
    method UsableDocuments(docs: seq<Prepared>) returns (batch: seq<Prepared>)
      ensures batch == WithChunks(Offered(hashes, docs))
    {
      WithChunksNone();
      hide *;
      var news := NewDocuments(docs);
      batch := [];
      for i := 0 to |news|
        invariant batch == WithChunks(news[..i])
      {
        WithChunksNext(news, i);
        if |news[i].chunks| > 0 {
          batch := batch + [news[i]];
        }
      }
      assert news[..|news|] == news;
    }

    /** AddDocuments, on documents chunked and embedded beforehand. */
    method AddDocuments(docs: seq<Prepared>)
      requires Parallel(Value()) && AllOk(docs)
      modifies this
      ensures Value() == Added(unit, old(Value()), docs)
      ensures old(Searchable()) ==> Searchable()
    {
      OkShapes(docs);
      BatchOk(hashes, docs);
      hide *;
      StoreEffects.AddSearchable(unit, Value(), docs);
      StoreEffects.AddedForm(unit, Value(), docs);
      var batch := UsableDocuments(docs);
      OkShapes(batch);
      hide Offered, Ensured, AppliedAll, AnyApplies, Shared, Reindexed, AllOk, WithChunks;
      if |batch| == 0 {
        return;
      }
      EnsureSearch();
      var changed := ApplyAll(batch);
      if changed {
        ShareVectors();
      }
      ReindexLocked();
    }

    /** DeleteDocument. */
    method DeleteDocument(id: string) returns (removed: nat)
      requires Parallel(Value())
      modifies this
      ensures Value() == Deleted(unit, old(Value()), id)
      // the other documents' chunks stay, in order, and a ready store stays ready
      ensures chunks == StoreEffects.OtherChunks(old(chunks), id) && removed == |old(chunks)| - |chunks|
      ensures deferIndex == old(deferIndex) && (old(Searchable()) ==> Searchable())
    {
      StoreEffects.DeleteSearchable(unit, Value(), id);
      StoreEffects.DeletedForm(unit, Value(), id);
      hide StoreEffects.Searchable, StoreEffects.OtherChunks, Deleted, Removed, Reindexed;
      removed := RemoveDoc(id);
      versions := versions - {id};
      if removed > 0 {
        ReindexLocked();
      }
    }

    /** AddEmbedded; false is its error. */
    method AddEmbedded(cs: seq<Passage>, vecs: seq<Vec>) returns (ok: bool)
      requires |vecs| == |cs| && forall i :: 0 <= i < |vecs| ==> |vecs[i]| == |vecs[0]|
      modifies this
      ensures |cs| == 0 ==> ok && Value() == old(Value())
      ensures |cs| > 0 ==> ok == Embedded(unit, old(Value()), cs, vecs).Some?
      ensures |cs| > 0 && ok ==> Value() == Embedded(unit, old(Value()), cs, vecs).value
      ensures !ok ==> Value() == old(Value())
    {
      if |cs| == 0 {
        return true;
      }
      hide Appended, Shared;
      if hnsw.None? {
        dim := |vecs[0]|;
        InitIndexes();
      }
      if |vecs[0]| != dim {
        return false;
      }
      AppendChunks(cs, vecs);
      ShareVectors();
      ok := true;
    }

    /** The documents of src that this store knows neither by id nor by content. */
    method Untaken(src: Store) returns (take: set<string>, skipped: nat)
      ensures take == Take(Value(), src.Value()) && skipped == |src.idHash.Keys - take|
    {
      var keys := src.idHash.Keys;
      ghost var done: set<string> := {};
      take, skipped := {}, 0;
      TakeOfNone(idHash, hashes, src.idHash);
      hide TakeOf;
      while keys != {}
        invariant done + keys == src.idHash.Keys && done !! keys
        invariant take == TakeOf(idHash, hashes, src.idHash, done) && skipped == |done - take|
        decreases |keys|
      {
        ghost var some := MemberOf(keys);
        var id: string :| id in keys;
        var h := src.idHash[id];
        TakeOfNext(idHash, hashes, src.idHash, done, id);
        if id in idHash || h in hashes {
          skipped := skipped + 1;
        } else {
          take := take + {id};
        }
        done := done + {id};
        keys := keys - {id};
      }
      assert done == src.idHash.Keys;
      TakeOfAll(Value(), src.Value());
    }

    method BookOne(src: Store, id: string)
      requires src != this && id in src.idHash
      modifies this
      ensures var b := old(Value());
              Value() == b.(hashes := b.hashes[src.idHash[id] := id], idHash := b.idHash[id := src.idHash[id]],
                            versions := if id in src.versions then b.versions[id := src.versions[id]] else b.versions)
    {
      var h := src.idHash[id];
      idHash := idHash[id := h];
      hashes := hashes[h := id];
      if id in src.versions {
        versions := versions[id := src.versions[id]];
      }
    }

    /** The second locked section of a merge. */
    method Book(src: Store, take: set<string>)
      requires src != this && Inverse(src.hashes, src.idHash) && take <= src.idHash.Keys
      modifies this
      ensures Value() == Booked(old(Value()), src.Value(), take)
    {
      ghost var t, s := Value(), src.Value();
      var left := take;
      BookedStart(t, s);
      hide Booked, Inverse;
      assert take - left == {};
      while left != {}
        invariant left <= take && Value() == Booked(t, s, take - left) && src.Value() == s
        decreases |left|
      {
        ghost var some := MemberOf(left);
        var id: string :| id in left;
        BookedNext(t, s, take - left, id);
        assert take - (left - {id}) == (take - left) + {id};
        BookOne(src, id);
        left := left - {id};
      }
      assert take - left == take;
    }

    /** The first locked section of a merge: the chunks of the documents taken. */
    method TakeChunks(src: Store, take: set<string>) returns (ok: bool, copied: nat)
      requires src != this && Parallel(Value()) && |src.embeds| == |src.chunks| && take == Take(Value(), src.Value())
      requires forall i :: 0 <= i < |TakenVecs(Value(), src.Value())| ==> |TakenVecs(Value(), src.Value())[i]| == src.dim
      modifies this
      ensures copied == |TakenChunks(old(Value()), src.Value())|
      ensures ok == (copied == 0 || Embedded(unit, old(Value()), TakenChunks(old(Value()), src.Value()),
                                             TakenVecs(old(Value()), src.Value())).Some?)
      ensures Value() == Taken(unit, old(Value()), src.Value()) && Parallel(Value())
    {
      ghost var t, s := Value(), src.Value();
      hide Take, Chosen, Embedded, Parallel;
      var cs, vs := CopyTaken(src.chunks, src.embeds, take);
      assert cs == TakenChunks(t, s) && vs == TakenVecs(t, s);
      ok, copied := true, |cs|;
      if |cs| > 0 {
        ok := AddEmbedded(cs, vs);
        if ok {
          EmbeddedParallel(unit, t, cs, vs);
        }
      }
    }

    /** Merge of another store into this one. */
    method Merge(src: Store) returns (ok: bool, documents: nat, copied: nat, skipped: nat)
      requires src != this && Parallel(Value()) && Valid(src.unit, src.Value())
      modifies this
      ensures ok == MergedFrom(unit, old(Value()), src.Value()).Merged?
      ensures ok ==> MergedFrom(unit, old(Value()), src.Value()) == Merged(Value(), documents, copied, skipped)
      ensures !ok ==> Value() == old(Value())
      ensures src.unit == unit && old(Searchable()) ==> Searchable()
    {
      ghost var s, t := src.Value(), Value();
      MergeShapes(src.unit, t, s);
      if src.unit == unit {
        StoreEffects.MergeSearchable(unit, t, s);
      }
      MergedFromIs(unit, t, s);
      hide *;
      if |src.chunks| == 0 {
        return true, 0, 0, 0;
      }
      if dim != 0 && src.dim != 0 && dim != src.dim {
        return false, 0, 0, 0;
      }
      var take;
      take, skipped := Untaken(src);
      ok, copied := TakeChunks(src, take);
      if !ok {
        TakenRefused(unit, t, s);
        return false, 0, 0, 0;
      }
      Book(src, take);
      BookedParallel(Taken(unit, t, s), s, take);
      Reindex();
      FromTakenIs(unit, t, s);
      documents := |take|;
    }

    /** Save, exact vectors. */
    method Save() returns (snap: Option<Snapshot>)
      ensures snap == Saved(Value())
    {
      if hnsw.None? {
        return None;
      }
      var links: Option<seq<string>> := None;
      if !deferIndex && !needsRebuild && |hnsw.value.ids| == |chunks| {
        links := Some(hnsw.value.built);
      } else if deferIndex && !needsRebuild && saved.Some? && |saved.value| == |chunks| {
        links := saved;
      }
      snap := Some(Snapshot(dim, chunks, embeds, idHash, versions, links));
    }

    /** Load: hashes are filled from the saved map, entry by entry. */
    constructor Load(unit: Vec -> Vec, snap: Snapshot)
      requires Injective(snap.hashes) && |snap.vecs| == |snap.chunks|
      ensures this.unit == unit && Value() == Loaded(snap)
    {
      this.unit := unit;
      dim, chunks, embeds, truth := snap.dim, [], [], [];
      docSet, hashes, idHash, versions := {}, map[], map[], map[];
      hnsw, lex := None, [];
      needsRebuild, deferIndex, saved, flat := false, false, None, [];
      new;
      if |snap.chunks| > 0 {
        FillFrom(snap);
      }
    }

    /** The arrays and books of a loaded store; its indexes are left for later. */
    method FillFrom(snap: Snapshot)
      requires Injective(snap.hashes) && |snap.vecs| == |snap.chunks| > 0 && Value() == EMPTY.(dim := snap.dim)
      modifies this
      ensures Value() == Loaded(snap)
    {
      LoadedIs(snap);
      hide *;
      FillArrays(snap);
      deferIndex := true;
      saved := snap.links;
      FillHashes(snap.hashes);
      versions := snap.versions;
    }

    method FillArrays(snap: Snapshot)
      requires |snap.vecs| == |snap.chunks| && Value() == EMPTY.(dim := snap.dim)
      modifies this
      ensures Value() == AppendedArrays(Fresh(EMPTY.(dim := snap.dim)).(flat := snap.vecs), snap.chunks, snap.vecs)
    {
      hide AppendedArrays;
      InitIndexes();
      flat := snap.vecs;
      AppendToArrays(snap.chunks, snap.vecs);
    }

    /** recordHashLocked for every saved hash, in any order. */
    method FillHashes(from: map<string, Hash>)
      requires Injective(from) && hashes == map[] && idHash == map[]
      modifies this`hashes, this`idHash
      ensures hashes == InverseOf(from) && idHash == from
    {
      var left := from.Keys;
      ghost var done: set<string> := {};
      HashesFilledNone(from);
      hide HashesFilled, Injective;
      while left != {}
        invariant done + left == from.Keys && done !! left
        invariant HashesFilled(from, done, hashes, idHash)
        decreases |left|
      {
        ghost var some := MemberOf(left);
        var id: string :| id in left;
        var h := from[id];
        HashesFilledNext(from, done, hashes, idHash, id);
        hashes := hashes[h := id];
        idHash := idHash[id := h];
        done := done + {id};
        left := left - {id};
      }
      assert done == from.Keys;
      HashesFilledAll(from, hashes, idHash);
    }

    /** Build on a new store, of documents chunked and embedded beforehand. */
    method Build(docs: seq<Prepared>) returns (ok: bool)
      requires Value() == EMPTY && |AllVecs(docs)| == |AllChunks(docs)|
      requires forall i :: 0 <= i < |AllVecs(docs)| ==> |AllVecs(docs)[i]| == |AllVecs(docs)[0]|
      modifies this
      ensures ok == Built(unit, docs).Some?
      ensures Value() == if ok then Built(unit, docs).value else EMPTY
    {
      hide AllChunks, AllVecs, RecordedAll, Appended, Shared, Reindexed;
      var cs, vs := Collect(docs);
      if |cs| == 0 {
        return false;
      }
      dim := |vs[0]|;
      InitIndexes();
      AppendChunks(cs, vs);
      RecordAll(docs);
      BuiltShapes(unit, docs, Value());
      ShareVectors();
      ReindexLocked();
      ok := true;
    }

    method Collect(docs: seq<Prepared>) returns (cs: seq<Passage>, vs: seq<Vec>)
      ensures cs == AllChunks(docs) && vs == AllVecs(docs)
    {
      cs, vs := [], [];
      for i := 0 to |docs|
        invariant cs == AllChunks(docs[..i]) && vs == AllVecs(docs[..i])
      {
        assert docs[..i + 1][..i] == docs[..i];
        cs := cs + docs[i].chunks;
        vs := vs + docs[i].vecs;
      }
      assert docs[..|docs|] == docs;
    }

    method RecordAll(docs: seq<Prepared>)
      modifies this
      ensures Value() == RecordedAll(old(Value()), docs)
    {
      ghost var s := Value();
      hide Recorded;
      for i := 0 to |docs|
        invariant Value() == RecordedAll(s, docs[..i])
      {
        assert docs[..i + 1][..i] == docs[..i];
        Record(docs[i].id, docs[i].hash);
      }
      assert docs[..|docs|] == docs;
    }
  }
}
