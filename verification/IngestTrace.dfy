/** Runs of Ingest as data: what was offered, in which order workers prepared and the
    collector took it, what each worker answered, and what that leaves in the store:
    rag/ingest.go. */
module IngestTraces {
  import opened Vectors
  import opened StoreStates
  import opened StoreLaws
  import opened StoreEffects

  /** A document offered to Ingest; its preparation may fail. */
  datatype Offer = Offer(doc: Prepared, fails: bool)

  datatype Result = Waiting | Skipped | Errored | Ready

  /** One step of a run: a worker prepares document i, or the collector takes its result. */
  datatype Event = Prepare(i: nat) | Collect(i: nat)

  datatype Progress = Progress(done: nat, failed: nat, skipped: nat, chunks: nat)

  // ---------- the workers ----------

  /** Marked done, stored with this very content, or a copy of another document. */
  predicate Known(s: State, done: set<string>, p: Prepared) {
    || p.id in done
    || (p.id in s.idHash && s.idHash[p.id] == p.hash)
    || (p.hash in s.hashes && s.hashes[p.hash] != p.id)
  }

  function Verdict(s: State, done: set<string>, o: Offer): (r: Result)
    ensures r != Waiting
  {
    if Known(s, done, o.doc) then Skipped
    else if o.fails then Errored
    else if |o.doc.chunks| == 0 then Skipped
    else Ready
  }

  /** Ready are exactly the unmarked documents with a text that is not stored. */
  lemma ReadyMeans(unit: Vec -> Vec, s: State, done: set<string>, o: Offer)
    requires Valid(unit, s)
    ensures Verdict(s, done, o).Ready? <==>
            o.doc.id !in done && o.doc.hash !in s.hashes && !o.fails && |o.doc.chunks| > 0
  {
    hide IndexOk, Histories;
  }

  // ---------- schedules ----------

  ghost predicate Offers(docs: seq<Offer>) { forall i :: 0 <= i < |docs| ==> PreparedOk(docs[i].doc) }

  /** Every event once, and a result is collected only after it was prepared. */
  ghost predicate Schedule(schedule: seq<Event>, n: nat) {
    && (forall k :: 0 <= k < |schedule| ==> schedule[k].i < n)
    && (forall j, k :: 0 <= j < k < |schedule| ==> schedule[j] != schedule[k])
    && (forall k :: 0 <= k < |schedule| && schedule[k].Collect? ==> Prepare(schedule[k].i) in schedule[..k])
  }

  // ---------- the state after so many events ----------

  /** One run: where it started, the ids marked before, the offers, the order of events,
      every worker's answer, and the ids marked at the time of every event. */
  datatype Trace = Trace(unit: Vec -> Vec, start: State, given: set<string>, docs: seq<Offer>, schedule: seq<Event>,
                         results: seq<Result>, dones: seq<set<string>>)

  datatype Outcome = Outcome(store: State, prog: Progress)

  ghost predicate TraceOk(t: Trace) {
    && Parallel(t.start) && Offers(t.docs) && |t.results| == |t.docs| && Schedule(t.schedule, |t.docs|)
  }

  /** The collector's turn for one result. */
  ghost function Turn(unit: Vec -> Vec, r: Outcome, p: Prepared, result: Result): (o: Outcome)
    requires Parallel(r.store) && |p.vecs| == |p.chunks|
    ensures Parallel(o.store)
  {
    match result
    case Ready =>
      Outcome(Applied(unit, r.store, p),
              if Applies(r.store, p) then r.prog.(done := r.prog.done + 1, chunks := r.prog.chunks + |p.chunks|)
              else r.prog.(skipped := r.prog.skipped + 1))
    case Errored => r.(prog := r.prog.(failed := r.prog.failed + 1))
    case _ => r.(prog := r.prog.(skipped := r.prog.skipped + 1))
  }

  lemma OfferOk(docs: seq<Offer>, i: nat)
    requires Offers(docs) && i < |docs|
    ensures PreparedOk(docs[i].doc) && |docs[i].doc.vecs| == |docs[i].doc.chunks|
  {
  }

  /** Store and counts after the first k events. */
  ghost function After(t: Trace, k: nat): (r: Outcome)
    requires TraceOk(t) && k <= |t.schedule|
    ensures Parallel(r.store)
  {
    if k == 0 then Outcome(t.start, Progress(0, 0, 0, 0))
    else
      match t.schedule[k - 1]
      case Prepare(_) => After(t, k - 1)
      case Collect(i) => OfferOk(t.docs, i); Turn(t.unit, After(t, k - 1), t.docs[i].doc, t.results[i])
  }

  /** The store the run ends with. */
  ghost function Final(t: Trace): State
    requires TraceOk(t)
  {
    Reindexed(t.unit, Ensured(t.unit, After(t, |t.schedule|).store))
  }

  lemma FinalIs(t: Trace)
    requires TraceOk(t)
    ensures Final(t) == Reindexed(t.unit, Ensured(t.unit, After(t, |t.schedule|).store))
  {
    hide TraceOk, Reindexed, Ensured, After;
  }

  /** The collector takes a prepared document at event b. */
  ghost predicate TakenAt(t: Trace, b: nat, id: string)
    requires TraceOk(t)
  {
    && b < |t.schedule| && t.schedule[b].Collect?
    && t.results[t.schedule[b].i].Ready? && t.docs[t.schedule[b].i].doc.id == id
  }

  ghost predicate TakenBefore(t: Trace, k: nat, id: string)
    requires TraceOk(t)
  {
    exists b :: 0 <= b < k && TakenAt(t, b, id)
  }

  /** Marked are the ids marked before the run, and some taken since. */
  ghost predicate Bounded(t: Trace, k: nat, done: set<string>)
    requires TraceOk(t)
  {
    t.given <= done && forall id :: id in done ==> id in t.given || TakenBefore(t, k, id)
  }

  /** Every worker answered from the store and the marks of its time. */
  ghost predicate Worked(t: Trace, k: nat)
    requires TraceOk(t)
  {
    && k <= |t.schedule| && |t.dones| == k
    && (forall j :: 0 <= j < k ==> Bounded(t, j, t.dones[j]))
    && (forall j :: 0 <= j < k && t.schedule[j].Prepare? ==>
          t.results[t.schedule[j].i] == Verdict(After(t, j).store, t.dones[j], t.docs[t.schedule[j].i]))
  }

  // ---------- a run grows event by event ----------

  /** Two records of one run that agree on the answers collected so far. */
  ghost predicate Agree(t: Trace, u: Trace, k: nat) {
    && TraceOk(t) && TraceOk(u) && t.unit == u.unit && t.start == u.start && t.given == u.given
    && t.docs == u.docs && t.schedule == u.schedule && k <= |t.schedule|
    && forall b :: 0 <= b < k && t.schedule[b].Collect? ==> t.results[t.schedule[b].i] == u.results[t.schedule[b].i]
  }

  lemma {:induction false} AfterSame(t: Trace, u: Trace, k: nat)
    requires Agree(t, u, k)
    ensures After(t, k) == After(u, k)
  {
    hide Turn, TraceOk;
    if k > 0 {
      AfterSame(t, u, k - 1);
    }
  }

  lemma TakenSame(t: Trace, u: Trace, k: nat)
    requires Agree(t, u, k)
    ensures forall j: nat, id :: j <= k && TakenBefore(t, j, id) ==> TakenBefore(u, j, id)
    ensures forall j: nat, done :: j <= k && Bounded(t, j, done) ==> Bounded(u, j, done)
  {
    hide TraceOk;
    forall j: nat, id | j <= k && TakenBefore(t, j, id) ensures TakenBefore(u, j, id) {
      var b :| 0 <= b < j && TakenAt(t, b, id);
      assert TakenAt(u, b, id);
    }
  }

  lemma TakenGrows(t: Trace, k: nat)
    requires TraceOk(t)
    ensures forall id :: TakenBefore(t, k, id) ==> TakenBefore(t, k + 1, id)
    ensures forall id :: TakenAt(t, k, id) ==> TakenBefore(t, k + 1, id)
    ensures forall done :: Bounded(t, k, done) ==> Bounded(t, k + 1, done)
  {
    hide TraceOk, TakenAt;
  }

  /** The record with one more event. */
  ghost function Next(t: Trace, k: nat, result: Result, done: set<string>): Trace
    requires k < |t.schedule|
  {
    t.(dones := t.dones + [done],
       results := if t.schedule[k].Prepare? && t.schedule[k].i < |t.results| then t.results[t.schedule[k].i := result] else t.results)
  }

  lemma NextAgrees(t: Trace, k: nat, result: Result, done: set<string>)
    requires TraceOk(t) && k < |t.schedule|
    ensures Agree(t, Next(t, k, result, done), k) && Agree(Next(t, k, result, done), t, k)
    ensures forall j :: 0 <= j < k && t.schedule[j].Prepare? ==>
              Next(t, k, result, done).results[t.schedule[j].i] == t.results[t.schedule[j].i]
  {
    hide Offers;
    var u := Next(t, k, result, done);
    if t.schedule[k].Prepare? {
      forall b | 0 <= b < k && t.schedule[b].Collect? ensures t.schedule[b].i != t.schedule[k].i {
        assert Prepare(t.schedule[b].i) in t.schedule[..b];
      }
      forall b | 0 <= b < k && t.schedule[b].Prepare? ensures t.schedule[b].i != t.schedule[k].i {
        assert t.schedule[b] != t.schedule[k];
      }
    }
  }

  lemma NextWorked(t: Trace, k: nat, result: Result, done: set<string>)
    requires TraceOk(t) && Worked(t, k) && k < |t.schedule| && Bounded(t, k, done)
    requires t.schedule[k].Prepare? ==> result == Verdict(After(t, k).store, done, t.docs[t.schedule[k].i])
    ensures var u := Next(t, k, result, done);
            && TraceOk(u) && Worked(u, k + 1)
            && (forall id :: TakenBefore(t, k, id) ==> TakenBefore(u, k + 1, id))
            && (forall id :: TakenAt(t, k, id) ==> TakenBefore(u, k + 1, id))
            && (forall d :: Bounded(t, k, d) ==> Bounded(u, k + 1, d))
  {
    hide *;
    var u := Next(t, k, result, done);
    NextAgrees(t, k, result, done);
    SameSoFar(t, u, k);
    TakenSame(t, u, k);
    WorkedParts(t, k);
    TraceParts(t, k);
    TraceParts(u, k);
    NextParts(t, k, result, done);
    TakenGrows(u, k);
    TakenNow(t, u, k);
    BoundedSame(t, u, k, done);
    WorkedNext(t, u, k, done);
  }

  lemma SameSoFar(t: Trace, u: Trace, k: nat)
    requires Agree(t, u, k)
    ensures TraceOk(t) && TraceOk(u) && k <= |t.schedule| == |u.schedule|
    ensures forall j :: 0 <= j <= k ==> After(u, j) == After(t, j)
  {
    forall j | 0 <= j <= k ensures After(u, j) == After(t, j) {
      AgreeLess(t, u, k, j);
      AfterSame(t, u, j);
    }
    hide After, TraceOk;
  }

  lemma WorkedParts(t: Trace, k: nat)
    requires TraceOk(t) && Worked(t, k)
    ensures k <= |t.schedule| && |t.dones| == k
    ensures forall j :: 0 <= j < k ==> Bounded(t, j, t.dones[j])
    ensures forall j :: 0 <= j < k && t.schedule[j].Prepare? ==>
              && t.schedule[j].i < |t.results| && t.schedule[j].i < |t.docs|
              && t.results[t.schedule[j].i] == Verdict(After(t, j).store, t.dones[j], t.docs[t.schedule[j].i])
  {
    hide After, Bounded, Verdict, Offers;
  }

  lemma TraceParts(t: Trace, k: nat)
    requires TraceOk(t) && k <= |t.schedule|
    ensures Parallel(t.start) && |t.results| == |t.docs| && Schedule(t.schedule, |t.docs|)
    ensures forall j :: 0 <= j < |t.schedule| ==> t.schedule[j].i < |t.docs|
  {
    hide Offers;
  }

  lemma NextParts(t: Trace, k: nat, result: Result, done: set<string>)
    requires k < |t.schedule| && |t.dones| == k
    ensures var u := Next(t, k, result, done);
            && u.schedule == t.schedule && u.docs == t.docs && |u.dones| == k + 1 && u.dones[k] == done
            && (forall j :: 0 <= j < k ==> u.dones[j] == t.dones[j]) && |u.results| == |t.results|
            && (t.schedule[k].Prepare? && t.schedule[k].i < |t.results| ==> u.results[t.schedule[k].i] == result)
            && (t.schedule[k].Collect? ==> u.results == t.results)
  {
  }

  lemma BoundedSame(t: Trace, u: Trace, k: nat, done: set<string>)
    requires TraceOk(t) && TraceOk(u) && |t.dones| == k == |u.dones| - 1 && u.dones[k] == done && Bounded(t, k, done)
    requires (forall j :: 0 <= j < k ==> u.dones[j] == t.dones[j]) && forall j :: 0 <= j < k ==> Bounded(t, j, t.dones[j])
    requires forall j: nat, d :: j <= k && Bounded(t, j, d) ==> Bounded(u, j, d)
    ensures forall j :: 0 <= j <= k ==> Bounded(u, j, u.dones[j])
  {
    hide Bounded, TraceOk;
    forall j | 0 <= j <= k ensures Bounded(u, j, u.dones[j]) {
      assert Bounded(t, j, u.dones[j]);
    }
  }

  lemma WorkedNext(t: Trace, u: Trace, k: nat, done: set<string>)
    requires TraceOk(t) && TraceOk(u) && k < |t.schedule| && t.schedule == u.schedule && t.docs == u.docs
    requires (forall j :: 0 <= j <= k ==> After(u, j) == After(t, j)) && |t.results| == |u.results| == |t.docs|
    requires forall j :: 0 <= j < |t.schedule| ==> t.schedule[j].i < |t.docs|
    requires |t.dones| == k == |u.dones| - 1 && u.dones[k] == done && forall j :: 0 <= j < k ==> u.dones[j] == t.dones[j]
    requires forall j :: 0 <= j <= k ==> Bounded(u, j, u.dones[j])
    requires forall j :: 0 <= j < k && t.schedule[j].Prepare? ==>
               && u.results[t.schedule[j].i] == t.results[t.schedule[j].i]
               && t.results[t.schedule[j].i] == Verdict(After(t, j).store, t.dones[j], t.docs[t.schedule[j].i])
    requires t.schedule[k].Prepare? ==>
               u.results[t.schedule[k].i] == Verdict(After(t, k).store, done, t.docs[t.schedule[k].i])
    ensures Worked(u, k + 1)
  {
    hide TraceOk, Verdict, Bounded, After;
    forall j | 0 <= j <= k && u.schedule[j].Prepare?
      ensures u.results[u.schedule[j].i] == Verdict(After(u, j).store, u.dones[j], u.docs[u.schedule[j].i])
    {
      assert After(u, j) == After(t, j);
    }
  }

  lemma TakenNow(t: Trace, u: Trace, k: nat)
    requires TraceOk(t) && TraceOk(u) && t.schedule == u.schedule && t.docs == u.docs && k < |t.schedule|
    requires t.schedule[k].Collect? ==> t.results == u.results
    ensures forall id :: TakenAt(t, k, id) ==> TakenAt(u, k, id)
  {
    hide TraceOk;
  }

  lemma AgreeLess(t: Trace, u: Trace, k: nat, j: nat)
    requires Agree(t, u, k) && j <= k
    ensures Agree(t, u, j)
  {
    hide TraceOk;
  }

  lemma NextIs(t: Trace, k: nat, result: Result, done: set<string>)
    requires k < |t.schedule| && t.schedule[k].i < |t.results|
    ensures Next(t, k, result, done)
         == t.(results := if t.schedule[k].Prepare? then t.results[t.schedule[k].i := result] else t.results,
               dones := t.dones + [done])
  {
  }

  lemma TurnIs(unit: Vec -> Vec, r: Outcome, p: Prepared, result: Result)
    requires Parallel(r.store) && |p.vecs| == |p.chunks|
    ensures Turn(unit, r, p, result).store == if result.Ready? then Applied(unit, r.store, p) else r.store
    ensures Turn(unit, r, p, result).prog
         == if result.Ready? && Applies(r.store, p) then r.prog.(done := r.prog.done + 1, chunks := r.prog.chunks + |p.chunks|)
            else if result.Errored? then r.prog.(failed := r.prog.failed + 1)
            else r.prog.(skipped := r.prog.skipped + 1)
  {
    hide Applied, Applies;
  }

  lemma TakenIs(t: Trace, k: nat)
    requires TraceOk(t) && k < |t.schedule| && t.schedule[k].i < |t.docs| == |t.results|
    ensures t.schedule[k].Collect? && t.results[t.schedule[k].i].Ready? ==> TakenAt(t, k, t.docs[t.schedule[k].i].doc.id)
  {
    hide TraceOk;
  }

  /** New marks are of documents taken. */
  lemma MarksNext(t: Trace, k: nat, before: set<string>, now: set<string>, applied: seq<string>)
    requires TraceOk(t) && Bounded(t, k, before) && before <= now <= before + set id | id in applied
    requires forall id :: id in applied ==> TakenBefore(t, k, id)
    ensures Bounded(t, k, now)
  {
    hide TraceOk, TakenBefore;
  }

  lemma NextAfter(t: Trace, k: nat, result: Result, done: set<string>)
    requires TraceOk(t) && k < |t.schedule|
    ensures TraceOk(Next(t, k, result, done)) && t.schedule[k].i < |t.docs|
    ensures |t.docs[t.schedule[k].i].doc.vecs| == |t.docs[t.schedule[k].i].doc.chunks|
    ensures After(Next(t, k, result, done), k + 1)
         == match t.schedule[k]
            case Prepare(_) => After(t, k)
            case Collect(i) => Turn(t.unit, After(t, k), t.docs[i].doc, t.results[i])
  {
    NextAgrees(t, k, result, done);
    AfterSame(t, Next(t, k, result, done), k);
    OfferOk(t.docs, t.schedule[k].i);
    hide Turn, Offers;
  }

  // ---------- what one turn does to one document ----------

  /** A document that changes the store: it has a text nobody owns, and fits. */
  ghost predicate TakesEffect(s: State, p: Prepared) {
    |p.vecs| > 0 && (s.hnsw.Some? ==> |p.vecs[0]| == s.dim) && p.hash !in s.hashes
  }

  lemma EffectIsApplies(unit: Vec -> Vec, s: State, p: Prepared)
    requires Valid(unit, s) && PreparedOk(p)
    ensures |p.vecs| == |p.chunks| && (Applies(s, p) <==> TakesEffect(s, p))
  {
    hide IndexOk, Histories;
  }

  /** The document with this id is the same in both: content, chunks in order, history. */
  ghost predicate Same(id: string, s: State, t: State) {
    && (id in s.idHash <==> id in t.idHash) && (id in s.idHash ==> s.idHash[id] == t.idHash[id])
    && (id in s.versions <==> id in t.versions) && (id in s.versions ==> s.versions[id] == t.versions[id])
    && ChunksOf(s.chunks, {id}) == ChunksOf(t.chunks, {id})
  }

  /** The document is stored with exactly this content. */
  ghost predicate Holds(s: State, p: Prepared) {
    && p.id in s.idHash && s.idHash[p.id] == p.hash
    && p.id in s.versions && EndsWith(s.versions[p.id], p.hash)
    && ChunksOf(s.chunks, {p.id}) == p.chunks
  }

  lemma {:induction false} ChunksOfJoin(a: seq<Passage>, b: seq<Passage>, docs: set<string>)
    ensures ChunksOf(a + b, docs) == ChunksOf(a, docs) + ChunksOf(b, docs)
    decreases |b|
  {
    if |b| == 0 {
      assert a + b == a;
    } else {
      var n := |b| - 1;
      ChunksOfJoin(a, b[..n], docs);
      assert (a + b)[..|a + b| - 1] == a + b[..n];
      assert b == b[..n] + [b[n]];
    }
  }

  lemma {:induction false} OwnChunks(chunks: seq<Passage>, id: string, docs: set<string>)
    requires forall i :: 0 <= i < |chunks| ==> chunks[i].docId == id
    ensures ChunksOf(chunks, docs) == if id in docs then chunks else []
  {
    if |chunks| > 0 {
      OwnChunks(chunks[..|chunks| - 1], id, docs);
      assert chunks == chunks[..|chunks| - 1] + [chunks[|chunks| - 1]];
    }
  }

  lemma ChunkOf(c: Passage, docs: set<string>)
    ensures ChunksOf([c], docs) == if c.docId in docs then [c] else []
  {
    assert [c][..0] == [];
  }

  lemma {:induction false} OthersOf(chunks: seq<Passage>, gone: string, id: string)
    ensures ChunksOf(OtherChunks(chunks, gone), {id}) == if id == gone then [] else ChunksOf(chunks, {id})
    decreases |chunks|
  {
    if |chunks| > 0 {
      var n := |chunks| - 1;
      var front, last := OtherChunks(chunks[..n], gone), if chunks[n].docId == gone then [] else [chunks[n]];
      OthersOf(chunks[..n], gone, id);
      ChunksOfJoin(front, last, {id});
      ChunkOf(chunks[n], {id});
      assert OtherChunks(chunks, gone) == front + last;
    }
  }

  /** A turn that takes effect leaves exactly the document taken. */
  lemma EffectHolds(unit: Vec -> Vec, s: State, p: Prepared)
    requires Valid(unit, s) && PreparedOk(p) && TakesEffect(s, p)
    ensures Parallel(s) && |p.vecs| == |p.chunks| && Holds(Applied(unit, s, p), p)
  {
    hide *;
    EffectIsApplies(unit, s, p);
    EffectChunks(s, p);
    AppliedArrays(unit, s, p);
    AppliedBooks(unit, s, p);
    OwnPassages(p);
    OwnChunks(p.chunks, p.id, {p.id});
    OthersOf(s.chunks, p.id, p.id);
    ChunksOfJoin(OtherChunks(s.chunks, p.id), p.chunks, {p.id});
    HoldsFrom(Applied(unit, s, p), p, VersionsOf(s, p.id));
  }

  lemma EffectChunks(s: State, p: Prepared)
    requires TakesEffect(s, p) && PreparedOk(p)
    ensures |p.chunks| > 0
  {
  }

  lemma OwnPassages(p: Prepared)
    requires PreparedOk(p)
    ensures forall i :: 0 <= i < |p.chunks| ==> p.chunks[i].docId == p.id
  {
  }

  lemma HoldsFrom(t: State, p: Prepared, v: seq<Hash>)
    requires p.id in t.idHash && t.idHash[p.id] == p.hash && p.id in t.versions
    requires t.versions[p.id] == v + if EndsWith(v, p.hash) then [] else [p.hash]
    requires ChunksOf(t.chunks, {p.id}) == [] + p.chunks
    ensures Holds(t, p)
  {
    assert EndsWith(v, p.hash) ==> v + [] == v;
    assert [] + p.chunks == p.chunks;
    hide ChunksOf;
  }

  /** Any other document is left alone, and so is this one by a turn without effect. */
  lemma TurnSpares(unit: Vec -> Vec, s: State, p: Prepared, id: string)
    requires Valid(unit, s) && PreparedOk(p) && (id != p.id || !TakesEffect(s, p))
    ensures Parallel(s) && |p.vecs| == |p.chunks| && Same(id, s, Applied(unit, s, p))
  {
    hide *;
    EffectIsApplies(unit, s, p);
    ValidParts(unit, s);
    var r := Applied(unit, s, p);
    if |p.chunks| > 0 {
      AppliedArrays(unit, s, p);
      AppliedBooks(unit, s, p);
      OwnPassages(p);
      OwnChunks(p.chunks, p.id, {id});
      OthersOf(s.chunks, p.id, id);
      ChunksOfJoin(OtherChunks(s.chunks, p.id), p.chunks, {id});
      SameFrom(id, s, r);
    } else {
      NothingApplied(unit, s, p);
      SameFrom(id, s, s);
    }
  }

  lemma SameFrom(id: string, s: State, t: State)
    requires ChunksOf(t.chunks, {id}) == ChunksOf(s.chunks, {id}) + []
    requires (id in s.idHash <==> id in t.idHash) && (id in s.idHash ==> s.idHash[id] == t.idHash[id])
    requires (id in s.versions <==> id in t.versions) && (id in s.versions ==> s.versions[id] == t.versions[id])
    ensures Same(id, s, t)
  {
    assert ChunksOf(s.chunks, {id}) + [] == ChunksOf(s.chunks, {id});
    hide ChunksOf;
  }

  lemma NothingApplied(unit: Vec -> Vec, s: State, p: Prepared)
    requires Parallel(s) && |p.vecs| == |p.chunks| == 0
    ensures Applied(unit, s, p) == s
  {
  }

  // ---------- whole runs ----------

  lemma StepIs(t: Trace, k: nat)
    requires TraceOk(t) && k < |t.schedule|
    ensures t.schedule[k].i < |t.docs| == |t.results| && PreparedOk(t.docs[t.schedule[k].i].doc)
    ensures var o := t.docs[t.schedule[k].i];
            && |o.doc.vecs| == |o.doc.chunks|
            && After(t, k + 1).store
            == if TakenAt(t, k, o.doc.id) then Applied(t.unit, After(t, k).store, o.doc) else After(t, k).store
  {
    OfferOk(t.docs, t.schedule[k].i);
    hide Applied, Applies, PreparedOk;
  }

  lemma {:induction false} AfterValid(t: Trace, k: nat)
    requires TraceOk(t) && Normalizes(t.unit) && Valid(t.unit, t.start) && k <= |t.schedule|
    ensures Valid(t.unit, After(t, k).store)
  {
    hide Valid, Applied, Normalizes, TraceOk, TakenAt, PreparedOk;
    if k > 0 {
      AfterValid(t, k - 1);
      StepIs(t, k - 1);
      AppliedOk(t.unit, After(t, k - 1).store, t.docs[t.schedule[k - 1].i].doc);
    }
  }

  /** The collector changes document id at event b. */
  ghost predicate ChangedAt(t: Trace, b: nat, id: string)
    requires TraceOk(t)
  {
    TakenAt(t, b, id) && TakesEffect(After(t, b).store, t.docs[t.schedule[b].i].doc)
  }

  /** A document stays as it is while the collector takes nothing for it that takes effect. */
  lemma {:induction false} QuietKeeps(t: Trace, id: string, j: nat, k: nat)
    requires TraceOk(t) && Normalizes(t.unit) && Valid(t.unit, t.start) && j <= k <= |t.schedule|
    requires forall b :: j <= b < k ==> !ChangedAt(t, b, id)
    ensures Same(id, After(t, j).store, After(t, k).store)
    decreases k
  {
    hide *;
    if j == k {
      SameSelf(id, After(t, j).store);
    } else {
      QuietKeeps(t, id, j, k - 1);
      AfterValid(t, k - 1);
      StepIs(t, k - 1);
      var s, p := After(t, k - 1).store, t.docs[t.schedule[k - 1].i].doc;
      if TakenAt(t, k - 1, p.id) {
        NotChanged(t, k - 1, id);
        TurnSpares(t.unit, s, p, id);
        SameTrans(id, After(t, j).store, s, After(t, k).store);
      }
    }
  }

  lemma NotChanged(t: Trace, k: nat, id: string)
    requires TraceOk(t) && k < |t.schedule| && !ChangedAt(t, k, id) && t.schedule[k].i < |t.docs|
    requires TakenAt(t, k, t.docs[t.schedule[k].i].doc.id)
    ensures id != t.docs[t.schedule[k].i].doc.id || !TakesEffect(After(t, k).store, t.docs[t.schedule[k].i].doc)
  {
    hide TraceOk, After, TakesEffect;
  }

  lemma SameSelf(id: string, s: State)
    ensures Same(id, s, s)
  {
  }

  lemma SameTrans(id: string, s: State, t: State, u: State)
    requires Same(id, s, t) && Same(id, t, u)
    ensures Same(id, s, u)
  {
    hide ChunksOf;
  }

  lemma HoldsSame(p: Prepared, s: State, t: State)
    requires Holds(s, p) && Same(p.id, s, t)
    ensures Holds(t, p)
  {
    hide ChunksOf;
  }

  lemma FinalKeeps(t: Trace, id: string)
    requires TraceOk(t)
    ensures Same(id, After(t, |t.schedule|).store, Final(t))
  {
    var s := After(t, |t.schedule|).store;
    EnsureKeeps(t.unit, s);
    ReindexKeeps(t.unit, Ensured(t.unit, s));
    hide After, TraceOk, Ensured, Reindexed, ChunksOf;
  }

  /** What nothing was taken for ends as it began. */
  lemma OthersEndAsTheyBegan(t: Trace, id: string)
    requires TraceOk(t) && Normalizes(t.unit) && Valid(t.unit, t.start)
    requires forall b :: 0 <= b < |t.schedule| ==> !ChangedAt(t, b, id)
    ensures Same(id, t.start, Final(t))
  {
    QuietKeeps(t, id, 0, |t.schedule|);
    FinalKeeps(t, id);
    StartIs(t);
    hide *;
    SameTrans(id, t.start, After(t, |t.schedule|).store, Final(t));
  }

  lemma StartIs(t: Trace)
    requires TraceOk(t)
    ensures After(t, 0) == Outcome(t.start, Progress(0, 0, 0, 0))
  {
    hide TraceOk;
  }

  /** The last text taken for a document is what the run leaves: its content, exactly its
      chunks in order, and the newest version. */
  lemma LastTaken(t: Trace, b: nat)
    requires TraceOk(t) && Normalizes(t.unit) && Valid(t.unit, t.start) && b < |t.schedule| && t.schedule[b].i < |t.docs|
    requires ChangedAt(t, b, t.docs[t.schedule[b].i].doc.id)
    requires forall c :: b < c < |t.schedule| ==> !ChangedAt(t, c, t.docs[t.schedule[b].i].doc.id)
    ensures Holds(Final(t), t.docs[t.schedule[b].i].doc)
  {
    hide *;
    var p := t.docs[t.schedule[b].i].doc;
    AfterValid(t, b);
    StepIs(t, b);
    ChangedParts(t, b, p.id);
    EffectHolds(t.unit, After(t, b).store, p);
    QuietKeeps(t, p.id, b + 1, |t.schedule|);
    HoldsSame(p, After(t, b + 1).store, After(t, |t.schedule|).store);
    FinalKeeps(t, p.id);
    HoldsSame(p, After(t, |t.schedule|).store, Final(t));
  }

  lemma ChangedParts(t: Trace, b: nat, id: string)
    requires TraceOk(t) && ChangedAt(t, b, id)
    ensures TakenAt(t, b, id) && b < |t.schedule| && t.schedule[b].Collect? && t.schedule[b].i < |t.docs| == |t.results|
    ensures t.results[t.schedule[b].i].Ready? && t.docs[t.schedule[b].i].doc.id == id
    ensures TakesEffect(After(t, b).store, t.docs[t.schedule[b].i].doc)
  {
    hide After, TakesEffect, Offers;
  }

  /** A text is in the store only when it was there before, or came with a document taken. */
  ghost predicate CameWith(t: Trace, k: nat, h: Hash)
    requires TraceOk(t)
  {
    exists b :: 0 <= b < k && b < |t.schedule| && t.schedule[b].Collect? && t.docs[t.schedule[b].i].doc.hash == h
  }

  lemma {:induction false} TextsCome(t: Trace, k: nat)
    requires TraceOk(t) && Normalizes(t.unit) && Valid(t.unit, t.start) && k <= |t.schedule|
    ensures forall h :: h in After(t, k).store.hashes ==> h in t.start.hashes || CameWith(t, k, h)
  {
    hide *;
    if k == 0 {
      StartIs(t);
    } else {
      TextsCome(t, k - 1);
      AfterValid(t, k - 1);
      StepIs(t, k - 1);
      CameLater(t, k - 1);
      var s, p := After(t, k - 1).store, t.docs[t.schedule[k - 1].i].doc;
      AppliedTexts(t.unit, s, p);
    }
  }

  lemma AppliedTexts(unit: Vec -> Vec, s: State, p: Prepared)
    requires Valid(unit, s) && PreparedOk(p)
    ensures Parallel(s) && |p.vecs| == |p.chunks|
    ensures var r := Applied(unit, s, p);
            && (forall h :: h in r.hashes ==> h in s.hashes || h == p.hash)
            && (r.hnsw.Some? ==> r.dim == if s.hnsw.Some? || |p.vecs| == 0 then s.dim else |p.vecs[0]|)
            && (s.hnsw.Some? ==> r.hnsw.Some?) && (|p.vecs| == 0 ==> r == s)
  {
    ValidParts(unit, s);
    PreparedSizes(p);
    if |p.chunks| > 0 {
      AppliedArrays(unit, s, p);
    } else {
      NothingApplied(unit, s, p);
    }
    hide *;
  }

  lemma CameLater(t: Trace, k: nat)
    requires TraceOk(t) && k < |t.schedule| && t.schedule[k].i < |t.docs|
    ensures forall h :: CameWith(t, k, h) ==> CameWith(t, k + 1, h)
    ensures TakenAt(t, k, t.docs[t.schedule[k].i].doc.id) ==> CameWith(t, k + 1, t.docs[t.schedule[k].i].doc.hash)
  {
    hide Offers;
  }

  /** Every offer, and the store if it has vectors, is of dimension d. */
  ghost predicate OneDim(s: State, docs: seq<Offer>, d: nat) {
    && (s.hnsw.Some? ==> s.dim == d)
    && forall i :: 0 <= i < |docs| && |docs[i].doc.vecs| > 0 ==> |docs[i].doc.vecs[0]| == d
  }

  lemma {:induction false} DimStays(t: Trace, k: nat, d: nat)
    requires TraceOk(t) && Normalizes(t.unit) && Valid(t.unit, t.start) && k <= |t.schedule| && OneDim(t.start, t.docs, d)
    ensures OneDim(After(t, k).store, t.docs, d)
  {
    hide *;
    if k == 0 {
      StartIs(t);
    } else {
      DimStays(t, k - 1, d);
      AfterValid(t, k - 1);
      StepIs(t, k - 1);
      var s, p := After(t, k - 1).store, t.docs[t.schedule[k - 1].i].doc;
      AppliedTexts(t.unit, s, p);
      DimNext(s, After(t, k).store, t.docs, d, t.schedule[k - 1].i);
    }
  }

  lemma DimNext(s: State, r: State, docs: seq<Offer>, d: nat, i: nat)
    requires OneDim(s, docs, d) && i < |docs|
    requires r == s || (r.hnsw.Some? && |docs[i].doc.vecs| > 0 ==> r.dim == if s.hnsw.Some? then s.dim else |docs[i].doc.vecs[0]|)
    requires |docs[i].doc.vecs| == 0 ==> r == s
    ensures OneDim(r, docs, d)
  {
  }

  /** No other offer has this document's id or its text. */
  ghost predicate Alone(docs: seq<Offer>, i: nat)
    requires i < |docs|
  {
    forall j :: 0 <= j < |docs| && j != i ==> docs[j].doc.id != docs[i].doc.id && docs[j].doc.hash != docs[i].doc.hash
  }

  /** Offer i has a text that is not stored, and can be prepared. */
  ghost predicate NewText(s: State, given: set<string>, docs: seq<Offer>, i: nat)
    requires i < |docs|
  {
    Alone(docs, i) && docs[i].doc.id !in given && docs[i].doc.hash !in s.hashes && !docs[i].fails && |docs[i].doc.chunks| > 0
  }

  /** Every new text arrives: whatever the order of events and whatever else is offered, an
      unmarked document with a text that is not stored, an update as well as an addition, is
      in the store with exactly its chunks when the run has ended. */
  lemma NewTextsArrive(t: Trace, i: nat, d: nat)
    requires TraceOk(t) && Normalizes(t.unit) && Valid(t.unit, t.start) && Worked(t, |t.schedule|) && OneDim(t.start, t.docs, d)
    requires i < |t.docs| && Collect(i) in t.schedule && NewText(t.start, t.given, t.docs, i)
    ensures Holds(Final(t), t.docs[i].doc)
  {
    hide *;
    NewTextIs(t.start, t.given, t.docs, i);
    var p := t.docs[i].doc;
    var a, b := WhenPrepared(t, i);
    AfterValid(t, a);
    AfterValid(t, b);
    TextsCome(t, a);
    TextsCome(t, b);
    NotYet(t, i, a, b);
    UnmarkedAt(t, i, a, b);
    ReadyMeans(t.unit, After(t, a).store, t.dones[a], t.docs[i]);
    DimStays(t, b, d);
    StepIs(t, b);
    EffectFrom(After(t, b).store, t.docs, i, d);
    ChangedFrom(t, b, i);
    OnlyOnce(t, i, b);
    LastTaken(t, b);
  }

  lemma NewTextIs(s: State, given: set<string>, docs: seq<Offer>, i: nat)
    requires i < |docs| && NewText(s, given, docs, i)
    ensures Alone(docs, i) && docs[i].doc.id !in given && docs[i].doc.hash !in s.hashes && !docs[i].fails && |docs[i].doc.chunks| > 0
  {
    hide Alone;
  }

  lemma AllNewTextsArrive(t: Trace, d: nat)
    requires TraceOk(t) && Normalizes(t.unit) && Valid(t.unit, t.start) && Worked(t, |t.schedule|)
    ensures OneDim(t.start, t.docs, d) ==>
              forall i :: 0 <= i < |t.docs| && Collect(i) in t.schedule && NewText(t.start, t.given, t.docs, i) ==>
                Holds(Final(t), t.docs[i].doc)
  {
    hide *;
    if OneDim(t.start, t.docs, d) {
      forall i | 0 <= i < |t.docs| && Collect(i) in t.schedule && NewText(t.start, t.given, t.docs, i)
        ensures Holds(Final(t), t.docs[i].doc)
      {
        NewTextsArrive(t, i, d);
      }
    }
  }

  lemma WhenPrepared(t: Trace, i: nat) returns (a: nat, b: nat)
    requires TraceOk(t) && Collect(i) in t.schedule && Worked(t, |t.schedule|)
    ensures a < b < |t.schedule| && t.schedule[a] == Prepare(i) && t.schedule[b] == Collect(i)
    ensures i < |t.docs| == |t.results| && |t.dones| == |t.schedule|
    ensures t.results[i] == Verdict(After(t, a).store, t.dones[a], t.docs[i]) && Bounded(t, a, t.dones[a])
  {
    hide Offers, After, Verdict, Bounded;
    b :| 0 <= b < |t.schedule| && t.schedule[b] == Collect(i);
    assert Prepare(i) in t.schedule[..b];
    a :| 0 <= a < b && t.schedule[..b][a] == Prepare(i);
    assert t.schedule[a] == Prepare(i) && t.schedule[a].i == i;
  }

  lemma NotYet(t: Trace, i: nat, a: nat, b: nat)
    requires TraceOk(t) && a < b < |t.schedule| && t.schedule[b] == Collect(i) && i < |t.docs| && Alone(t.docs, i)
    ensures !CameWith(t, a, t.docs[i].doc.hash) && !CameWith(t, b, t.docs[i].doc.hash)
  {
    hide Offers;
    forall c | 0 <= c < b && t.schedule[c].Collect? ensures t.schedule[c].i != i {
      assert t.schedule[c] != t.schedule[b];
    }
  }

  lemma UnmarkedAt(t: Trace, i: nat, a: nat, b: nat)
    requires TraceOk(t) && a < b < |t.schedule| && t.schedule[b] == Collect(i) && i < |t.docs| && Alone(t.docs, i)
    requires |t.dones| == |t.schedule| && Bounded(t, a, t.dones[a]) && t.docs[i].doc.id !in t.given
    ensures t.docs[i].doc.id !in t.dones[a]
  {
    hide Offers;
    forall c | 0 <= c < b && t.schedule[c].Collect? ensures t.schedule[c].i != i {
      assert t.schedule[c] != t.schedule[b];
    }
  }

  lemma EffectFrom(s: State, docs: seq<Offer>, i: nat, d: nat)
    requires i < |docs| && OneDim(s, docs, d) && PreparedOk(docs[i].doc) && |docs[i].doc.chunks| > 0 && docs[i].doc.hash !in s.hashes
    ensures TakesEffect(s, docs[i].doc)
  {
  }

  lemma ChangedFrom(t: Trace, b: nat, i: nat)
    requires TraceOk(t) && b < |t.schedule| && t.schedule[b] == Collect(i) && i < |t.docs| == |t.results|
    requires t.results[i].Ready? && TakesEffect(After(t, b).store, t.docs[i].doc)
    ensures ChangedAt(t, b, t.docs[i].doc.id) && t.schedule[b].i == i
  {
    hide TraceOk, TakesEffect, After;
  }

  lemma OnlyOnce(t: Trace, i: nat, b: nat)
    requires TraceOk(t) && b < |t.schedule| && t.schedule[b] == Collect(i) && i < |t.docs| && Alone(t.docs, i)
    ensures forall c :: b < c < |t.schedule| ==> !ChangedAt(t, c, t.docs[i].doc.id)
  {
    hide TakesEffect, After, Offers;
    forall c | b < c < |t.schedule| ensures !ChangedAt(t, c, t.docs[i].doc.id) {
      assert t.schedule[c] != t.schedule[b];
    }
  }
}
