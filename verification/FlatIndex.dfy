/** The exhaustive scan of index/index.go: workers keep the best hits of their share,
    and the merged, sorted and cut result is the best of all codes. */
module FlatIndexes {
  import opened Orders
  import opened BestHits

  datatype Hit = Hit(ord: nat, score: real)

  /** topHeap.worse: lower scores are worse, or higher ones for a distance. */
  function Worse(higher: bool): (Hit, Hit) -> bool {
    (a: Hit, b: Hit) => if higher then a.score < b.score else a.score > b.score
  }

  function Better(higher: bool): (Hit, Hit) -> bool {
    (a: Hit, b: Hit) => Worse(higher)(b, a)
  }

  lemma WorseIsOrder(higher: bool)
    ensures StrictWeak(Worse(higher)) && StrictWeak(Better(higher))
  {
  }

  /** The hits of the codes lo..hi. */
  ghost function HitsOf(scores: seq<real>, lo: nat, hi: nat): multiset<Hit>
    requires lo <= hi <= |scores|
    decreases hi
  {
    if lo == hi then multiset{} else HitsOf(scores, lo, hi - 1) + multiset{Hit(hi - 1, scores[hi - 1])}
  }

  lemma {:induction false} HitsSplit(scores: seq<real>, lo: nat, mid: nat, hi: nat)
    requires lo <= mid <= hi <= |scores|
    ensures HitsOf(scores, lo, hi) == HitsOf(scores, lo, mid) + HitsOf(scores, mid, hi)
    decreases hi
  {
    if mid < hi {
      HitsSplit(scores, lo, mid, hi - 1);
    }
  }

  lemma {:induction false} HitsSize(scores: seq<real>, lo: nat, hi: nat)
    requires lo <= hi <= |scores|
    ensures |HitsOf(scores, lo, hi)| == hi - lo
    ensures forall h :: h in HitsOf(scores, lo, hi) ==> lo <= h.ord < hi && h.score == scores[h.ord]
    decreases hi
  {
    if lo < hi {
      HitsSize(scores, lo, hi - 1);
    }
  }

  /** One worker: the best of its share. */
  method ScanPart(scores: seq<real>, lo: nat, hi: nat, keep: nat, higher: bool) returns (part: seq<Hit>)
    requires lo <= hi <= |scores| && keep > 0
    ensures BestOf(Worse(higher), multiset(part), HitsOf(scores, lo, hi), keep)
  {
    WorseIsOrder(higher);
    hide BestOf, StrictWeak;
    var th := new TopHeap<Hit>(Worse(higher), keep);
    for i := lo to hi
      invariant th.Valid() && th.all == HitsOf(scores, lo, i) && th.worse == Worse(higher) && th.cap == keep
      invariant fresh(th) && fresh(th.heap)
    {
      th.Push(Hit(i, scores[i]));
    }
    part := th.heap.a;
  }

  lemma NoHits(scores: seq<real>, higher: bool, keep: nat)
    ensures HitsOf(scores, 0, 0) == multiset{} && Enough(Worse(higher), multiset{}, multiset{}, keep)
  {
  }

  /** Sorted best first. */
  ghost predicate Ranked(hits: seq<Hit>, higher: bool) {
    forall i, j :: 0 <= i < j < |hits| ==> !Worse(higher)(hits[i], hits[j])
  }

  method SortHits(hits: seq<Hit>, higher: bool) returns (sorted: seq<Hit>)
    ensures Ranked(sorted, higher) && multiset(sorted) == multiset(hits) && |sorted| == |hits|
  {
    WorseIsOrder(higher);
    sorted := SortBy(Better(higher), hits);
    SameMembers(hits, sorted);
  }

  /** scan: whatever the number of workers, the result is the best keep hits of all
      codes, sorted. */
  method Scan(scores: seq<real>, keep: nat, procs: nat, higher: bool) returns (merged: seq<Hit>)
    requires |scores| > 0 && keep > 0 && procs > 0
    ensures Ranked(merged, higher)
    ensures BestOf(Worse(higher), multiset(merged), HitsOf(scores, 0, |scores|), keep)
  {
    hide *;
    var n := |scores|;
    var workers := if procs > n then n else procs;
    var chunk := ChunkSize(n, workers);
    Chunks(n, workers, chunk);
    NoHits(scores, higher, keep);
    var w: nat, lo: nat := 0, 0;
    merged := [];
    while w < workers && lo < n
      invariant w <= workers && lo == StartOf(w, chunk, n) <= n
      invariant Enough(Worse(higher), multiset(merged), HitsOf(scores, 0, lo), keep)
      decreases workers - w
    {
      ChunkNext(w, chunk, n);
      var hi := if lo + chunk < n then lo + chunk else n;
      merged := AddPart(scores, merged, lo, hi, keep, higher);
      lo := hi;
      w := w + 1;
    }
    merged := Finish(scores, merged, keep, higher);
  }

  /** One more worker's pool behind those before it. */
  method AddPart(scores: seq<real>, pool: seq<Hit>, lo: nat, hi: nat, keep: nat, higher: bool) returns (merged: seq<Hit>)
    requires lo <= hi <= |scores| && keep > 0
    requires Enough(Worse(higher), multiset(pool), HitsOf(scores, 0, lo), keep)
    ensures Enough(Worse(higher), multiset(merged), HitsOf(scores, 0, hi), keep)
  {
    hide *;
    var part := ScanPart(scores, lo, hi, keep, higher);
    HitsSplit(scores, 0, lo, hi);
    BestIsEnough(Worse(higher), multiset(part), HitsOf(scores, lo, hi), keep);
    EnoughUnion(Worse(higher), multiset(pool), HitsOf(scores, 0, lo), multiset(part), HitsOf(scores, lo, hi), keep);
    assert multiset(pool + part) == multiset(pool) + multiset(part);
    merged := pool + part;
  }

  /** Sorting the merged pools and cutting. */
  method Finish(scores: seq<real>, pool: seq<Hit>, keep: nat, higher: bool) returns (merged: seq<Hit>)
    requires Enough(Worse(higher), multiset(pool), HitsOf(scores, 0, |scores|), keep)
    ensures Ranked(merged, higher)
    ensures BestOf(Worse(higher), multiset(merged), HitsOf(scores, 0, |scores|), keep)
  {
    hide *;
    merged := SortHits(pool, higher);
    SameSize(merged);
    if |merged| > keep {
      merged := Cut(merged, keep, higher);
    } else {
      WholeIsBest(Worse(higher), multiset(pool), keep, |merged|);
    }
    WorseIsOrder(higher);
    BestOfEnough(Worse(higher), multiset(merged), multiset(pool), HitsOf(scores, 0, |scores|), keep);
  }

  /** Where worker w starts. */
  ghost function StartOf(w: nat, chunk: nat, n: nat): nat { MinOf(w * chunk, n) }

  function MinOf(a: int, b: int): int { if a < b then a else b }

  /** The share of one worker, rounded up. */
  function ChunkSize(n: nat, workers: nat): nat
    requires workers > 0
  {
    (n + workers - 1) / workers
  }

  lemma Chunks(n: nat, workers: nat, chunk: nat)
    requires n > 0 && 0 < workers <= n && chunk == ChunkSize(n, workers)
    ensures chunk > 0 && StartOf(0, chunk, n) == 0 && StartOf(workers, chunk, n) == n
  {
    var t := n + workers - 1;
    assert t == workers * chunk + t % workers;
  }

  lemma ChunkNext(w: nat, chunk: nat, n: nat)
    requires StartOf(w, chunk, n) < n
    ensures StartOf(w + 1, chunk, n) == if StartOf(w, chunk, n) + chunk < n then StartOf(w, chunk, n) + chunk else n
  {
    assert (w + 1) * chunk == w * chunk + chunk;
  }

  lemma WholeIsBest(worse: (Hit, Hit) -> bool, pool: multiset<Hit>, keep: nat, size: nat)
    requires |pool| == size <= keep
    ensures BestOf(worse, pool, pool, keep)
  {
  }

  method Cut(sorted: seq<Hit>, keep: nat, higher: bool) returns (cut: seq<Hit>)
    requires Ranked(sorted, higher) && keep < |sorted|
    ensures cut == sorted[..keep] && Ranked(cut, higher) && BestOf(Worse(higher), multiset(cut), multiset(sorted), keep)
  {
    SortedTake(Worse(higher), sorted, keep);
    cut := sorted[..keep];
  }

  // ---------- Search ----------

  /** The pool rescored with exact distances. */
  ghost function Rescored(exact: seq<real>, hits: seq<Hit>): seq<Hit>
    requires forall i :: 0 <= i < |hits| ==> hits[i].ord < |exact|
    ensures |Rescored(exact, hits)| == |hits|
  {
    seq(|hits|, i requires 0 <= i < |hits| => Hit(hits[i].ord, exact[hits[i].ord]))
  }

  lemma OrdsInRange(scores: seq<real>, hits: seq<Hit>, higher: bool, keep: nat)
    requires BestOf(Worse(higher), multiset(hits), HitsOf(scores, 0, |scores|), keep)
    ensures forall i :: 0 <= i < |hits| ==> hits[i].ord < |scores|
  {
    HitsSize(scores, 0, |scores|);
    forall i | 0 <= i < |hits| ensures hits[i].ord < |scores| {
      assert hits[i] in multiset(hits);
      assert hits[i] in HitsOf(scores, 0, |scores|);
    }
  }

  /** Search with the scores of the codes: without stored vectors the best k codes; with
      them the best k, by exact score, of a pool of k * overscan. */
  method Search(scores: seq<real>, exact: seq<real>, keepVecs: bool, k: nat, overscan: int, procs: nat, higher: bool)
    returns (out: seq<Hit>, ghost cand: seq<Hit>)
    requires procs > 0 && |exact| == |scores|
    ensures Ranked(out, higher)
    ensures Reranked(scores, exact, cand, out, PoolFor(k, overscan), k, keepVecs && overscan > 1, higher)
    ensures !(keepVecs && overscan > 1) ==> BestOf(Worse(higher), multiset(out), HitsOf(scores, 0, |scores|), k)
    ensures keepVecs && overscan > 1 && k * overscan >= |scores| ==>
              BestOf(Worse(higher), multiset(out), HitsOf(exact, 0, |exact|), k)
  {
    var n := |scores|;
    var want := if k > n then n else k;
    HitsSize(scores, 0, n);
    HitsSize(exact, 0, n);
    if want == 0 {
      NothingWanted(scores, higher, k);
      NothingWanted(exact, higher, k);
      NothingWanted(scores, higher, PoolFor(k, overscan));
      return [], [];
    }
    var pool := want;
    if overscan > 1 {
      pool := MinOf(want * overscan, n);
      PoolSize(want, overscan, n, k);
    }
    out, cand := SearchPool(scores, exact, keepVecs && overscan > 1, pool, want, k, PoolFor(k, overscan), procs, higher);
  }

  /** How many codes the caller asks to be rescored. */
  function PoolFor(k: nat, overscan: int): nat { if overscan > 1 then k * overscan else k }

  /** out is the best k, rescored if asked to, of the best codes by their quantized scores. */
  ghost predicate Reranked(scores: seq<real>, exact: seq<real>, cand: seq<Hit>, out: seq<Hit>, pool: nat, k: nat,
                           rerank: bool, higher: bool)
  {
    && BestOf(Worse(higher), multiset(cand), HitsOf(scores, 0, |scores|), pool)
    && (forall i :: 0 <= i < |cand| ==> cand[i].ord < |exact|)
    && BestOf(Worse(higher), multiset(out), multiset(if rerank then Rescored(exact, cand) else cand), k)
  }

  /** Scanning for the pool, rescoring it if asked to, and cutting it to k. */
  method SearchPool(scores: seq<real>, exact: seq<real>, rerank: bool, pool: nat, want: nat, k: nat, asked: nat,
                    procs: nat, higher: bool)
    returns (out: seq<Hit>, ghost cand: seq<Hit>)
    requires procs > 0 && |exact| == |scores| && 0 < want <= pool <= |scores| && want == MinOf(k, |scores|)
    requires pool == MinOf(asked, |scores|)
    ensures Ranked(out, higher)
    ensures Reranked(scores, exact, cand, out, asked, k, rerank, higher)
    ensures !rerank ==> BestOf(Worse(higher), multiset(out), HitsOf(scores, 0, |scores|), k)
    ensures rerank && pool == |scores| ==> BestOf(Worse(higher), multiset(out), HitsOf(exact, 0, |exact|), k)
  {
    ghost var n := |scores|;
    hide *;
    HitsSize(scores, 0, n);
    HitsSize(exact, 0, n);
    var hits := Scan(scores, pool, procs, higher);
    cand := hits;
    OrdsInRange(scores, cand, higher, pool);
    SizeOfBest(scores, cand, higher, pool);
    SameBest(Worse(higher), multiset(cand), HitsOf(scores, 0, n), pool, asked);
    out := hits;
    if rerank {
      out := Rerank(scores, exact, hits, higher);
      SameSize(out);
      SameSize(Rescored(exact, cand));
      if pool == n {
        ExactPool(scores, exact, cand, higher);
        WholeIsBest(Worse(higher), multiset(out), pool, n);
        CutToK(HitsOf(exact, 0, n), multiset(out), out, higher, pool, want, k);
      }
    } else {
      CutToK(HitsOf(scores, 0, n), multiset(cand), out, higher, pool, want, k);
    }
    SameSize(out);
    CutIsBest(out, higher, pool, want, k, n);
    RankedCut(out, higher, want);
    assert |out| == want ==> out[..want] == out;
    if |out| > want {
      out := out[..want];
    }
    RerankedIs(scores, exact, cand, out, asked, k, rerank, higher);
  }

  /** The first hits of a ranked pool are its best. */
  lemma CutIsBest(out: seq<Hit>, higher: bool, pool: nat, want: nat, k: nat, n: nat)
    requires Ranked(out, higher) && |out| == pool && want <= pool <= n && want == MinOf(k, n)
    ensures BestOf(Worse(higher), multiset(out[..want]), multiset(out), k)
  {
    SortedTake(Worse(higher), out, want);
    SameSize(out);
    SameBest(Worse(higher), multiset(out[..want]), multiset(out), want, k);
  }

  lemma RerankedIs(scores: seq<real>, exact: seq<real>, cand: seq<Hit>, out: seq<Hit>, pool: nat, k: nat, rerank: bool, higher: bool)
    requires BestOf(Worse(higher), multiset(cand), HitsOf(scores, 0, |scores|), pool)
    requires forall i :: 0 <= i < |cand| ==> cand[i].ord < |exact|
    requires BestOf(Worse(higher), multiset(out), multiset(if rerank then Rescored(exact, cand) else cand), k)
    ensures Reranked(scores, exact, cand, out, pool, k, rerank, higher)
  {
  }

  lemma PoolSize(want: nat, overscan: int, n: nat, k: nat)
    requires overscan > 1 && 0 < want == MinOf(k, n)
    ensures want * overscan >= want && MinOf(want * overscan, n) >= want
    ensures k * overscan >= n ==> MinOf(want * overscan, n) == n
    ensures MinOf(want * overscan, n) == MinOf(PoolFor(k, overscan), n)
  {
    assert want * overscan >= want * 1;
    if want == n {
    } else {
      assert want == k;
    }
  }

  lemma NothingWanted(scores: seq<real>, higher: bool, k: nat)
    requires k == 0 || |scores| == 0
    ensures BestOf(Worse(higher), multiset([]), HitsOf(scores, 0, |scores|), k)
  {
    HitsSize(scores, 0, |scores|);
    var none: seq<Hit> := [];
    assert multiset(none) == multiset{};
  }

  method Rerank(scores: seq<real>, exact: seq<real>, cand: seq<Hit>, higher: bool) returns (out: seq<Hit>)
    requires |exact| == |scores| && forall i :: 0 <= i < |cand| ==> cand[i].ord < |exact|
    ensures Ranked(out, higher) && multiset(out) == multiset(Rescored(exact, cand))
  {
    out := cand;
    for i := 0 to |cand|
      invariant |out| == |cand|
      invariant forall j :: 0 <= j < i ==> out[j] == Hit(cand[j].ord, exact[cand[j].ord])
      invariant forall j :: i <= j < |cand| ==> out[j] == cand[j]
    {
      out := out[i := Hit(cand[i].ord, exact[cand[i].ord])];
    }
    assert out == Rescored(exact, cand);
    out := SortHits(out, higher);
  }

  /** Rescoring a pool of all codes gives the exact hits of all codes. */
  lemma ExactPool(scores: seq<real>, exact: seq<real>, cand: seq<Hit>, higher: bool)
    requires |exact| == |scores| && BestOf(Worse(higher), multiset(cand), HitsOf(scores, 0, |scores|), |scores|)
    requires forall i :: 0 <= i < |cand| ==> cand[i].ord < |exact|
    ensures multiset(Rescored(exact, cand)) == HitsOf(exact, 0, |exact|)
  {
    HitsSize(scores, 0, |scores|);
    SubsetOfSize(multiset(cand), HitsOf(scores, 0, |scores|));
    hide BestOf;
    RescoredIs(scores, exact, cand, |scores|);
  }

  lemma {:induction false} RescoredIs(scores: seq<real>, exact: seq<real>, cand: seq<Hit>, n: nat)
    requires n <= |exact| == |scores| && multiset(cand) == HitsOf(scores, 0, n)
    requires forall i :: 0 <= i < |cand| ==> cand[i].ord < |exact|
    ensures multiset(Rescored(exact, cand)) == HitsOf(exact, 0, n)
    decreases n
  {
    hide *;
    if n == 0 {
      NoHitsLeft(scores, exact, cand);
    } else {
      var i := FindLast(scores, cand, n);
      var rest := cand[..i] + cand[i + 1..];
      RescoredTakeOut(exact, cand, i);
      RescoredIs(scores, exact, rest, n - 1);
      HitsNext(exact, n);
    }
  }

  lemma NoHitsLeft(scores: seq<real>, exact: seq<real>, cand: seq<Hit>)
    requires multiset(cand) == HitsOf(scores, 0, 0) && forall i :: 0 <= i < |cand| ==> cand[i].ord < |exact|
    ensures multiset(Rescored(exact, cand)) == HitsOf(exact, 0, 0)
  {
    SameSize(cand);
    assert cand == [];
  }

  /** The hit of the last code. */
  lemma FindLast(scores: seq<real>, cand: seq<Hit>, n: nat) returns (i: nat)
    requires 0 < n <= |scores| && multiset(cand) == HitsOf(scores, 0, n)
    ensures i < |cand| && cand[i] == Hit(n - 1, scores[n - 1])
    ensures multiset(cand[..i] + cand[i + 1..]) == HitsOf(scores, 0, n - 1)
  {
    var last := Hit(n - 1, scores[n - 1]);
    HitsNext(scores, n);
    hide HitsOf;
    assert last in multiset(cand);
    i :| 0 <= i < |cand| && cand[i] == last;
    TakeOut(cand, i);
    Cancel(multiset(cand[..i] + cand[i + 1..]), HitsOf(scores, 0, n - 1), last);
  }

  lemma HitsNext(exact: seq<real>, n: nat)
    requires 0 < n <= |exact|
    ensures HitsOf(exact, 0, n) == HitsOf(exact, 0, n - 1) + multiset{Hit(n - 1, exact[n - 1])}
  {
  }

  lemma RescoredTakeOut(exact: seq<real>, a: seq<Hit>, i: nat)
    requires i < |a| && forall j :: 0 <= j < |a| ==> a[j].ord < |exact|
    ensures var rest := a[..i] + a[i + 1..];
            && (forall j :: 0 <= j < |rest| ==> rest[j].ord < |exact|)
            && multiset(Rescored(exact, a)) == multiset(Rescored(exact, rest)) + multiset{Hit(a[i].ord, exact[a[i].ord])}
  {
    var r, rest := Rescored(exact, a), a[..i] + a[i + 1..];
    TakeOut(r, i);
    assert Rescored(exact, rest) == r[..i] + r[i + 1..];
  }

  /** Cutting a ranked list of hits to the k wanted. */
  lemma CutToK(all: multiset<Hit>, pooled: multiset<Hit>, out: seq<Hit>, higher: bool, pool: nat, want: nat, k: nat)
    requires Ranked(out, higher) && want <= pool && want <= |out| && want == MinOf(k, |all|) && |all| >= pool
    requires multiset(out) == pooled && BestOf(Worse(higher), pooled, all, pool)
    ensures Ranked(out[..want], higher) && BestOf(Worse(higher), multiset(out[..want]), all, k)
  {
    SortedTake(Worse(higher), out, want);
    hide BestOf, Worse;
    BestOfBest(Worse(higher), multiset(out[..want]), pooled, all, pool, want);
    SameBest(Worse(higher), multiset(out[..want]), all, want, k);
  }

  lemma RankedCut(out: seq<Hit>, higher: bool, want: nat)
    requires Ranked(out, higher) && want <= |out|
    ensures Ranked(out[..want], higher)
  {
    hide Worse;
  }

  lemma SizeOfBest(scores: seq<real>, cand: seq<Hit>, higher: bool, pool: nat)
    requires BestOf(Worse(higher), multiset(cand), HitsOf(scores, 0, |scores|), pool) && pool <= |scores|
    ensures |cand| == pool
  {
    HitsSize(scores, 0, |scores|);
    SameSize(cand);
  }

  lemma SameBest(worse: (Hit, Hit) -> bool, cut: multiset<Hit>, all: multiset<Hit>, want: nat, k: nat)
    requires BestOf(worse, cut, all, want) && want == MinOf(k, |all|)
    ensures BestOf(worse, cut, all, k)
  {
  }

  /** The best of a larger best-of is a best-of. */
  lemma BestOfBest(worse: (Hit, Hit) -> bool, cut: multiset<Hit>, kept: multiset<Hit>, all: multiset<Hit>, pool: nat, want: nat)
    requires BestOf(worse, kept, all, pool) && BestOf(worse, cut, kept, want) && want <= pool && |all| >= pool
    ensures BestOf(worse, cut, all, want)
  {
    forall x, y | x in cut && y in all - cut ensures !worse(x, y) {
      assert cut[x] <= kept[x];
      if y !in kept - cut {
        assert y in all - kept;
      }
    }
  }
}
