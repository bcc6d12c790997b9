/** The BM25 index of lexical/bm25.go: postings kept in document order, scores summed
    over postings, and the k best results. */
module Bm25s {
  import opened Orders
  import opened BestHits

  datatype Posting = Posting(ord: nat, tf: nat)

  datatype Scored = Scored(ord: nat, score: real)

  datatype Result = Result(id: string, score: real)

  // ---------- postings as a function of the documents ----------

  function Count(toks: seq<string>, term: string): nat { multiset(toks)[term] }

  /** Where term occurs, in document order. */
  ghost function PostingsOf(docs: seq<seq<string>>, term: string): seq<Posting> {
    if |docs| == 0 then []
    else
      var n := |docs| - 1;
      PostingsOf(docs[..n], term) + if Count(docs[n], term) > 0 then [Posting(n, Count(docs[n], term))] else []
  }

  lemma PostingsNext(docs: seq<seq<string>>, toks: seq<string>, term: string)
    ensures PostingsOf(docs + [toks], term)
         == PostingsOf(docs, term) + if Count(toks, term) > 0 then [Posting(|docs|, Count(toks, term))] else []
  {
    assert (docs + [toks])[..|docs|] == docs;
  }

  /** The documents of the first j postings. */
  ghost function OrdsTo(ps: seq<Posting>, j: nat): set<nat>
    requires j <= |ps|
  {
    set i | 0 <= i < j :: ps[i].ord
  }

  lemma OrdsToNext(ps: seq<Posting>, j: nat)
    requires j < |ps|
    ensures OrdsTo(ps, j + 1) == OrdsTo(ps, j) + {ps[j].ord}
    ensures OrdsTo(ps, 0) == {}
  {
  }

  lemma OrdsPrefix(a: seq<Posting>, b: seq<Posting>)
    requires a <= b
    ensures OrdsTo(b, |a|) == OrdsTo(a, |a|)
  {
    forall o ensures o in OrdsTo(b, |a|) <==> o in OrdsTo(a, |a|) {
      if o in OrdsTo(b, |a|) {
        var i :| 0 <= i < |a| && b[i].ord == o;
        assert a[i].ord == o;
      }
      if o in OrdsTo(a, |a|) {
        var i :| 0 <= i < |a| && a[i].ord == o;
        assert b[i].ord == o;
      }
    }
  }

  lemma PostingsStep(docs: seq<seq<string>>, term: string)
    ensures |docs| == 0 ==> PostingsOf(docs, term) == []
    ensures |docs| > 0 ==>
              var n := |docs| - 1;
              (PostingsOf(docs, term)
               == PostingsOf(docs[..n], term) + if Count(docs[n], term) > 0 then [Posting(n, Count(docs[n], term))] else [])
  {
    hide Count;
  }

  /** A posting list is strictly ascending, and its frequencies are the documents' own. */
  lemma {:induction false} PostingsAscend(docs: seq<seq<string>>, term: string)
    ensures var ps := PostingsOf(docs, term);
            && (forall j :: 0 <= j < |ps| ==> ps[j].ord < |docs| && ps[j].tf == Count(docs[ps[j].ord], term) > 0)
            && (forall i, j :: 0 <= i < j < |ps| ==> ps[i].ord < ps[j].ord)
  {
    PostingsStep(docs, term);
    hide Count, PostingsOf;
    if |docs| > 0 {
      var n := |docs| - 1;
      var before := PostingsOf(docs[..n], term);
      PostingsAscend(docs[..n], term);
      assert forall j :: 0 <= j < |before| ==> docs[..n][before[j].ord] == docs[before[j].ord];
    }
  }

  /** A posting list holds exactly the documents with the term. */
  lemma {:induction false} PostingsComplete(docs: seq<seq<string>>, term: string)
    ensures forall o :: o in OrdsTo(PostingsOf(docs, term), |PostingsOf(docs, term)|)
                   <==> 0 <= o < |docs| && Count(docs[o], term) > 0
  {
    PostingsStep(docs, term);
    hide Count, PostingsOf;
    if |docs| > 0 {
      var n := |docs| - 1;
      var ps, before := PostingsOf(docs, term), PostingsOf(docs[..n], term);
      PostingsComplete(docs[..n], term);
      OrdsPrefix(before, ps);
      if Count(docs[n], term) > 0 {
        OrdsToNext(ps, |before|);
      }
    }
  }

  ghost function TotalLength(docs: seq<seq<string>>): nat {
    if |docs| == 0 then 0 else TotalLength(docs[..|docs| - 1]) + |docs[|docs| - 1]|
  }

  lemma TotalLengthNext(docs: seq<seq<string>>, toks: seq<string>)
    ensures TotalLength(docs + [toks]) == TotalLength(docs) + |toks|
  {
    assert (docs + [toks])[..|docs|] == docs;
  }

  // ---------- scores ----------

  /** Parameters and the logarithm. */
  datatype Model = Model(k1: real, b: real, ln: real -> real)

  function Clamped(m: Model): Model {
    var k1 := if m.k1 < 0.0 then 0.0 else m.k1;
    var b := if m.b < 0.0 then 0.0 else if m.b > 1.0 then 1.0 else m.b;
    Model(k1, b, m.ln)
  }

  function Idf(m: Model, n: nat, df: nat): real {
    m.ln(1.0 + (n as real - df as real + 0.5) / (df as real + 0.5))
  }

  /** termScore. */
  function TermScore(m: Model, avgLen: real, idf: real, tf: nat, dl: nat): real {
    var f := tf as real;
    var norm := if avgLen > 0.0 then m.b * dl as real / avgLen else 0.0;
    var denom := f + m.k1 * (1.0 - m.b + norm);
    if denom == 0.0 then 0.0 else idf * (f * (m.k1 + 1.0)) / denom
  }

  // ----- what the score says -----

  function LengthNorm(m: Model, avgLen: real, dl: nat): real {
    if avgLen > 0.0 then m.b * dl as real / avgLen else 0.0
  }

  /** What term frequency is weighed against: longer than average documents count for more. */
  function Damping(m: Model, avgLen: real, dl: nat): real {
    m.k1 * (1.0 - m.b + LengthNorm(m, avgLen, dl))
  }

  /** The saturating fraction f / (f + damping), scaled. */
  lemma TermScoreIs(m: Model, avgLen: real, idf: real, tf: nat, dl: nat)
    requires tf > 0 && Damping(m, avgLen, dl) >= 0.0
    ensures TermScore(m, avgLen, idf, tf, dl) * (tf as real + Damping(m, avgLen, dl)) == idf * (tf as real * (m.k1 + 1.0))
  {
    var f, d := tf as real, Damping(m, avgLen, dl);
    var top := idf * (f * (m.k1 + 1.0));
    assert TermScore(m, avgLen, idf, tf, dl) == top / (f + d);
    assert top / (f + d) * (f + d) == top;
  }

  lemma DampingGrows(m: Model, avgLen: real, dl: nat, longer: nat)
    requires 0.0 <= m.k1 && 0.0 <= m.b <= 1.0 && dl <= longer
    ensures 0.0 <= Damping(m, avgLen, dl) <= Damping(m, avgLen, longer)
    ensures m.k1 > 0.0 && m.b > 0.0 && avgLen > 0.0 && dl < longer ==> Damping(m, avgLen, dl) < Damping(m, avgLen, longer)
  {
    var x, y := LengthNorm(m, avgLen, dl), LengthNorm(m, avgLen, longer);
    NormGrows(m, avgLen, dl, longer);
    hide LengthNorm;
    Scaled(m.k1, 0.0, 1.0 - m.b + x);
    Scaled(m.k1, 1.0 - m.b + x, 1.0 - m.b + y);
  }

  lemma NormGrows(m: Model, avgLen: real, dl: nat, longer: nat)
    requires 0.0 <= m.b && dl <= longer
    ensures 0.0 <= LengthNorm(m, avgLen, dl) <= LengthNorm(m, avgLen, longer)
    ensures m.b > 0.0 && avgLen > 0.0 && dl < longer ==> LengthNorm(m, avgLen, dl) < LengthNorm(m, avgLen, longer)
  {
    Scaled(m.b, dl as real, longer as real);
    Scaled(m.b, 0.0, dl as real);
    if avgLen > 0.0 {
      Ratios(m.b * dl as real, m.b * longer as real, avgLen);
    }
  }

  lemma Ratios(x: real, y: real, d: real)
    requires 0.0 <= x <= y && d > 0.0
    ensures 0.0 <= x / d <= y / d && (x < y ==> x / d < y / d)
  {
    assert x / d * d == x && y / d * d == y;
  }

  lemma Scaled(c: real, x: real, y: real)
    requires 0.0 <= c && x <= y
    ensures c * x <= c * y && (0.0 < c && x < y ==> c * x < c * y)
  {
  }

  /** A document that repeats a term more scores higher, but never idf * (k1 + 1). */
  lemma ScoreSaturates(m: Model, avgLen: real, idf: real, tf: nat, more: nat, dl: nat)
    requires 0.0 <= m.k1 && 0.0 <= m.b <= 1.0 && idf > 0.0 && 0 < tf < more
    ensures 0.0 < TermScore(m, avgLen, idf, tf, dl) <= TermScore(m, avgLen, idf, more, dl) <= idf * (m.k1 + 1.0)
    ensures Damping(m, avgLen, dl) > 0.0 ==>
              TermScore(m, avgLen, idf, tf, dl) < TermScore(m, avgLen, idf, more, dl) < idf * (m.k1 + 1.0)
  {
    DampingGrows(m, avgLen, dl, dl);
    TermScoreIs(m, avgLen, idf, tf, dl);
    TermScoreIs(m, avgLen, idf, more, dl);
    Saturation(idf, m.k1 + 1.0, tf as real, more as real, Damping(m, avgLen, dl),
               TermScore(m, avgLen, idf, tf, dl), TermScore(m, avgLen, idf, more, dl));
    hide TermScore, Damping;
  }

  lemma Saturation(idf: real, k: real, f: real, g: real, d: real, x: real, y: real)
    requires idf > 0.0 && k >= 1.0 && 0.0 < f < g && d >= 0.0
    requires x * (f + d) == idf * (f * k) && y * (g + d) == idf * (g * k)
    ensures 0.0 < x <= y <= idf * k && (d > 0.0 ==> x < y < idf * k)
  {
    var c := idf * k;
    assert c > 0.0 && idf * (f * k) == c * f && idf * (g * k) == c * g;
    Share(c, f, d, x);
    Share(c, g, d, y);
    assert (c - x) * (f + d) == c * d && (c - y) * (g + d) == c * d;
    Divided(c * d, f + d, g + d, c - x, c - y);
  }

  lemma Share(c: real, f: real, d: real, x: real)
    requires c > 0.0 && f > 0.0 && d >= 0.0 && x * (f + d) == c * f
    ensures 0.0 < x && (c - x) * (f + d) == c * d
  {
    Positive(x, f + d, c * f);
  }

  lemma Positive(x: real, d: real, p: real)
    requires d > 0.0 && x * d == p
    ensures (p > 0.0 <==> x > 0.0) && (p >= 0.0 <==> x >= 0.0)
  {
  }

  /** The larger the divisor, the smaller the share. */
  lemma Divided(p: real, small: real, large: real, x: real, y: real)
    requires p >= 0.0 && 0.0 < small < large && x * small == p && y * large == p
    ensures 0.0 <= y <= x && (p > 0.0 ==> 0.0 < y < x)
  {
    Positive(y, large, p);
    assert (x - y) * small == y * (large - small);
    Scaled(large - small, 0.0, y);
    Positive(x - y, small, y * (large - small));
  }

  /** A longer document scores lower for the same frequency. */
  lemma LengthIsDiscounted(m: Model, avgLen: real, idf: real, tf: nat, dl: nat, longer: nat)
    requires 0.0 <= m.k1 && 0.0 <= m.b <= 1.0 && idf > 0.0 && 0 < tf && dl < longer
    ensures TermScore(m, avgLen, idf, tf, longer) <= TermScore(m, avgLen, idf, tf, dl)
    ensures m.k1 > 0.0 && m.b > 0.0 && avgLen > 0.0 ==>
              TermScore(m, avgLen, idf, tf, longer) < TermScore(m, avgLen, idf, tf, dl)
  {
    DampingGrows(m, avgLen, dl, longer);
    TermScoreIs(m, avgLen, idf, tf, dl);
    TermScoreIs(m, avgLen, idf, tf, longer);
    hide TermScore, Damping;
    Discounted(idf, m.k1 + 1.0, tf as real, Damping(m, avgLen, dl), Damping(m, avgLen, longer),
               TermScore(m, avgLen, idf, tf, dl), TermScore(m, avgLen, idf, tf, longer));
  }

  lemma Discounted(idf: real, k: real, f: real, d: real, e: real, x: real, y: real)
    requires idf > 0.0 && k > 0.0 && f > 0.0 && 0.0 <= d <= e && x * (f + d) == idf * (f * k) && y * (f + e) == idf * (f * k)
    ensures y <= x && (d < e ==> y < x)
  {
    Top(idf, f, k);
    var top := idf * (f * k);
    if d < e {
      Divided(top, f + d, f + e, x, y);
    } else {
      SameShare(top, f + d, x, y);
    }
  }

  lemma Top(idf: real, f: real, k: real)
    requires idf > 0.0 && f > 0.0 && k > 0.0
    ensures idf * (f * k) > 0.0
  {
  }

  lemma SameShare(p: real, d: real, x: real, y: real)
    requires d > 0.0 && x * d == p && y * d == p
    ensures x == y
  {
    assert (x - y) * d == 0.0;
  }

  /** Where the logarithm grows and ln 1 is 0, a rarer term weighs more, and none weighs
      nothing. */
  lemma RarerWeighsMore(m: Model, n: nat, df: nat, more: nat)
    requires (forall x, y :: 0.0 < x < y ==> m.ln(x) < m.ln(y)) && m.ln(1.0) == 0.0 && df < more <= n
    ensures 0.0 < Idf(m, n, more) < Idf(m, n, df)
  {
    var a, b := (n as real - df as real + 0.5) / (df as real + 0.5), (n as real - more as real + 0.5) / (more as real + 0.5);
    assert a * (df as real + 0.5) == n as real - df as real + 0.5;
    assert b * (more as real + 0.5) == n as real - more as real + 0.5;
    OddsFall(n as real, df as real + 0.5, more as real + 0.5, a, b);
    assert m.ln(1.0) < m.ln(1.0 + b) < m.ln(1.0 + a);
  }

  lemma OddsFall(n: real, p: real, q: real, a: real, b: real)
    requires 0.0 < p < q < n + 1.0 && a * p == n + 1.0 - p && b * q == n + 1.0 - q
    ensures 0.0 < b < a
  {
    assert (a + 1.0) * p == n + 1.0 && (b + 1.0) * q == n + 1.0;
    Divided(n + 1.0, p, q, a + 1.0, b + 1.0);
    Positive(b, q, n + 1.0 - q);
  }

  ghost function AverageLength(docs: seq<seq<string>>): real {
    if |docs| == 0 then 0.0 else TotalLength(docs) as real / |docs| as real
  }

  /** What one query term contributes to one document. */
  ghost function Contribution(m: Model, docs: seq<seq<string>>, term: string, o: nat): real
    requires o < |docs|
  {
    if Count(docs[o], term) == 0 then 0.0
    else TermScore(m, AverageLength(docs), Idf(m, |docs|, |PostingsOf(docs, term)|), Count(docs[o], term), |docs[o]|)
  }

  /** A forward scan: the sum over the query's terms. */
  ghost function ForwardScore(m: Model, docs: seq<seq<string>>, terms: seq<string>, o: nat): real
    requires o < |docs|
  {
    if |terms| == 0 then 0.0
    else ForwardScore(m, docs, terms[..|terms| - 1], o) + Contribution(m, docs, terms[|terms| - 1], o)
  }

  ghost predicate Matches(docs: seq<seq<string>>, terms: seq<string>, o: nat) {
    o < |docs| && exists t :: t in terms && Count(docs[o], t) > 0
  }

  /** Exactly the matching documents, each with its forward score. */
  ghost predicate ScoresOf(m: Model, docs: seq<seq<string>>, terms: seq<string>, scores: map<nat, real>) {
    && (forall o :: o in scores <==> Matches(docs, terms, o))
    && (forall o :: o in scores ==> scores[o] == ForwardScore(m, docs, terms, o))
  }

  /** The first j postings of a term, added to what other terms gave. */
  ghost predicate PartlyAdded(m: Model, docs: seq<seq<string>>, terms: seq<string>, term: string,
                              scores: map<nat, real>, j: nat)
  {
    j <= |PostingsOf(docs, term)| &&
    (var added := OrdsTo(PostingsOf(docs, term), j);
     && (forall o :: o in scores <==> Matches(docs, terms, o) || o in added)
     && (forall o :: o in scores && o < |docs| ==>
           scores[o] == ForwardScore(m, docs, terms, o) + if o in added then Contribution(m, docs, term, o) else 0.0))
  }

  lemma ScoredMatch(m: Model, docs: seq<seq<string>>, terms: seq<string>, qterms: seq<string>, scores: map<nat, real>)
    requires ScoresOf(m, docs, terms, scores) && forall t :: t in terms <==> t in qterms
    ensures forall o :: o in scores <==> Matches(docs, qterms, o)
  {
    hide ForwardScore;
    forall o: nat ensures Matches(docs, terms, o) <==> Matches(docs, qterms, o) {
    }
  }

  lemma {:induction false} NoMatchNoScore(m: Model, docs: seq<seq<string>>, terms: seq<string>, o: nat)
    requires o < |docs| && !Matches(docs, terms, o)
    ensures ForwardScore(m, docs, terms, o) == 0.0
  {
    if |terms| > 0 {
      assert terms[|terms| - 1] in terms;
      assert forall t :: t in terms[..|terms| - 1] ==> t in terms;
      NoMatchNoScore(m, docs, terms[..|terms| - 1], o);
    }
  }

  lemma AddingStarts(m: Model, docs: seq<seq<string>>, terms: seq<string>, term: string, scores: map<nat, real>)
    requires ScoresOf(m, docs, terms, scores)
    ensures PartlyAdded(m, docs, terms, term, scores, 0)
  {
    hide Matches, ForwardScore, Contribution;
  }

  /** scores[p.ord] += termScore(...). */
  lemma AddingNext(m: Model, docs: seq<seq<string>>, terms: seq<string>, term: string, scores: map<nat, real>, j: nat)
    requires PartlyAdded(m, docs, terms, term, scores, j) && j < |PostingsOf(docs, term)|
    ensures var o := PostingsOf(docs, term)[j].ord;
            && o < |docs|
            && (var was := if o in scores then scores[o] else 0.0;
                PartlyAdded(m, docs, terms, term, scores[o := was + Contribution(m, docs, term, o)], j + 1))
  {
    hide *;
    PostingsAscend(docs, term);
    var ps := PostingsOf(docs, term);
    OrdsToNext(ps, j);
    NotAddedYet(ps, j);
    AddingOne(m, docs, terms, term, scores, j, ps[j].ord);
  }

  lemma NotAddedYet(ps: seq<Posting>, j: nat)
    requires j < |ps| && forall i, k :: 0 <= i < k < |ps| ==> ps[i].ord < ps[k].ord
    ensures ps[j].ord !in OrdsTo(ps, j)
  {
  }

  lemma AddingOne(m: Model, docs: seq<seq<string>>, terms: seq<string>, term: string, scores: map<nat, real>, j: nat, o: nat)
    requires PartlyAdded(m, docs, terms, term, scores, j) && j < |PostingsOf(docs, term)| && o < |docs|
    requires o !in OrdsTo(PostingsOf(docs, term), j)
    requires OrdsTo(PostingsOf(docs, term), j + 1) == OrdsTo(PostingsOf(docs, term), j) + {o}
    ensures PartlyAdded(m, docs, terms, term,
                        scores[o := (if o in scores then scores[o] else 0.0) + Contribution(m, docs, term, o)], j + 1)
  {
    if !Matches(docs, terms, o) {
      NoMatchNoScore(m, docs, terms, o);
    }
    hide ForwardScore, Contribution, PostingsOf, Matches, OrdsTo;
  }

  lemma AddingDone(m: Model, docs: seq<seq<string>>, terms: seq<string>, term: string, scores: map<nat, real>)
    requires PartlyAdded(m, docs, terms, term, scores, |PostingsOf(docs, term)|)
    ensures ScoresOf(m, docs, terms + [term], scores)
  {
    PostingsComplete(docs, term);
    var all := terms + [term];
    assert all[..|terms|] == terms;
    assert forall t :: t in all <==> t in terms || t == term;
    hide PostingsOf, Count, OrdsTo;
    forall o ensures o in scores <==> Matches(docs, all, o) {
    }
  }

  /** A term without postings adds nothing. */
  lemma AddingNothing(m: Model, docs: seq<seq<string>>, terms: seq<string>, term: string, scores: map<nat, real>)
    requires ScoresOf(m, docs, terms, scores) && PostingsOf(docs, term) == []
    ensures ScoresOf(m, docs, terms + [term], scores)
  {
    AddingStarts(m, docs, terms, term, scores);
    AddingDone(m, docs, terms, term, scores);
  }

  // ---------- the k best ----------

  /** worse: lower score, and among equal scores the higher ordinal. */
  const WORSE: (Scored, Scored) -> bool :=
    (a: Scored, b: Scored) => if a.score != b.score then a.score < b.score else a.ord > b.ord

  lemma WorseIsTotal()
    ensures StrictWeak(WORSE)
    ensures forall a, b :: !WORSE(a, b) && !WORSE(b, a) ==> a == b
  {
  }

  /** All scored documents. */
  ghost function Everything(scores: map<nat, real>, ords: set<nat>): multiset<Scored>
    requires ords <= scores.Keys
  {
    multiset(set o | o in ords :: Scored(o, scores[o]))
  }

  lemma EverythingNext(scores: map<nat, real>, ords: set<nat>, o: nat)
    requires ords <= scores.Keys && o in scores && o !in ords
    ensures Everything(scores, ords + {o}) == Everything(scores, ords) + multiset{Scored(o, scores[o])}
    ensures Everything(scores, {}) == multiset{}
  {
    var a, b := (set x | x in ords :: Scored(x, scores[x])), set x | x in ords + {o} :: Scored(x, scores[x]);
    assert b == a + {Scored(o, scores[o])};
    assert Scored(o, scores[o]) !in a;
  }

  function ResultsOf(ids: seq<string>, hits: seq<Scored>): (r: seq<Result>)
    requires forall i :: 0 <= i < |hits| ==> hits[i].ord < |ids|
    ensures |r| == |hits| && forall i :: 0 <= i < |r| ==> r[i] == Result(ids[hits[i].ord], hits[i].score)
  {
    seq(|hits|, i requires 0 <= i < |hits| => Result(ids[hits[i].ord], hits[i].score))
  }

  /** sortResults: higher score first, then the smaller id. */
  function First(before: (string, string) -> bool): (Result, Result) -> bool {
    (a: Result, b: Result) => if a.score != b.score then a.score > b.score else before(a.id, b.id)
  }

  lemma FirstIsOrder(before: (string, string) -> bool)
    requires TotalOrder(before)
    ensures StrictWeak(First(before))
    ensures forall a, b :: !First(before)(a, b) && !First(before)(b, a) ==> a == b
  {
    var first := First(before);
    forall a ensures !first(a, a) {
      var i := a.id;
      assert !before(i, i);
    }
    forall a, b, c ensures first(a, b) && first(b, c) ==> first(a, c) {
      var i, j, k := a.id, b.id, c.id;
      assert before(i, j) && before(j, k) ==> before(i, k);
    }
    forall a, b, c ensures !first(a, b) && !first(b, c) ==> !first(a, c) {
      var i, j, k := a.id, b.id, c.id;
      assert !before(i, j) && !before(j, k) ==> !before(i, k);
    }
    forall a, b ensures !first(a, b) && !first(b, a) ==> a == b {
      var i, j := a.id, b.id;
      assert !before(i, j) && !before(j, i) ==> i == j;
    }
  }

  ghost predicate InRange(ids: seq<string>, hits: seq<Scored>) { forall i :: 0 <= i < |hits| ==> hits[i].ord < |ids| }

  /** out lists the k best documents, best first. */
  ghost predicate Answers(ids: seq<string>, scores: map<nat, real>, k: nat, before: (string, string) -> bool, out: seq<Result>) {
    exists hits: seq<Scored> ::
      && InRange(ids, hits)
      && BestOf(WORSE, multiset(hits), Everything(scores, scores.Keys), k)
      && Rearranged(ResultsOf(ids, hits), out) && SortedBy(First(before), out)
  }

  lemma {:induction false} SameResults(ids: seq<string>, a: seq<Scored>, b: seq<Scored>)
    requires multiset(a) == multiset(b) && InRange(ids, a) && InRange(ids, b)
    ensures multiset(ResultsOf(ids, a)) == multiset(ResultsOf(ids, b))
    decreases |a|
  {
    hide *;
    SameSize(a);
    SameSize(b);
    if |a| == 0 {
      assert a == b;
    } else {
      var n := |a| - 1;
      assert a[n] in multiset(a);
      var j := FindScored(a[n], b);
      TakeOut(a, n);
      TakeOut(b, j);
      assert a[..n] + a[n + 1..] == a[..n];
      Cancel(multiset(a[..n]), multiset(b[..j] + b[j + 1..]), a[n]);
      ResultsTakeOut(ids, a, n);
      ResultsTakeOut(ids, b, j);
      SameResults(ids, a[..n], b[..j] + b[j + 1..]);
    }
  }

  lemma FindScored(x: Scored, b: seq<Scored>) returns (j: nat)
    requires x in multiset(b)
    ensures j < |b| && b[j] == x
  {
    j :| 0 <= j < |b| && b[j] == x;
  }

  lemma ResultsTakeOut(ids: seq<string>, a: seq<Scored>, i: nat)
    requires i < |a| && InRange(ids, a)
    ensures InRange(ids, a[..i] + a[i + 1..]) && a[i].ord < |ids| && a[i] in multiset(a)
    ensures multiset(ResultsOf(ids, a))
         == multiset(ResultsOf(ids, a[..i] + a[i + 1..])) + multiset{Result(ids[a[i].ord], a[i].score)}
  {
    var r := ResultsOf(ids, a);
    TakeOut(r, i);
    assert ResultsOf(ids, a[..i] + a[i + 1..]) == r[..i] + r[i + 1..];
  }

  /** Under a total order a sorted list is determined by its elements. */
  lemma {:induction false} SortedUnique<T(!new)>(less: (T, T) -> bool, a: seq<T>, b: seq<T>)
    requires StrictWeak(less) && (forall x, y :: !less(x, y) && !less(y, x) ==> x == y)
    requires SortedBy(less, a) && SortedBy(less, b) && multiset(a) == multiset(b)
    ensures a == b
    decreases |a|
  {
    SameSize(a);
    SameSize(b);
    if |a| > 0 {
      SameFirst(less, a, b);
      SortedTail(less, a);
      SortedTail(less, b);
      hide *;
      Cancel(multiset(a[1..]), multiset(b[1..]), a[0]);
      SortedUnique(less, a[1..], b[1..]);
      assert a == [a[0]] + a[1..] && b == [b[0]] + b[1..];
    }
  }

  lemma SortedTail<T(!new)>(less: (T, T) -> bool, a: seq<T>)
    requires SortedBy(less, a) && |a| > 0
    ensures SortedBy(less, a[1..]) && multiset(a) == multiset(a[1..]) + multiset{a[0]}
  {
    assert a == [a[0]] + a[1..];
  }

  lemma SameFirst<T(!new)>(less: (T, T) -> bool, a: seq<T>, b: seq<T>)
    requires StrictWeak(less) && (forall x, y :: !less(x, y) && !less(y, x) ==> x == y)
    requires SortedBy(less, a) && SortedBy(less, b) && multiset(a) == multiset(b) && |a| == |b| > 0
    ensures a[0] == b[0]
  {
    assert a[0] in multiset(b) && b[0] in multiset(a);
    var i :| 0 <= i < |b| && b[i] == a[0];
    var j :| 0 <= j < |a| && a[j] == b[0];
    assert i > 0 ==> !less(b[i], b[0]);
    assert j > 0 ==> !less(a[j], a[0]);
  }

  /** The answer is a function of the scores alone: no iteration order shows in it. */
  lemma AnswerIsUnique(ids: seq<string>, scores: map<nat, real>, k: nat, before: (string, string) -> bool,
                       a: seq<Result>, b: seq<Result>)
    requires TotalOrder(before) && Answers(ids, scores, k, before, a) && Answers(ids, scores, k, before, b)
    ensures a == b
  {
    var x: seq<Scored> :| InRange(ids, x) && BestOf(WORSE, multiset(x), Everything(scores, scores.Keys), k) &&
                          Rearranged(ResultsOf(ids, x), a) && SortedBy(First(before), a);
    var y: seq<Scored> :| InRange(ids, y) && BestOf(WORSE, multiset(y), Everything(scores, scores.Keys), k) &&
                          Rearranged(ResultsOf(ids, y), b) && SortedBy(First(before), b);
    WorseIsTotal();
    FirstIsOrder(before);
    hide BestOf, StrictWeak, Everything, SortedBy, First;
    BestOfUnique(WORSE, multiset(x), multiset(y), Everything(scores, scores.Keys), k);
    SameResults(ids, x, y);
    SortedUnique(First(before), a, b);
  }

  lemma EverythingSize(scores: map<nat, real>, ords: set<nat>)
    requires ords <= scores.Keys
    ensures |Everything(scores, ords)| == |ords|
    ensures forall h :: h in Everything(scores, ords) ==> h.ord in ords
    decreases |ords|
  {
    if ords == {} {
      assert Everything(scores, ords) == multiset{};
    } else {
      ghost var some := MemberOf(ords);
      var o :| o in ords;
      EverythingSize(scores, ords - {o});
      assert ords == (ords - {o}) + {o};
      EverythingNext(scores, ords - {o}, o);
    }
  }

  /** topK over a map that yields its entries in any order. */
  method TopK(ids: seq<string>, scores: map<nat, real>, k: nat, before: (string, string) -> bool) returns (out: seq<Result>)
    requires TotalOrder(before) && k > 0 && forall o :: o in scores ==> o < |ids|
    ensures Answers(ids, scores, k, before, out)
  {
    WorseIsTotal();
    FirstIsOrder(before);
    EverythingSize(scores, scores.Keys);
    hide BestOf, StrictWeak, Everything, TotalOrder;
    var hits;
    if k >= |scores.Keys| {
      hits := AllHits(scores);
      WholeBest(scores, hits, k);
    } else {
      hits := BoundedHeap(scores, k);
    }
    HitsInRange(ids, scores, hits, k);
    out := SortBy(First(before), ResultsOf(ids, hits));
  }

  lemma WholeBest(scores: map<nat, real>, hits: seq<Scored>, k: nat)
    requires multiset(hits) == Everything(scores, scores.Keys) && k >= |Everything(scores, scores.Keys)|
    ensures BestOf(WORSE, multiset(hits), Everything(scores, scores.Keys), k)
  {
  }

  lemma HitsInRange(ids: seq<string>, scores: map<nat, real>, hits: seq<Scored>, k: nat)
    requires BestOf(WORSE, multiset(hits), Everything(scores, scores.Keys), k) && forall o :: o in scores ==> o < |ids|
    ensures InRange(ids, hits)
  {
    EverythingSize(scores, scores.Keys);
    forall i | 0 <= i < |hits| ensures hits[i].ord < |ids| {
      assert hits[i] in multiset(hits);
      assert hits[i] in Everything(scores, scores.Keys);
    }
  }

  method AllHits(scores: map<nat, real>) returns (hits: seq<Scored>)
    ensures multiset(hits) == Everything(scores, scores.Keys)
  {
    hits := [];
    var left := scores.Keys;
    NothingYet(scores);
    assert scores.Keys - left == {};
    hide Everything;
    while left != {}
      invariant left <= scores.Keys && multiset(hits) == Everything(scores, scores.Keys - left)
      decreases |left|
    {
      ghost var some := MemberOf(left);
      var o: nat :| o in left;
      EverythingNext(scores, scores.Keys - left, o);
      assert scores.Keys - (left - {o}) == (scores.Keys - left) + {o};
      hits := hits + [Scored(o, scores[o])];
      left := left - {o};
    }
    assert scores.Keys - left == scores.Keys;
  }

  lemma NothingYet(scores: map<nat, real>)
    ensures Everything(scores, {}) == multiset{}
  {
  }

  /** The bounded heap of topK. */
  method BoundedHeap(scores: map<nat, real>, k: nat) returns (hits: seq<Scored>)
    requires k > 0
    ensures BestOf(WORSE, multiset(hits), Everything(scores, scores.Keys), k)
  {
    WorseIsTotal();
    NothingYet(scores);
    hide Everything, BestOf, StrictWeak;
    var h := new TopHeap<Scored>(WORSE, k);
    var left := scores.Keys;
    assert scores.Keys - left == {};
    while left != {}
      invariant left <= scores.Keys && h.Valid() && h.all == Everything(scores, scores.Keys - left)
      invariant h.worse == WORSE && h.cap == k && fresh(h) && fresh(h.heap)
      decreases |left|
    {
      ghost var some := MemberOf(left);
      var o: nat :| o in left;
      EverythingNext(scores, scores.Keys - left, o);
      assert scores.Keys - (left - {o}) == (scores.Keys - left) + {o};
      h.Push(Scored(o, scores[o]));
      left := left - {o};
    }
    assert scores.Keys - left == scores.Keys;
    hits := h.heap.a;
  }

  // ---------- the index ----------

  /** The stored postings of t are list; an empty list is not stored. */
  ghost predicate ListIs(postings: map<string, seq<Posting>>, t: string, list: seq<Posting>) {
    (t in postings <==> list != []) && (t in postings ==> postings[t] == list)
  }

  /** The postings of every term, and of no other. */
  ghost predicate PostingsMatch(postings: map<string, seq<Posting>>, docs: seq<seq<string>>) {
    forall t :: ListIs(postings, t, PostingsOf(docs, t))
  }

  /** What a term's postings are while a document is posted, except the terms left. */
  ghost function Target(docs: seq<seq<string>>, toks: seq<string>, left: set<string>, t: string): seq<Posting> {
    if t in left then PostingsOf(docs, t) else PostingsOf(docs + [toks], t)
  }

  ghost predicate PartlyPosted(postings: map<string, seq<Posting>>, docs: seq<seq<string>>, toks: seq<string>, left: set<string>) {
    forall t :: ListIs(postings, t, Target(docs, toks, left, t))
  }

  /** How often every token occurs. */
  ghost predicate IsCount(tf: map<string, nat>, toks: seq<string>) {
    && (forall t :: t in tf <==> t in toks)
    && (forall t :: t in tf ==> tf[t] == Count(toks, t))
  }

  lemma PostingStarts(postings: map<string, seq<Posting>>, docs: seq<seq<string>>, toks: seq<string>, tf: map<string, nat>)
    requires PostingsMatch(postings, docs) && IsCount(tf, toks)
    ensures PartlyPosted(postings, docs, toks, tf.Keys)
  {
    forall t ensures Target(docs, toks, tf.Keys, t) == PostingsOf(docs, t) {
      PostingsNext(docs, toks, t);
    }
    hide PostingsOf, Target, ListIs;
  }

  lemma PostingStep(postings: map<string, seq<Posting>>, docs: seq<seq<string>>, toks: seq<string>, tf: map<string, nat>,
                    left: set<string>, t: string)
    requires PartlyPosted(postings, docs, toks, left) && IsCount(tf, toks) && t in left && t in tf
    ensures PartlyPosted(postings[t := (if t in postings then postings[t] else []) + [Posting(|docs|, tf[t])]],
                         docs, toks, left - {t})
  {
    var after := postings[t := (if t in postings then postings[t] else []) + [Posting(|docs|, tf[t])]];
    PostedTerm(postings, docs, toks, tf, left, t);
    assert ListIs(postings, t, Target(docs, toks, left, t));
    forall x | x != t ensures ListIs(after, x, Target(docs, toks, left - {t}, x)) {
      assert ListIs(postings, x, Target(docs, toks, left, x));
      OtherTerm(postings, after, docs, toks, left, t, x);
    }
    hide ListIs, Target;
  }

  lemma PostedTerm(postings: map<string, seq<Posting>>, docs: seq<seq<string>>, toks: seq<string>, tf: map<string, nat>,
                   left: set<string>, t: string)
    requires IsCount(tf, toks) && t in left && t in tf
    ensures ListIs(postings, t, Target(docs, toks, left, t)) ==>
              ListIs(postings[t := (if t in postings then postings[t] else []) + [Posting(|docs|, tf[t])]], t,
                     Target(docs, toks, left - {t}, t))
  {
    PostingsNext(docs, toks, t);
    assert t in toks;
    hide PostingsOf;
  }

  lemma OtherTerm(postings: map<string, seq<Posting>>, after: map<string, seq<Posting>>, docs: seq<seq<string>>,
                  toks: seq<string>, left: set<string>, t: string, x: string)
    requires x != t && (x in after <==> x in postings) && (x in postings ==> after[x] == postings[x])
    requires ListIs(postings, x, Target(docs, toks, left, x))
    ensures ListIs(after, x, Target(docs, toks, left - {t}, x))
  {
    hide PostingsOf;
  }

  lemma PostingDone(postings: map<string, seq<Posting>>, docs: seq<seq<string>>, toks: seq<string>)
    requires PartlyPosted(postings, docs, toks, {})
    ensures PostingsMatch(postings, docs + [toks])
  {
    hide PostingsOf, ListIs;
    assert forall t :: Target(docs, toks, {}, t) == PostingsOf(docs + [toks], t);
  }

  /** Counting tokens into a map. */
  method CountTerms(toks: seq<string>) returns (tf: map<string, nat>)
    ensures IsCount(tf, toks)
  {
    tf := map[];
    for i := 0 to |toks|
      invariant IsCount(tf, toks[..i])
    {
      CountNext(tf, toks, i);
      var t := toks[i];
      tf := tf[t := (if t in tf then tf[t] else 0) + 1];
    }
    assert toks[..|toks|] == toks;
  }

  lemma CountNext(tf: map<string, nat>, toks: seq<string>, i: nat)
    requires i < |toks| && IsCount(tf, toks[..i])
    ensures IsCount(tf[toks[i] := (if toks[i] in tf then tf[toks[i]] else 0) + 1], toks[..i + 1])
  {
    assert toks[..i + 1] == toks[..i] + [toks[i]];
  }

  /** Two indexes over the same documents hold the same postings. */
  lemma PostingsDetermined(a: map<string, seq<Posting>>, b: map<string, seq<Posting>>, docs: seq<seq<string>>)
    requires PostingsMatch(a, docs) && PostingsMatch(b, docs)
    ensures a == b
  {
    forall t ensures (t in a <==> t in b) && (t in a ==> a[t] == b[t]) {
      assert ListIs(a, t, PostingsOf(docs, t)) && ListIs(b, t, PostingsOf(docs, t));
    }
  }

  class Index {
    const model: Model
    const tokenize: string -> seq<string>
    const before: (string, string) -> bool
    var ids: seq<string>
    var docLen: seq<nat>
    var postings: map<string, seq<Posting>>
    var totalLen: nat
    var finalized: bool
    var idf: map<string, real>
    var avgLen: real
    ghost var docs: seq<seq<string>>

    ghost predicate Stored()
      reads this
    {
      && |ids| == |docs| == |docLen| && totalLen == TotalLength(docs)
      && (forall i :: 0 <= i < |docs| ==> docLen[i] == |docs[i]|)
      && PostingsMatch(postings, docs)
    }

    ghost predicate Finished()
      reads this
    {
      && avgLen == AverageLength(docs)
      && forall t :: t in postings ==> t in idf && idf[t] == Idf(model, |docs|, |PostingsOf(docs, t)|)
    }

    ghost predicate Valid()
      reads this
    {
      TotalOrder(before) && Stored() && (finalized ==> Finished())
    }

    constructor (m: Model, tokenize: string -> seq<string>, before: (string, string) -> bool)
      requires TotalOrder(before)
      ensures Valid() && docs == [] && ids == [] && model == Clamped(m) && this.tokenize == tokenize && this.before == before
    {
      model := Clamped(m);
      this.tokenize, this.before := tokenize, before;
      ids, docLen, postings, totalLen := [], [], map[], 0;
      finalized, idf, avgLen := false, map[], 0.0;
      docs := [];
    }

    /** The tail of Add: one counted document behind the others. */
    method Post(id: string, n: nat, tf: map<string, nat>, ghost toks: seq<string>)
      requires Valid() && IsCount(tf, toks) && n == |toks| && !finalized
      modifies this
      ensures Valid() && docs == old(docs) + [toks] && ids == old(ids) + [id] && !finalized
    {
      ghost var ds := docs;
      var ord := |ids|;
      ids := ids + [id];
      docLen := docLen + [n];
      totalLen := totalLen + n;
      TotalLengthNext(ds, toks);
      PostTerms(ord, tf, ds, toks);
      docs := ds + [toks];
    }

    /** Appending a posting per term, in whatever order the map yields them. */
    method PostTerms(ord: nat, tf: map<string, nat>, ghost ds: seq<seq<string>>, ghost toks: seq<string>)
      requires PostingsMatch(postings, ds) && IsCount(tf, toks) && ord == |ds|
      modifies this`postings
      ensures PostingsMatch(postings, ds + [toks])
    {
      PostingStarts(postings, ds, toks, tf);
      hide *;
      var left := tf.Keys;
      while left != {}
        invariant left <= tf.Keys && PartlyPosted(postings, ds, toks, left)
        decreases |left|
      {
        ghost var some := MemberOf(left);
        var t: string :| t in left;
        PostingStep(postings, ds, toks, tf, left, t);
        PostOne(t, Posting(ord, tf[t]));
        left := left - {t};
      }
      PostingDone(postings, ds, toks);
    }

    method PostOne(term: string, p: Posting)
      modifies this`postings
      ensures postings == old(postings)[term := (if term in old(postings) then old(postings)[term] else []) + [p]]
    {
      var was := if term in postings then postings[term] else [];
      postings := postings[term := was + [p]];
    }

    method Add(id: string, text: string)
      requires Valid()
      modifies this
      ensures Valid() && docs == old(docs) + [tokenize(text)] && ids == old(ids) + [id]
    {
      finalized := false;
      var toks := tokenize(text);
      var tf := CountTerms(toks);
      Post(id, |toks|, tf, toks);
    }

    /** AddBatch leaves what Add in order would: the extra ids or texts are ignored. */
    method AddBatch(newIds: seq<string>, texts: seq<string>)
      requires Valid()
      modifies this
      ensures Valid()
      ensures var n := if |newIds| < |texts| then |newIds| else |texts|;
              && docs == old(docs) + seq(n, i requires 0 <= i < n => tokenize(texts[i]))
              && ids == old(ids) + newIds[..n]
    {
      var n := if |newIds| < |texts| then |newIds| else |texts|;
      ghost var toks := seq(n, i requires 0 <= i < n => tokenize(texts[i]));
      if n == 0 {
        return;
      }
      finalized := false;
      var counted := CountAll(texts, n);
      hide *;
      PostAll(newIds, counted, toks, n);
      assert toks[..n] == toks;
    }

    /** The sequential merge of AddBatch. */
    method PostAll(newIds: seq<string>, counted: seq<(nat, map<string, nat>)>, ghost toks: seq<seq<string>>, n: nat)
      requires Valid() && !finalized && n <= |newIds| && |toks| == |counted| == n
      requires forall j :: 0 <= j < n ==> counted[j].0 == |toks[j]| && IsCount(counted[j].1, toks[j])
      modifies this
      ensures Valid() && docs == old(docs) + toks[..n] && ids == old(ids) + newIds[..n]
    {
      hide *;
      for i := 0 to n
        invariant Valid() && docs == old(docs) + toks[..i] && ids == old(ids) + newIds[..i] && !finalized
      {
        assert toks[..i + 1] == toks[..i] + [toks[i]] && newIds[..i + 1] == newIds[..i] + [newIds[i]];
        Post(newIds[i], counted[i].0, counted[i].1, toks[i]);
      }
    }

    /** The workers of AddBatch: every text tokenized and counted on its own. */
    method CountAll(texts: seq<string>, n: nat) returns (counted: seq<(nat, map<string, nat>)>)
      requires n <= |texts|
      ensures |counted| == n
      ensures forall j :: 0 <= j < n ==> counted[j].0 == |tokenize(texts[j])| && IsCount(counted[j].1, tokenize(texts[j]))
    {
      hide IsCount;
      counted := [];
      for i := 0 to n
        invariant |counted| == i
        invariant forall j :: 0 <= j < i ==> counted[j].0 == |tokenize(texts[j])| && IsCount(counted[j].1, tokenize(texts[j]))
      {
        var t := tokenize(texts[i]);
        var tf := CountTerms(t);
        counted := counted + [(|t|, tf)];
      }
    }

    method Finalize()
      requires Valid()
      modifies this`finalized, this`idf, this`avgLen
      ensures Valid() && finalized
    {
      if finalized {
        return;
      }
      var n := |ids|;
      if n == 0 {
        avgLen := 0.0;
        finalized := true;
        NothingPosted(postings);
        return;
      }
      avgLen := totalLen as real / n as real;
      FillIdf(n);
      FinishedNow();
      finalized := true;
    }

    lemma FinishedNow()
      requires Stored() && |docs| > 0 && avgLen == totalLen as real / |docs| as real
      requires forall t :: t in postings ==> t in idf && idf[t] == Idf(model, |docs|, |postings[t]|)
      ensures Finished()
    {
      hide PostingsOf, Idf;
    }

    method FillIdf(n: nat)
      modifies this`idf
      ensures forall t :: t in postings ==> t in idf && idf[t] == Idf(model, n, |postings[t]|)
    {
      idf := map[];
      var left := postings.Keys;
      hide Idf;
      while left != {}
        invariant left <= postings.Keys
        invariant forall t :: t in postings && t !in left ==> t in idf && idf[t] == Idf(model, n, |postings[t]|)
        decreases |left|
      {
        ghost var some := MemberOf(left);
        var t: string :| t in left;
        idf := idf[t := Idf(model, n, |postings[t]|)];
        left := left - {t};
      }
    }

    lemma NothingPosted(ps: map<string, seq<Posting>>)
      requires PostingsMatch(ps, [])
      ensures ps == map[]
    {
      forall t ensures t !in ps {
        assert ListIs(ps, t, PostingsOf([], t));
      }
    }

    /** One term's postings, added to the scores of the terms before it. */
    method AddTerm(scores: map<nat, real>, ghost terms: seq<string>, term: string) returns (r: map<nat, real>)
      requires Valid() && finalized && ScoresOf(model, docs, terms, scores)
      ensures ScoresOf(model, docs, terms + [term], r)
    {
      r := scores;
      TermFacts(term);
      hide *;
      if term !in postings {
        AddingNothing(model, docs, terms, term, scores);
        return;
      }
      AddingStarts(model, docs, terms, term, scores);
      r := AddPostings(scores, terms, term);
      AddingDone(model, docs, terms, term, r);
    }

    method AddPostings(scores: map<nat, real>, ghost terms: seq<string>, term: string) returns (r: map<nat, real>)
      requires PartlyAdded(model, docs, terms, term, scores, 0)
      requires term in postings && term in idf && postings[term] == PostingsOf(docs, term)
      requires forall j :: 0 <= j < |postings[term]| ==>
                 var p := postings[term][j];
                 p.ord < |docs| == |docLen| &&
                 TermScore(model, avgLen, idf[term], p.tf, docLen[p.ord]) == Contribution(model, docs, term, p.ord)
      ensures PartlyAdded(model, docs, terms, term, r, |PostingsOf(docs, term)|)
    {
      hide *;
      r := scores;
      var weight := idf[term];
      var plist := postings[term];
      for j := 0 to |plist|
        invariant PartlyAdded(model, docs, terms, term, r, j)
      {
        AddingNext(model, docs, terms, term, r, j);
        var p := plist[j];
        r := r[p.ord := (if p.ord in r then r[p.ord] else 0.0) + TermScore(model, avgLen, weight, p.tf, docLen[p.ord])];
      }
    }

    /** What the stored lists say about a term. */
    lemma TermFacts(term: string)
      requires Valid() && finalized
      ensures term !in postings ==> PostingsOf(docs, term) == []
      ensures term in postings ==> term in idf && postings[term] == PostingsOf(docs, term)
      ensures term in postings ==>
                forall j :: 0 <= j < |postings[term]| ==>
                  var p := postings[term][j];
                  p.ord < |docs| == |docLen| &&
                  TermScore(model, avgLen, idf[term], p.tf, docLen[p.ord]) == Contribution(model, docs, term, p.ord)
    {
      PostingsAscend(docs, term);
      hide PostingsOf, TermScore;
    }

    /** Search: every matching document with its forward score, the k best of them. */
    method Search(query: string, k: int) returns (out: seq<Result>)
      requires Valid()
      modifies this`finalized, this`idf, this`avgLen
      ensures Valid()
      ensures k <= 0 || |docs| == 0 || |tokenize(query)| == 0 ==> out == []
      ensures k > 0 ==>
                exists terms, scores :: Distinct(terms) && (forall t :: t in terms <==> t in tokenize(query)) &&
                  ScoresOf(model, docs, terms, scores) && Answers(ids, scores, k, before, out)
    {
      if k <= 0 {
        return [];
      }
      if |ids| == 0 {
        ghost var terms := Dedupe(tokenize(query));
        NoDocuments(terms, k);
        return [];
      }
      Finalize();
      var qterms := tokenize(query);
      hide Stored, Finished, Answers, ScoresOf;
      if |qterms| == 0 {
        NoTerms(k);
        assert forall t :: t in [] <==> t in qterms;
        return [];
      }
      ghost var terms;
      var scores;
      scores, terms := Accumulate(qterms);
      InRangeScores(terms, scores);
      if |scores.Keys| == 0 {
        NoScores(scores, k);
        return [];
      }
      out := TopK(ids, scores, k, before);
    }

    /** The scoring loop: terms sorted, repeats skipped. */
    method Accumulate(qterms: seq<string>) returns (scores: map<nat, real>, ghost terms: seq<string>)
      requires Valid() && finalized
      ensures Distinct(terms) && (forall t :: t in terms <==> t in qterms) && ScoresOf(model, docs, terms, scores)
      ensures forall o :: o in scores <==> Matches(docs, qterms, o)
    {
      var sorted := SortBy(before, qterms);
      SameMembers(qterms, sorted);
      scores := map[];
      terms := [];
      NoScoresYet();
      hide ScoresOf, Stored, Finished;
      var prev := "";
      for i := 0 to |sorted|
        invariant Distinct(terms) && ScoresOf(model, docs, terms, scores)
        invariant forall t :: t in terms <==> t in sorted[..i]
        invariant i > 0 ==> prev == sorted[i - 1]
      {
        var term := sorted[i];
        assert sorted[..i + 1] == sorted[..i] + [term];
        if i > 0 && term == prev {
          assert sorted[i - 1] in sorted[..i];
          continue;
        }
        NotBefore(sorted, i);
        DistinctSnoc(terms, term);
        prev := term;
        scores := AddTerm(scores, terms, term);
        terms := terms + [term];
      }
      assert sorted[..|sorted|] == sorted;
      ScoredMatch(model, docs, terms, qterms, scores);
    }

    /** In sorted order a new term differs from all before it. */
    lemma NotBefore(sorted: seq<string>, i: nat)
      requires TotalOrder(before) && SortedBy(before, sorted) && i < |sorted| && (i > 0 ==> sorted[i] != sorted[i - 1])
      ensures sorted[i] !in sorted[..i]
    {
      forall j | 0 <= j < i ensures sorted[j] != sorted[i] {
        var x, y, z := sorted[i - 1], sorted[i], sorted[j];
        assert !before(y, x);
        assert j < i - 1 ==> !before(x, z);
        assert !before(y, x) && !before(x, y) ==> x == y;
      }
    }

    lemma NoScoresYet()
      ensures ScoresOf(model, docs, [], map[])
    {
    }

    lemma InRangeScores(terms: seq<string>, scores: map<nat, real>)
      requires Valid() && ScoresOf(model, docs, terms, scores)
      ensures forall o :: o in scores ==> o < |ids|
    {
      hide PostingsMatch;
    }

    lemma NoScores(scores: map<nat, real>, k: nat)
      requires |scores.Keys| == 0
      ensures Answers(ids, scores, k, before, [])
    {
      assert scores.Keys == {};
      var none: seq<Scored> := [];
      EverythingSize(scores, scores.Keys);
      assert multiset(none) == multiset{};
      assert Everything(scores, scores.Keys) == multiset{};
      assert InRange(ids, none) && ResultsOf(ids, none) == [];
    }

    lemma NoTerms(k: nat)
      ensures Distinct<string>([]) && ScoresOf(model, docs, [], map[]) && Answers(ids, map[], k, before, [])
    {
      NoScores(map[], k);
    }

    lemma NoDocuments(terms: seq<string>, k: nat)
      requires Valid() && |ids| == 0
      ensures ScoresOf(model, docs, terms, map[]) && Answers(ids, map[], k, before, [])
    {
      NoScores(map[], k);
    }
  }

  /** The distinct elements of a list. */
  ghost function Dedupe(s: seq<string>): (r: seq<string>)
    ensures Distinct(r) && forall t :: t in r <==> t in s
  {
    if |s| == 0 then []
    else
      var rest := Dedupe(s[..|s| - 1]);
      assert s == s[..|s| - 1] + [s[|s| - 1]];
      if s[|s| - 1] in rest then rest else (DistinctSnoc(rest, s[|s| - 1]); rest + [s[|s| - 1]])
  }

  // ---------- the answer depends on the query's terms alone ----------

  lemma {:induction false} ForwardTakeOut(m: Model, docs: seq<seq<string>>, terms: seq<string>, j: nat, o: nat)
    requires o < |docs| && j < |terms|
    ensures ForwardScore(m, docs, terms, o)
         == ForwardScore(m, docs, terms[..j] + terms[j + 1..], o) + Contribution(m, docs, terms[j], o)
    decreases |terms|
  {
    hide Contribution;
    var n := |terms| - 1;
    var rest := terms[..j] + terms[j + 1..];
    if j == n {
      assert rest == terms[..n];
    } else {
      ForwardTakeOut(m, docs, terms[..n], j, o);
      assert rest[..n - 1] == terms[..n][..j] + terms[..n][j + 1..];
      assert rest[n - 1] == terms[n];
    }
  }

  /** The order of the terms does not matter. */
  lemma {:induction false} ForwardAnyOrder(m: Model, docs: seq<seq<string>>, a: seq<string>, b: seq<string>, o: nat)
    requires o < |docs| && multiset(a) == multiset(b)
    ensures ForwardScore(m, docs, a, o) == ForwardScore(m, docs, b, o)
    decreases |a|
  {
    SameSize(a);
    SameSize(b);
    if |a| > 0 {
      var n := |a| - 1;
      assert a[n] in multiset(a);
      var j :| 0 <= j < |b| && b[j] == a[n];
      TakeOut(a, n);
      TakeOut(b, j);
      hide *;
      assert a[..n] + a[n + 1..] == a[..n];
      Cancel(multiset(a[..n]), multiset(b[..j] + b[j + 1..]), a[n]);
      ForwardTakeOut(m, docs, a, n, o);
      ForwardTakeOut(m, docs, b, j, o);
      ForwardAnyOrder(m, docs, a[..n], b[..j] + b[j + 1..], o);
    }
  }

  lemma SameTerms(a: seq<string>, b: seq<string>)
    requires Distinct(a) && Distinct(b) && forall t :: t in a <==> t in b
    ensures multiset(a) == multiset(b)
  {
    forall t ensures multiset(a)[t] == multiset(b)[t] {
      DistinctMultiset(a, t);
      DistinctMultiset(b, t);
      assert t in a <==> t in multiset(a);
      assert t in b <==> t in multiset(b);
    }
  }

  /** Two searches with the same terms over the same documents give the same answer,
      whatever order the terms were scored in and the scores were visited. */
  lemma SearchIsDetermined(m: Model, docs: seq<seq<string>>, ids: seq<string>, k: nat, before: (string, string) -> bool,
                           terms1: seq<string>, scores1: map<nat, real>, out1: seq<Result>,
                           terms2: seq<string>, scores2: map<nat, real>, out2: seq<Result>)
    requires TotalOrder(before) && Distinct(terms1) && Distinct(terms2) && forall t :: t in terms1 <==> t in terms2
    requires ScoresOf(m, docs, terms1, scores1) && Answers(ids, scores1, k, before, out1)
    requires ScoresOf(m, docs, terms2, scores2) && Answers(ids, scores2, k, before, out2)
    ensures scores1 == scores2 && out1 == out2
  {
    hide *;
    SameScores(m, docs, terms1, scores1, terms2, scores2);
    AnswerIsUnique(ids, scores1, k, before, out1, out2);
  }

  lemma SameScores(m: Model, docs: seq<seq<string>>, terms1: seq<string>, scores1: map<nat, real>,
                   terms2: seq<string>, scores2: map<nat, real>)
    requires Distinct(terms1) && Distinct(terms2) && forall t :: t in terms1 <==> t in terms2
    requires ScoresOf(m, docs, terms1, scores1) && ScoresOf(m, docs, terms2, scores2)
    ensures scores1 == scores2
  {
    SameTerms(terms1, terms2);
    hide Distinct;
    forall o ensures Matches(docs, terms1, o) == Matches(docs, terms2, o) {
      SameMatches(docs, terms1, terms2, o);
    }
    hide Matches, ForwardScore;
    forall o | o in scores1 ensures o in scores2 && scores1[o] == scores2[o] {
      MatchInRange(docs, terms1, o);
      ForwardAnyOrder(m, docs, terms1, terms2, o);
    }
  }

  lemma SameMatches(docs: seq<seq<string>>, a: seq<string>, b: seq<string>, o: nat)
    requires forall t :: t in a <==> t in b
    ensures Matches(docs, a, o) == Matches(docs, b, o)
  {
    hide Count;
  }

  lemma MatchInRange(docs: seq<seq<string>>, terms: seq<string>, o: nat)
    requires Matches(docs, terms, o)
    ensures o < |docs|
  {
  }
}
