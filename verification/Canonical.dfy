/** Canonicalize of entity/canonical.go: surface variants merge into cluster heads, and
    mentions, chunks and the weight of relations between clusters are conserved. */
module Canonical {
  import opened Orders
  import opened Entities
  import opened EntityGraphs

  // ---------- sums by group ----------

  ghost function Total<T>(xs: seq<T>, w: T -> nat): nat {
    if |xs| == 0 then 0 else Total(xs[..|xs| - 1], w) + w(xs[|xs| - 1])
  }

  /** The weight of the elements that belong to u. */
  ghost function GroupSum<T, U>(xs: seq<T>, w: T -> nat, f: T -> U, u: U): nat {
    if |xs| == 0 then 0
    else GroupSum(xs[..|xs| - 1], w, f, u) + if f(xs[|xs| - 1]) == u then w(xs[|xs| - 1]) else 0
  }

  /** The weight of all groups listed. */
  ghost function GroupTotal<T, U>(us: seq<U>, xs: seq<T>, w: T -> nat, f: T -> U): nat {
    if |us| == 0 then 0 else GroupTotal(us[..|us| - 1], xs, w, f) + GroupSum(xs, w, f, us[|us| - 1])
  }

  lemma GroupSumNext<T, U>(xs: seq<T>, x: T, w: T -> nat, f: T -> U, u: U)
    ensures GroupSum(xs + [x], w, f, u) == GroupSum(xs, w, f, u) + if f(x) == u then w(x) else 0
  {
    assert (xs + [x])[..|xs|] == xs;
  }

  lemma {:induction false} GroupTotalNext<T, U>(us: seq<U>, xs: seq<T>, x: T, w: T -> nat, f: T -> U)
    requires Distinct(us)
    ensures GroupTotal(us, xs + [x], w, f) == GroupTotal(us, xs, w, f) + if f(x) in us then w(x) else 0
  {
    if |us| > 0 {
      var n := |us| - 1;
      GroupTotalNext(us[..n], xs, x, w, f);
      GroupSumNext(xs, x, w, f, us[n]);
      assert us == us[..n] + [us[n]];
      hide GroupSum;
      assert us[n] !in us[..n];
    }
  }

  /** When every element belongs to a listed group, the groups add up to the whole. */
  lemma {:induction false} GroupsAddUp<T, U>(us: seq<U>, xs: seq<T>, w: T -> nat, f: T -> U)
    requires Distinct(us) && forall x :: x in xs ==> f(x) in us
    ensures GroupTotal(us, xs, w, f) == Total(xs, w)
  {
    if |xs| == 0 {
      NoGroups(us, xs, w, f);
    } else {
      var n := |xs| - 1;
      assert xs == xs[..n] + [xs[n]];
      GroupsAddUp(us, xs[..n], w, f);
      GroupTotalNext(us, xs[..n], xs[n], w, f);
      assert xs[n] in xs;
    }
  }

  lemma {:induction false} NoGroups<T, U>(us: seq<U>, xs: seq<T>, w: T -> nat, f: T -> U)
    requires |xs| == 0
    ensures GroupTotal(us, xs, w, f) == 0
  {
    if |us| > 0 {
      NoGroups(us[..|us| - 1], xs, w, f);
    }
  }

  // ---------- the order and the clusters ----------

  /** Longest name first, then most mentions, then the smaller name. */
  function Rank(m: map<string, Stored>, size: string -> nat, before: (string, string) -> bool): (string, string) -> bool {
    (a: string, b: string) =>
      if size(a) != size(b) then size(a) > size(b)
      else if Fetch(m, a).mentions != Fetch(m, b).mentions then Fetch(m, a).mentions > Fetch(m, b).mentions
      else before(a, b)
  }

  lemma RankIsOrder(m: map<string, Stored>, size: string -> nat, before: (string, string) -> bool)
    requires StrictWeak(before)
    ensures StrictWeak(Rank(m, size, before))
  {
    hide Fetch;
  }

  /** Every name has a head, heads are their own, and a variant is mergeable with its. */
  ghost predicate Clustered(names: seq<string>, parent: map<string, string>, heads: seq<string>,
                            mergeable: (string, string) -> bool)
  {
    && Distinct(heads)
    && (forall n :: n in parent <==> n in names)
    && (forall n :: n in names ==> parent[n] in heads)
    && (forall h :: h in heads ==> h in names && parent[h] == h)
    && (forall n :: n in names && parent[n] != n ==> mergeable(n, parent[n]))
  }

  /** Among the first n names, ranked: a name survives exactly when no survivor before it is
      mergeable with it, and every other one belongs to the first survivor it merges with. */
  ghost predicate FirstHeads(names: seq<string>, n: nat, parent: map<string, string>, survivors: set<string>,
                             mergeable: (string, string) -> bool)
  {
    && n <= |names|
    && (forall j :: 0 <= j < n ==> (names[j] in survivors <==> !Absorbed(names, j, survivors, mergeable)))
    && (forall j :: 0 <= j < n && names[j] !in survivors ==>
          names[j] in parent && exists i :: FirstMatch(names, j, i, survivors, mergeable) && parent[names[j]] == names[i])
  }

  ghost predicate Absorbed(names: seq<string>, j: nat, survivors: set<string>, mergeable: (string, string) -> bool)
    requires j < |names|
  {
    exists i :: 0 <= i < j && names[i] in survivors && mergeable(names[j], names[i])
  }

  /** names[i] is the first survivor before names[j] that names[j] is mergeable with. */
  ghost predicate FirstMatch(names: seq<string>, j: int, i: int, survivors: set<string>, mergeable: (string, string) -> bool) {
    && 0 <= i < j < |names| && names[i] in survivors && mergeable(names[j], names[i])
    && forall k :: 0 <= k < i && names[k] in survivors ==> !mergeable(names[j], names[k])
  }

  /** The heads among the first n names, in order, and where they stand. */
  ghost predicate HeadsAt(names: seq<string>, n: nat, heads: seq<string>, pos: seq<nat>) {
    && |pos| == |heads| && n <= |names|
    && (forall k :: 0 <= k < |pos| ==> pos[k] < n && names[pos[k]] == heads[k])
    && (forall a, b :: 0 <= a < b < |pos| ==> pos[a] < pos[b])
  }

  method FindHead(n: string, heads: seq<string>, mergeable: (string, string) -> bool)
    returns (found: bool, h: string, ghost at: nat)
    ensures found ==> at < |heads| && h == heads[at] && mergeable(n, h) && forall j :: 0 <= j < at ==> !mergeable(n, heads[j])
    ensures !found ==> forall x :: x in heads ==> !mergeable(n, x)
  {
    for i := 0 to |heads|
      invariant forall j :: 0 <= j < i ==> !mergeable(n, heads[j])
    {
      if mergeable(n, heads[i]) {
        return true, heads[i], i;
      }
    }
    found, h, at := false, "", 0;
  }

  ghost function Members(heads: seq<string>): set<string> { set h | h in heads }

  /** The clustering loop. No two heads are mergeable, the later with the earlier, and every
      name joins the first head it is mergeable with. */
  method Cluster(names: seq<string>, mergeable: (string, string) -> bool) returns (parent: map<string, string>, heads: seq<string>)
    requires Distinct(names)
    ensures Clustered(names, parent, heads, mergeable)
    ensures FirstHeads(names, |names|, parent, Members(heads), mergeable)
    ensures forall i, j :: 0 <= i < j < |heads| ==> !mergeable(heads[j], heads[i])
  {
    hide *;
    parent, heads := map[], [];
    ghost var pos: seq<nat> := [];
    NoClusters(names, mergeable);
    for i := 0 to |names|
      invariant Clustering(names, i, parent, heads, pos, mergeable)
    {
      var n := names[i];
      var found, h, at := FindHead(n, heads, mergeable);
      if found {
        VariantNext(names, i, parent, heads, pos, mergeable, at);
        parent := parent[n := h];
      } else {
        HeadNext(names, i, parent, heads, pos, mergeable);
        parent := parent[n := n];
        heads := heads + [n];
        pos := pos + [i];
      }
    }
    ClusteringDone(names, parent, heads, pos, mergeable);
  }

  /** The loop's state before name i. */
  ghost predicate Clustering(names: seq<string>, i: nat, parent: map<string, string>, heads: seq<string>, pos: seq<nat>,
                             mergeable: (string, string) -> bool)
  {
    && i <= |names| && Clustered(names[..i], parent, heads, mergeable) && HeadsAt(names, i, heads, pos)
    && FirstHeads(names, i, parent, Members(heads), mergeable)
    && forall i, j :: 0 <= i < j < |heads| ==> !mergeable(heads[j], heads[i])
  }

  lemma NoClusters(names: seq<string>, mergeable: (string, string) -> bool)
    ensures Clustering(names, 0, map[], [], [], mergeable)
  {
  }

  lemma ClusteringDone(names: seq<string>, parent: map<string, string>, heads: seq<string>, pos: seq<nat>,
                       mergeable: (string, string) -> bool)
    requires Clustering(names, |names|, parent, heads, pos, mergeable)
    ensures Clustered(names, parent, heads, mergeable) && FirstHeads(names, |names|, parent, Members(heads), mergeable)
    ensures forall i, j :: 0 <= i < j < |heads| ==> !mergeable(heads[j], heads[i])
  {
    assert names[..|names|] == names;
    hide Clustered, FirstHeads;
  }

  lemma VariantNext(names: seq<string>, i: nat, parent: map<string, string>, heads: seq<string>, pos: seq<nat>,
                    mergeable: (string, string) -> bool, at: nat)
    requires Distinct(names) && i < |names| && at < |heads| && mergeable(names[i], heads[at])
    requires forall j :: 0 <= j < at ==> !mergeable(names[i], heads[j])
    requires Clustering(names, i, parent, heads, pos, mergeable)
    ensures Clustering(names, i + 1, parent[names[i] := heads[at]], heads, pos, mergeable)
  {
    hide *;
    ClusteringParts(names, i, parent, heads, pos, mergeable);
    NameIsNew(names, i);
    VariantJoins(names[..i], parent, heads, mergeable, names[i], heads[at]);
    VariantIsFirst(names, i, parent, heads, pos, mergeable, at);
    ClusteringFrom(names, i + 1, parent[names[i] := heads[at]], heads, pos, mergeable);
  }

  lemma NameIsNew(names: seq<string>, i: nat)
    requires Distinct(names) && i < |names|
    ensures names[..i + 1] == names[..i] + [names[i]] && names[i] !in names[..i]
  {
  }

  lemma ClusteringParts(names: seq<string>, i: nat, parent: map<string, string>, heads: seq<string>, pos: seq<nat>,
                        mergeable: (string, string) -> bool)
    requires Clustering(names, i, parent, heads, pos, mergeable)
    ensures i <= |names| && Clustered(names[..i], parent, heads, mergeable) && HeadsAt(names, i, heads, pos)
    ensures FirstHeads(names, i, parent, Members(heads), mergeable)
    ensures forall i, j :: 0 <= i < j < |heads| ==> !mergeable(heads[j], heads[i])
  {
    hide Clustered, FirstHeads, HeadsAt;
  }

  lemma ClusteringFrom(names: seq<string>, i: nat, parent: map<string, string>, heads: seq<string>, pos: seq<nat>,
                       mergeable: (string, string) -> bool)
    requires i <= |names| && Clustered(names[..i], parent, heads, mergeable) && HeadsAt(names, i, heads, pos)
    requires FirstHeads(names, i, parent, Members(heads), mergeable)
    requires forall i, j :: 0 <= i < j < |heads| ==> !mergeable(heads[j], heads[i])
    ensures Clustering(names, i, parent, heads, pos, mergeable)
  {
    hide Clustered, FirstHeads, HeadsAt;
  }

  lemma HeadNext(names: seq<string>, i: nat, parent: map<string, string>, heads: seq<string>, pos: seq<nat>,
                 mergeable: (string, string) -> bool)
    requires Distinct(names) && i < |names| && forall x :: x in heads ==> !mergeable(names[i], x)
    requires Clustering(names, i, parent, heads, pos, mergeable)
    ensures Clustering(names, i + 1, parent[names[i] := names[i]], heads + [names[i]], pos + [i], mergeable)
  {
    hide *;
    ClusteringParts(names, i, parent, heads, pos, mergeable);
    NameIsNew(names, i);
    HeadJoins(names[..i], parent, heads, mergeable, names[i]);
    HeadIsNew(names, i, parent, heads, pos, mergeable);
    assert forall k :: 0 <= k < |heads| ==> heads[k] in heads;
    ClusteringFrom(names, i + 1, parent[names[i] := names[i]], heads + [names[i]], pos + [i], mergeable);
  }

  lemma VariantIsFirst(names: seq<string>, i: nat, parent: map<string, string>, heads: seq<string>, pos: seq<nat>,
                       mergeable: (string, string) -> bool, at: nat)
    requires Distinct(names) && i < |names| && at < |heads| && mergeable(names[i], heads[at])
    requires forall j :: 0 <= j < at ==> !mergeable(names[i], heads[j])
    requires HeadsAt(names, i, heads, pos) && FirstHeads(names, i, parent, Members(heads), mergeable)
    ensures HeadsAt(names, i + 1, heads, pos)
    ensures FirstHeads(names, i + 1, parent[names[i] := heads[at]], Members(heads), mergeable)
  {
    var survivors := Members(heads);
    assert heads[at] in heads;
    forall k | 0 <= k < pos[at] && names[k] in survivors ensures !mergeable(names[i], names[k]) {
      var y :| 0 <= y < |heads| && heads[y] == names[k];
      assert pos[y] == k;
    }
    assert FirstMatch(names, i, pos[at], survivors, mergeable);
    assert Absorbed(names, i, survivors, mergeable);
    assert names[i] !in survivors;
  }

  lemma HeadIsNew(names: seq<string>, i: nat, parent: map<string, string>, heads: seq<string>, pos: seq<nat>,
                  mergeable: (string, string) -> bool)
    requires Distinct(names) && i < |names| && forall x :: x in heads ==> !mergeable(names[i], x)
    requires HeadsAt(names, i, heads, pos) && FirstHeads(names, i, parent, Members(heads), mergeable)
    ensures HeadsAt(names, i + 1, heads + [names[i]], pos + [i])
    ensures FirstHeads(names, i + 1, parent[names[i] := names[i]], Members(heads + [names[i]]), mergeable)
  {
    var was, now := Members(heads), Members(heads + [names[i]]);
    assert now == was + {names[i]};
    forall j | 0 <= j < i
      ensures Absorbed(names, j, now, mergeable) <==> Absorbed(names, j, was, mergeable)
      ensures forall k :: FirstMatch(names, j, k, now, mergeable) <==> FirstMatch(names, j, k, was, mergeable)
    {
    }
    assert !Absorbed(names, i, now, mergeable);
  }

  lemma VariantJoins(names: seq<string>, parent: map<string, string>, heads: seq<string>,
                     mergeable: (string, string) -> bool, n: string, h: string)
    requires Clustered(names, parent, heads, mergeable) && n !in names && h in heads && mergeable(n, h)
    ensures Clustered(names + [n], parent[n := h], heads, mergeable)
  {
    assert forall x :: x in names + [n] <==> x in names || x == n;
  }

  lemma HeadJoins(names: seq<string>, parent: map<string, string>, heads: seq<string>,
                  mergeable: (string, string) -> bool, n: string)
    requires Clustered(names, parent, heads, mergeable) && n !in names
    ensures Clustered(names + [n], parent[n := n], heads + [n], mergeable)
  {
    assert forall x :: x in names + [n] <==> x in names || x == n;
    assert forall x :: x in heads + [n] <==> x in heads || x == n;
    assert n !in heads;
    DistinctSnoc(heads, n);
  }

  // ---------- merging the entities ----------

  function HeadOf(parent: map<string, string>): string -> string {
    (n: string) => if n in parent then parent[n] else n
  }

  function MentionsOf(m: map<string, Stored>): string -> nat { (n: string) => Fetch(m, n).mentions }

  /** A variant's mentions; a head's own are already in its copy. */
  function VariantMentions(m: map<string, Stored>, parent: map<string, string>): string -> nat {
    (n: string) => VariantShare(m, parent, n)
  }

  function VariantShare(m: map<string, Stored>, parent: map<string, string>, n: string): nat {
    if HeadOf(parent)(n) == n then 0 else Fetch(m, n).mentions
  }

  ghost predicate Member(parent: map<string, string>, xs: seq<string>, c: string, n: string) {
    n in xs && HeadOf(parent)(n) == c
  }

  ghost predicate Headed(parent: map<string, string>, xs: seq<string>, c: string) {
    exists n :: Member(parent, xs, c, n)
  }

  /** What is merged under head c from the names xs. */
  ghost predicate MergedHead(m: map<string, Stored>, parent: map<string, string>, xs: seq<string>, c: string, r: Stored) {
    && r.mentions == Fetch(m, c).mentions + GroupSum(xs, VariantMentions(m, parent), HeadOf(parent), c)
    && (forall ch :: ch in r.chunks <==>
          ch in Fetch(m, c).chunks || exists n :: Member(parent, xs, c, n) && ch in Fetch(m, n).chunks)
    && (r.typed <==> Fetch(m, c).typed || exists n :: Member(parent, xs, c, n) && Fetch(m, n).typed)
    && (r.described <==> exists n :: Member(parent, xs, c, n) && Fetch(m, n).described)
  }

  ghost predicate MergedInto(m: map<string, Stored>, parent: map<string, string>, xs: seq<string>, merged: map<string, Stored>) {
    && (forall c :: c in merged <==> Headed(parent, xs, c))
    && (forall c :: c in merged ==> MergedHead(m, parent, xs, c, merged[c]))
  }

  /** appendUnique over a list. */
  method AppendUnique(chunks: seq<string>, more: seq<string>) returns (r: seq<string>)
    ensures forall ch :: ch in r <==> ch in chunks || ch in more
  {
    r := chunks;
    assert more[..0] == [];
    for i := 0 to |more|
      invariant forall ch :: ch in r <==> ch in chunks || ch in more[..i]
    {
      assert more[..i + 1] == more[..i] + [more[i]];
      if more[i] !in r {
        r := r + [more[i]];
      }
    }
    assert more[..|more|] == more;
  }

  /** Folding one name into its head. */
  method FoldIn(base: Stored, e: Stored, isHead: bool) returns (r: Stored)
    ensures r.mentions == base.mentions + if isHead then 0 else e.mentions
    ensures r.typed == (base.typed || (!isHead && e.typed)) && r.described == (base.described || e.described)
    ensures forall ch :: ch in r.chunks <==> ch in base.chunks || ch in e.chunks
  {
    r := base;
    if !isHead {
      r := r.(mentions := r.mentions + e.mentions);
      if !r.typed {
        r := r.(typed := e.typed);
      }
    }
    var chunks := AppendUnique(r.chunks, e.chunks);
    r := r.(chunks := chunks, described := r.described || e.described);
  }

  lemma MemberNext(parent: map<string, string>, xs: seq<string>, n: string)
    ensures forall c, x :: Member(parent, xs + [n], c, x) <==> Member(parent, xs, c, x) || (x == n && HeadOf(parent)(n) == c)
  {
    assert forall x :: x in xs + [n] <==> x in xs || x == n;
  }

  /** A head copied when its first member comes up. */
  lemma HeadCopied(m: map<string, Stored>, parent: map<string, string>, xs: seq<string>, c: string)
    requires forall n :: !Member(parent, xs, c, n)
    ensures MergedHead(m, parent, xs, c, Fetch(m, c).(described := false))
  {
    NoMembers(m, parent, xs, c);
    hide Member, GroupSum;
  }

  lemma {:induction false} NoMembers(m: map<string, Stored>, parent: map<string, string>, xs: seq<string>, c: string)
    requires forall n :: !Member(parent, xs, c, n)
    ensures GroupSum(xs, VariantMentions(m, parent), HeadOf(parent), c) == 0
  {
    if |xs| > 0 {
      var k := |xs| - 1;
      assert !Member(parent, xs, c, xs[k]);
      forall n ensures !Member(parent, xs[..k], c, n) {
        assert !Member(parent, xs, c, n);
      }
      NoMembers(m, parent, xs[..k], c);
    }
  }

  lemma FoldedHead(m: map<string, Stored>, parent: map<string, string>, xs: seq<string>, n: string, base: Stored, r: Stored)
    requires var c := HeadOf(parent)(n);
             && MergedHead(m, parent, xs, c, base) && (n == c ==> base.typed || !Fetch(m, n).typed)
             && r.mentions == base.mentions + (if n == c then 0 else Fetch(m, n).mentions)
             && r.typed == (base.typed || (n != c && Fetch(m, n).typed)) && r.described == (base.described || Fetch(m, n).described)
             && forall ch :: ch in r.chunks <==> ch in base.chunks || ch in Fetch(m, n).chunks
    ensures MergedHead(m, parent, xs + [n], HeadOf(parent)(n), r)
  {
    var c := HeadOf(parent)(n);
    MemberNext(parent, xs, n);
    GroupSumNext(xs, n, VariantMentions(m, parent), HeadOf(parent), c);
    hide Member, GroupSum, Fetch;
    assert Member(parent, xs + [n], c, n);
    forall ch ensures ch in r.chunks <==>
      ch in Fetch(m, c).chunks || exists x :: Member(parent, xs + [n], c, x) && ch in Fetch(m, x).chunks {
      if ch in base.chunks && ch !in Fetch(m, c).chunks {
        var x :| Member(parent, xs, c, x) && ch in Fetch(m, x).chunks;
        assert Member(parent, xs + [n], c, x);
      }
    }
  }

  lemma OtherHead(m: map<string, Stored>, parent: map<string, string>, xs: seq<string>, n: string, d: string, r: Stored)
    requires MergedHead(m, parent, xs, d, r) && HeadOf(parent)(n) != d
    ensures MergedHead(m, parent, xs + [n], d, r)
  {
    MemberNext(parent, xs, n);
    GroupSumNext(xs, n, VariantMentions(m, parent), HeadOf(parent), d);
    hide GroupSum, Fetch, VariantMentions, HeadOf;
    forall x ensures Member(parent, xs + [n], d, x) <==> Member(parent, xs, d, x) {
    }
    hide Member;
  }

  lemma MergedNext(m: map<string, Stored>, parent: map<string, string>, xs: seq<string>, n: string,
                   merged: map<string, Stored>, base: Stored, r: Stored)
    requires MergedInto(m, parent, xs, merged)
    requires var c := HeadOf(parent)(n);
             && base == (if c in merged then merged[c] else Fetch(m, c).(described := false))
             && r.mentions == base.mentions + (if n == c then 0 else Fetch(m, n).mentions)
             && r.typed == (base.typed || (n != c && Fetch(m, n).typed)) && r.described == (base.described || Fetch(m, n).described)
             && forall ch :: ch in r.chunks <==> ch in base.chunks || ch in Fetch(m, n).chunks
    ensures MergedInto(m, parent, xs + [n], merged[HeadOf(parent)(n) := r])
  {
    var c := HeadOf(parent)(n);
    if c !in merged {
      HeadCopied(m, parent, xs, c);
    }
    assert MergedHead(m, parent, xs, c, base);
    BaseTyped(m, parent, xs, c, base);
    FoldedHead(m, parent, xs, n, base, r);
    HeadedNext(parent, xs, n);
    hide MergedHead, Member, HeadOf, Fetch, Headed;
    forall d | d in merged && d != c ensures MergedHead(m, parent, xs + [n], d, merged[d]) {
      OtherHead(m, parent, xs, n, d, merged[d]);
    }
  }

  lemma HeadedNext(parent: map<string, string>, xs: seq<string>, n: string)
    ensures forall d :: Headed(parent, xs + [n], d) <==> Headed(parent, xs, d) || d == HeadOf(parent)(n)
  {
    MemberNext(parent, xs, n);
    hide Member;
    forall d ensures Headed(parent, xs + [n], d) <==> Headed(parent, xs, d) || d == HeadOf(parent)(n) {
      if Headed(parent, xs, d) {
        var x :| Member(parent, xs, d, x);
        assert Member(parent, xs + [n], d, x);
      }
      if d == HeadOf(parent)(n) {
        assert Member(parent, xs + [n], d, n);
      }
    }
  }

  lemma BaseTyped(m: map<string, Stored>, parent: map<string, string>, xs: seq<string>, c: string, base: Stored)
    requires MergedHead(m, parent, xs, c, base)
    ensures Fetch(m, c).typed ==> base.typed
  {
  }

  /** The merging loop. */
  method MergeEntities(m: map<string, Stored>, names: seq<string>, parent: map<string, string>) returns (merged: map<string, Stored>)
    requires forall n :: n in names ==> n in parent
    ensures MergedInto(m, parent, names, merged)
  {
    merged := map[];
    hide *;
    assert names[..0] == [];
    NothingMerged(m, parent);
    for i := 0 to |names|
      invariant MergedInto(m, parent, names[..i], merged)
    {
      var n := names[i];
      assert names[..i + 1] == names[..i] + [n];
      var c := HeadOf(parent)(n);
      var base := if c in merged then merged[c] else Fetch(m, c).(described := false);
      var r := FoldIn(base, Fetch(m, n), n == c);
      MergedNext(m, parent, names[..i], n, merged, base, r);
      merged := merged[c := r];
    }
    assert names[..|names|] == names;
  }

  lemma NothingMerged(m: map<string, Stored>, parent: map<string, string>)
    ensures MergedInto(m, parent, [], map[])
  {
  }

  // ---------- nothing is lost ----------

  /** A head's own mentions and its variants' are the whole cluster's. */
  lemma {:induction false} WholeCluster(m: map<string, Stored>, parent: map<string, string>, xs: seq<string>, c: string)
    requires Distinct(xs) && HeadOf(parent)(c) == c
    ensures GroupSum(xs, MentionsOf(m), HeadOf(parent), c)
         == GroupSum(xs, VariantMentions(m, parent), HeadOf(parent), c) + if c in xs then Fetch(m, c).mentions else 0
  {
    if |xs| > 0 {
      var k := |xs| - 1;
      WholeCluster(m, parent, xs[..k], c);
      assert xs == xs[..k] + [xs[k]];
      assert xs[k] !in xs[..k];
    }
  }

  /** Canonicalize conserves mentions: a head's are those of its cluster, and all together add
      up to all mentions. */
  lemma MentionsConserved(m: map<string, Stored>, names: seq<string>, parent: map<string, string>, heads: seq<string>,
                          merged: map<string, Stored>, mergeable: (string, string) -> bool)
    requires Distinct(names) && Clustered(names, parent, heads, mergeable) && MergedInto(m, parent, names, merged)
    ensures Total(heads, MentionsOf(merged)) == Total(names, MentionsOf(m))
    ensures forall h :: h in merged <==> h in heads
    ensures forall h :: h in heads ==> merged[h].mentions == GroupSum(names, MentionsOf(m), HeadOf(parent), h)
  {
    HeadsAreMerged(m, names, parent, heads, merged, mergeable);
    GroupsAddUp(heads, names, MentionsOf(m), HeadOf(parent));
    hide MergedInto;
    forall h | h in heads ensures merged[h].mentions == GroupSum(names, MentionsOf(m), HeadOf(parent), h) {
      WholeCluster(m, parent, names, h);
      assert MergedHead(m, parent, names, h, merged[h]);
    }
    HeadTotals(m, heads, names, parent, merged);
  }

  lemma HeadsAreMerged(m: map<string, Stored>, names: seq<string>, parent: map<string, string>, heads: seq<string>,
                       merged: map<string, Stored>, mergeable: (string, string) -> bool)
    requires Clustered(names, parent, heads, mergeable) && MergedInto(m, parent, names, merged)
    ensures forall h :: h in merged <==> h in heads
    ensures forall h :: h in heads ==> MergedHead(m, parent, names, h, merged[h])
  {
    hide MergedHead;
    forall h ensures h in merged <==> h in heads {
      if h in heads {
        assert Member(parent, names, h, h);
      }
    }
  }

  lemma {:induction false} HeadTotals(m: map<string, Stored>, hs: seq<string>, names: seq<string>, parent: map<string, string>,
                                      merged: map<string, Stored>)
    requires forall h :: h in hs ==> h in merged && merged[h].mentions == GroupSum(names, MentionsOf(m), HeadOf(parent), h)
    ensures Total(hs, MentionsOf(merged)) == GroupTotal(hs, names, MentionsOf(m), HeadOf(parent))
  {
    if |hs| > 0 {
      var k := |hs| - 1;
      assert hs[k] in hs;
      assert forall h :: h in hs[..k] ==> h in hs;
      HeadTotals(m, hs[..k], names, parent, merged);
    }
  }

  /** And chunks: a chunk is cited by a head exactly when it was cited by its cluster. */
  lemma ChunksConserved(m: map<string, Stored>, names: seq<string>, parent: map<string, string>, heads: seq<string>,
                        merged: map<string, Stored>, mergeable: (string, string) -> bool, h: string, ch: string)
    requires Clustered(names, parent, heads, mergeable) && MergedInto(m, parent, names, merged) && h in heads
    ensures h in merged
    ensures ch in merged[h].chunks <==> exists n :: n in names && parent[n] == h && ch in Fetch(m, n).chunks
  {
    HeadsAreMerged(m, names, parent, heads, merged, mergeable);
    hide MergedInto;
    assert MergedHead(m, parent, names, h, merged[h]);
    assert Member(parent, names, h, h);
  }

  // ---------- rewriting the relations ----------

  predicate Collapses(parent: map<string, string>, k: Key) { HeadOf(parent)(k.0) == HeadOf(parent)(k.1) }

  function RewriteKey(parent: map<string, string>, before: (string, string) -> bool, k: Key): Key {
    var s, t := HeadOf(parent)(k.0), HeadOf(parent)(k.1);
    if before(t, s) then (t, s) else (s, t)
  }

  function Rewrite(parent: map<string, string>, before: (string, string) -> bool): Key -> Key {
    (k: Key) => RewriteKey(parent, before, k)
  }

  function WeightOf(rels: map<Key, nat>): Key -> nat { (k: Key) => GetWeight(rels, k) }

  ghost predicate Rewritten(parent: map<string, string>, before: (string, string) -> bool, xs: seq<Key>, k: Key) {
    exists x :: x in xs && RewriteKey(parent, before, x) == k
  }

  /** The relations xs under their new keys, weights added up. */
  ghost predicate RelationsInto(rels: map<Key, nat>, parent: map<string, string>, before: (string, string) -> bool,
                                xs: seq<Key>, now: map<Key, nat>)
  {
    && (forall k :: k in now <==> Rewritten(parent, before, xs, k))
    && (forall k :: GetWeight(now, k) == GroupSum(xs, WeightOf(rels), Rewrite(parent, before), k))
  }

  lemma RelationsNext(rels: map<Key, nat>, parent: map<string, string>, before: (string, string) -> bool,
                      xs: seq<Key>, now: map<Key, nat>, x: Key)
    requires RelationsInto(rels, parent, before, xs, now)
    ensures var k := RewriteKey(parent, before, x);
            RelationsInto(rels, parent, before, xs + [x], now[k := GetWeight(now, k) + GetWeight(rels, x)])
  {
    var k := RewriteKey(parent, before, x);
    var after := now[k := GetWeight(now, k) + GetWeight(rels, x)];
    hide GroupSum, RewriteKey;
    forall j ensures j in after <==> Rewritten(parent, before, xs + [x], j) {
      RewrittenNext(parent, before, xs, x, j);
    }
    hide Rewritten;
    forall j ensures GetWeight(after, j) == GroupSum(xs + [x], WeightOf(rels), Rewrite(parent, before), j) {
      GroupSumNext(xs, x, WeightOf(rels), Rewrite(parent, before), j);
    }
  }

  lemma RewrittenNext(parent: map<string, string>, before: (string, string) -> bool, xs: seq<Key>, x: Key, j: Key)
    ensures Rewritten(parent, before, xs + [x], j) <==> Rewritten(parent, before, xs, j) || RewriteKey(parent, before, x) == j
  {
    hide RewriteKey;
    assert forall y :: y in xs + [x] <==> y in xs || y == x;
    if Rewritten(parent, before, xs, j) {
      var y :| y in xs && RewriteKey(parent, before, y) == j;
      assert y in xs + [x];
    }
    assert x in xs + [x];
  }

  /** The rewriting loop; live lists the relations that did not collapse. */
  method RewriteRelations(rels: map<Key, nat>, parent: map<string, string>, before: (string, string) -> bool)
    returns (now: map<Key, nat>, ghost live: seq<Key>)
    ensures RelationsInto(rels, parent, before, live, now) && Distinct(live)
    ensures forall k :: k in live <==> k in rels && !Collapses(parent, k)
  {
    now, live := map[], [];
    NothingRewritten(rels, parent, before);
    hide RelationsInto, Collapses, RewriteKey;
    var left := rels.Keys;
    while left != {}
      invariant left <= rels.Keys && RelationsInto(rels, parent, before, live, now) && Distinct(live)
      invariant forall k :: k in live <==> k in rels && k !in left && !Collapses(parent, k)
      decreases |left|
    {
      ghost var some := MemberOf(left);
      var x: Key :| x in left;
      if !Collapses(parent, x) {
        RelationsNext(rels, parent, before, live, now, x);
        DistinctSnoc(live, x);
        assert forall k :: k in live + [x] <==> k in live || k == x;
        var k := RewriteKey(parent, before, x);
        now := now[k := GetWeight(now, k) + GetWeight(rels, x)];
        live := live + [x];
      }
      left := left - {x};
    }
  }

  lemma NothingRewritten(rels: map<Key, nat>, parent: map<string, string>, before: (string, string) -> bool)
    ensures RelationsInto(rels, parent, before, [], map[])
  {
  }

  /** Canonicalize conserves the weight of all relations that do not collapse. */
  lemma WeightConserved(rels: map<Key, nat>, parent: map<string, string>, before: (string, string) -> bool,
                        live: seq<Key>, now: map<Key, nat>, keys: seq<Key>)
    requires RelationsInto(rels, parent, before, live, now) && Distinct(keys) && forall k :: k in keys <==> k in now
    ensures Total(keys, WeightOf(now)) == Total(live, WeightOf(rels))
  {
    forall x | x in live ensures Rewrite(parent, before)(x) in keys {
      assert Rewritten(parent, before, live, RewriteKey(parent, before, x));
    }
    GroupsAddUp(keys, live, WeightOf(rels), Rewrite(parent, before));
    hide Rewritten;
    KeyTotals(rels, parent, before, live, now, keys);
  }

  lemma {:induction false} KeyTotals(rels: map<Key, nat>, parent: map<string, string>, before: (string, string) -> bool,
                                     live: seq<Key>, now: map<Key, nat>, keys: seq<Key>)
    requires forall k :: GetWeight(now, k) == GroupSum(live, WeightOf(rels), Rewrite(parent, before), k)
    ensures Total(keys, WeightOf(now)) == GroupTotal(keys, live, WeightOf(rels), Rewrite(parent, before))
  {
    hide GetWeight, GroupSum, Rewrite;
    if |keys| > 0 {
      KeyTotals(rels, parent, before, live, now, keys[..|keys| - 1]);
      WeightIs(now, keys[|keys| - 1]);
    }
  }

  lemma WeightIs(now: map<Key, nat>, k: Key)
    ensures WeightOf(now)(k) == GetWeight(now, k)
  {
  }

  /** Every rewritten relation joins two present, distinct, ordered heads. */
  lemma RewrittenIsProper(l: Lang, m: map<string, Stored>, rels: map<Key, nat>, names: seq<string>, parent: map<string, string>,
                          heads: seq<string>, mergeable: (string, string) -> bool, merged: map<string, Stored>,
                          live: seq<Key>, now: map<Key, nat>)
    requires TotalOrder(l.before) && Proper(l, m.Keys, rels.Keys) && (forall n :: n in names <==> n in m)
    requires Clustered(names, parent, heads, mergeable) && (forall h :: h in merged <==> h in heads)
    requires RelationsInto(rels, parent, l.before, live, now) && forall k :: k in live <==> k in rels && !Collapses(parent, k)
    ensures Proper(l, merged.Keys, now.Keys)
  {
    hide GroupSum, GetWeight, Clustered, TotalOrder, Proper, RewriteKey, Collapses;
    forall k | k in now ensures k.0 in heads && k.1 in heads && k.0 != k.1 && !l.before(k.1, k.0) {
      assert Rewritten(parent, l.before, live, k);
      var x :| x in live && RewriteKey(parent, l.before, x) == k;
      OneIsProper(l, m, rels, names, parent, heads, mergeable, x);
    }
    ProperFrom(l, merged, now, heads);
  }

  lemma ProperFrom(l: Lang, merged: map<string, Stored>, now: map<Key, nat>, heads: seq<string>)
    requires forall k :: k in now ==> k.0 in heads && k.1 in heads && k.0 != k.1 && !l.before(k.1, k.0)
    requires forall h :: h in merged <==> h in heads
    ensures Proper(l, merged.Keys, now.Keys)
  {
  }

  lemma OneIsProper(l: Lang, m: map<string, Stored>, rels: map<Key, nat>, names: seq<string>, parent: map<string, string>,
                    heads: seq<string>, mergeable: (string, string) -> bool, x: Key)
    requires TotalOrder(l.before) && Proper(l, m.Keys, rels.Keys) && (forall n :: n in names <==> n in m)
    requires Clustered(names, parent, heads, mergeable) && x in rels && !Collapses(parent, x)
    ensures var k := RewriteKey(parent, l.before, x);
            k.0 in heads && k.1 in heads && k.0 != k.1 && !l.before(k.1, k.0)
  {
    var a, b := x.0, x.1;
    assert a in names && b in names;
    var s, t := parent[a], parent[b];
    assert s in heads && t in heads;
    hide Clustered, Proper;
    assert l.before(t, s) ==> !l.before(s, t);
  }

  // ---------- Canonicalize ----------

  method ListNames(m: map<string, Stored>) returns (names: seq<string>)
    ensures Distinct(names) && forall n :: n in names <==> n in m
  {
    names := [];
    var left := m.Keys;
    while left != {}
      invariant left <= m.Keys && Distinct(names) && forall n :: n in names <==> n in m && n !in left
      decreases |left|
    {
      ghost var some := MemberOf(left);
      var n: string :| n in left;
      DistinctSnoc(names, n);
      assert forall x :: x in names + [n] <==> x in names || x == n;
      names := names + [n];
      left := left - {n};
    }
  }

  /** What Canonicalize makes of entities m and relations rels: names in rank order,
      clustered, folded into their heads, and relations rewritten. */
  ghost predicate IsCanonical(l: Lang, size: string -> nat, mergeable: (string, string) -> bool,
                              m: map<string, Stored>, rels: map<Key, nat>,
                              names: seq<string>, parent: map<string, string>, heads: seq<string>, live: seq<Key>,
                              merged: map<string, Stored>, now: map<Key, nat>)
  {
    && Distinct(names) && (forall n :: n in names <==> n in m)
    && SortedBy(Rank(m, size, l.before), names)
    && Clustered(names, parent, heads, mergeable)
    && FirstHeads(names, |names|, parent, merged.Keys, mergeable)
    && MergedInto(m, parent, names, merged)
    && (forall h :: h in merged <==> h in heads)
    && RelationsInto(rels, parent, l.before, live, now)
    && Distinct(live) && (forall k :: k in live <==> k in rels && !Collapses(parent, k))
  }

  lemma CanonicalFrom(l: Lang, size: string -> nat, mergeable: (string, string) -> bool,
                      m: map<string, Stored>, rels: map<Key, nat>,
                      names: seq<string>, parent: map<string, string>, heads: seq<string>, live: seq<Key>,
                      merged: map<string, Stored>, now: map<Key, nat>)
    requires Distinct(names) && (forall n :: n in names <==> n in m)
    requires SortedBy(Rank(m, size, l.before), names) && Clustered(names, parent, heads, mergeable)
    requires FirstHeads(names, |names|, parent, Members(heads), mergeable)
    requires MergedInto(m, parent, names, merged) && (forall h :: h in merged <==> h in heads)
    requires RelationsInto(rels, parent, l.before, live, now)
    requires Distinct(live) && (forall k :: k in live <==> k in rels && !Collapses(parent, k))
    ensures IsCanonical(l, size, mergeable, m, rels, names, parent, heads, live, merged, now)
  {
    assert merged.Keys == Members(heads);
    hide Clustered, FirstHeads, MergedInto, RelationsInto, Rank, Distinct, SortedBy, Collapses;
  }

  method MakeCanonical(l: Lang, size: string -> nat, mergeable: (string, string) -> bool, m: map<string, Stored>, rels: map<Key, nat>)
    returns (merged: map<string, Stored>, now: map<Key, nat>,
             ghost names: seq<string>, ghost parent: map<string, string>, ghost heads: seq<string>, ghost live: seq<Key>)
    requires TotalOrder(l.before) && Proper(l, m.Keys, rels.Keys)
    ensures IsCanonical(l, size, mergeable, m, rels, names, parent, heads, live, merged, now)
    ensures Proper(l, merged.Keys, now.Keys)
  {
    RankIsOrder(m, size, l.before);
    hide *;
    var sorted := RankNames(m, size, l.before);
    var p, hs := Cluster(sorted, mergeable);
    ParentsAll(sorted, p, hs, mergeable);
    merged := MergeEntities(m, sorted, p);
    HeadsAreMerged(m, sorted, p, hs, merged, mergeable);
    now, live := RewriteRelations(rels, p, l.before);
    RewrittenIsProper(l, m, rels, sorted, p, hs, mergeable, merged, live, now);
    names, parent, heads := sorted, p, hs;
    CanonicalFrom(l, size, mergeable, m, rels, names, parent, heads, live, merged, now);
  }

  method RankNames(m: map<string, Stored>, size: string -> nat, before: (string, string) -> bool) returns (sorted: seq<string>)
    requires StrictWeak(Rank(m, size, before))
    ensures Distinct(sorted) && (forall n :: n in sorted <==> n in m) && SortedBy(Rank(m, size, before), sorted)
  {
    hide *;
    var listed := ListNames(m);
    sorted := SortBy(Rank(m, size, before), listed);
    SameMembers(listed, sorted);
    RearrangedDistinct(listed, sorted);
  }

  /** Longer names first, then those mentioned more often, then the smaller ones. */
  ghost predicate Ranked(names: seq<string>, m: map<string, Stored>, size: string -> nat, before: (string, string) -> bool) {
    && Distinct(names)
    && forall i, j :: 0 <= i < j < |names| ==> Outranks(m, size, before, names[i], names[j])
  }

  ghost predicate Outranks(m: map<string, Stored>, size: string -> nat, before: (string, string) -> bool, a: string, b: string) {
    a in m && b in m ==>
      || size(a) > size(b)
      || (size(a) == size(b) && m[a].mentions > m[b].mentions)
      || (size(a) == size(b) && m[a].mentions == m[b].mentions && !before(b, a))
  }

  /** The survivors that the ends of k belong to are a and b, either way round. */
  predicate Joined(parent: map<string, string>, k: Key, a: string, b: string) {
    && k.0 in parent && k.1 in parent
    && ((parent[k.0] == a && parent[k.1] == b) || (parent[k.0] == b && parent[k.1] == a))
  }

  /** The weight of the listed relations that come to join a and b. */
  function JoinWeight(rels: map<Key, nat>, parent: map<string, string>, ks: seq<Key>, a: string, b: string): nat {
    if |ks| == 0 then 0
    else
      var k := ks[|ks| - 1];
      JoinWeight(rels, parent, ks[..|ks| - 1], a, b) + if k in rels && Joined(parent, k, a, b) then rels[k] else 0
  }

  /** live lists the relations whose ends stay apart; every pair of survivors is related by
      exactly the sum of those between their variants. */
  ghost predicate PairsWeigh(before: (string, string) -> bool, parent: map<string, string>, rels: map<Key, nat>,
                             live: seq<Key>, now: map<Key, nat>)
  {
    && Distinct(live)
    && (forall k :: k in live <==> k in rels && k.0 in parent && k.1 in parent && parent[k.0] != parent[k.1])
    && forall a, b :: a != b && before(a, b) ==> (if (a, b) in now then now[(a, b)] else 0) == JoinWeight(rels, parent, live, a, b)
  }

  lemma RankSays(m: map<string, Stored>, size: string -> nat, before: (string, string) -> bool, a: string, b: string)
    requires !Rank(m, size, before)(b, a)
    ensures Outranks(m, size, before, a, b)
  {
    if a in m && b in m {
      assert Fetch(m, a) == m[a] && Fetch(m, b) == m[b];
    }
  }

  lemma CanonicalIsRanked(l: Lang, size: string -> nat, m: map<string, Stored>, names: seq<string>)
    requires Distinct(names) && SortedBy(Rank(m, size, l.before), names)
    ensures Ranked(names, m, size, l.before)
  {
    forall i, j | 0 <= i < j < |names| ensures Outranks(m, size, l.before, names[i], names[j]) {
      assert !Rank(m, size, l.before)(names[j], names[i]);
      RankSays(m, size, l.before, names[i], names[j]);
    }
  }

  lemma {:induction false} PairWeight(rels: map<Key, nat>, parent: map<string, string>, before: (string, string) -> bool,
                                      xs: seq<Key>, a: string, b: string)
    requires TotalOrder(before) && before(a, b)
    requires forall k :: k in xs ==> k in rels && k.0 in parent && k.1 in parent && parent[k.0] != parent[k.1]
    ensures GroupSum(xs, WeightOf(rels), Rewrite(parent, before), (a, b)) == JoinWeight(rels, parent, xs, a, b)
  {
    if |xs| > 0 {
      var front, k := xs[..|xs| - 1], xs[|xs| - 1];
      assert k in xs;
      PairWeight(rels, parent, before, front, a, b);
      PairOfOne(parent, before, k, a, b);
      hide Joined, RewriteKey;
    }
  }

  lemma PairOfOne(parent: map<string, string>, before: (string, string) -> bool, k: Key, a: string, b: string)
    requires TotalOrder(before) && before(a, b) && k.0 in parent && k.1 in parent && parent[k.0] != parent[k.1]
    ensures RewriteKey(parent, before, k) == (a, b) <==> Joined(parent, k, a, b)
  {
    assert !before(b, a);
  }

  lemma CanonicalWeighs(l: Lang, size: string -> nat, mergeable: (string, string) -> bool,
                        m: map<string, Stored>, rels: map<Key, nat>,
                        names: seq<string>, parent: map<string, string>, heads: seq<string>, live: seq<Key>,
                        merged: map<string, Stored>, now: map<Key, nat>)
    requires IsCanonical(l, size, mergeable, m, rels, names, parent, heads, live, merged, now)
    requires TotalOrder(l.before) && Proper(l, m.Keys, rels.Keys)
    ensures PairsWeigh(l.before, parent, rels, live, now)
  {
    hide *;
    LiveAre(l, size, mergeable, m, rels, names, parent, heads, live, merged, now);
    RelationsAre(l, size, mergeable, m, rels, names, parent, heads, live, merged, now);
    forall a, b | a != b && l.before(a, b)
      ensures (if (a, b) in now then now[(a, b)] else 0) == JoinWeight(rels, parent, live, a, b)
    {
      PairWeight(rels, parent, l.before, live, a, b);
      WeightOfPair(rels, parent, l.before, live, now, a, b);
    }
    PairsWeighFrom(l.before, parent, rels, live, now);
  }

  lemma WeightOfPair(rels: map<Key, nat>, parent: map<string, string>, before: (string, string) -> bool,
                     live: seq<Key>, now: map<Key, nat>, a: string, b: string)
    requires RelationsInto(rels, parent, before, live, now)
    ensures (if (a, b) in now then now[(a, b)] else 0) == GroupSum(live, WeightOf(rels), Rewrite(parent, before), (a, b))
  {
    hide GroupSum, Rewritten;
    assert GetWeight(now, (a, b)) == GroupSum(live, WeightOf(rels), Rewrite(parent, before), (a, b));
  }

  lemma PairsWeighFrom(before: (string, string) -> bool, parent: map<string, string>, rels: map<Key, nat>,
                       live: seq<Key>, now: map<Key, nat>)
    requires Distinct(live)
    requires forall k :: k in live <==> k in rels && k.0 in parent && k.1 in parent && parent[k.0] != parent[k.1]
    requires forall a, b :: a != b && before(a, b) ==> (if (a, b) in now then now[(a, b)] else 0) == JoinWeight(rels, parent, live, a, b)
    ensures PairsWeigh(before, parent, rels, live, now)
  {
    hide JoinWeight;
  }

  lemma RelationsAre(l: Lang, size: string -> nat, mergeable: (string, string) -> bool,
                     m: map<string, Stored>, rels: map<Key, nat>,
                     names: seq<string>, parent: map<string, string>, heads: seq<string>, live: seq<Key>,
                     merged: map<string, Stored>, now: map<Key, nat>)
    requires IsCanonical(l, size, mergeable, m, rels, names, parent, heads, live, merged, now)
    ensures RelationsInto(rels, parent, l.before, live, now) && Distinct(live)
  {
    hide Clustered, FirstHeads, MergedInto, RelationsInto, SortedBy, Rank, Collapses;
  }

  lemma LiveAre(l: Lang, size: string -> nat, mergeable: (string, string) -> bool,
                m: map<string, Stored>, rels: map<Key, nat>,
                names: seq<string>, parent: map<string, string>, heads: seq<string>, live: seq<Key>,
                merged: map<string, Stored>, now: map<Key, nat>)
    requires IsCanonical(l, size, mergeable, m, rels, names, parent, heads, live, merged, now)
    requires Proper(l, m.Keys, rels.Keys)
    ensures forall k :: k in live <==> k in rels && k.0 in parent && k.1 in parent && parent[k.0] != parent[k.1]
  {
    hide FirstHeads, MergedInto, RelationsInto, SortedBy, Rank;
    forall k | k in rels ensures k.0 in parent && k.1 in parent {
      assert k.0 in m.Keys && k.1 in m.Keys;
      assert k.0 in names && k.1 in names;
    }
  }

  /** What the ranking and the clusters come to for the survivors. */
  lemma CanonicalFacts(l: Lang, size: string -> nat, mergeable: (string, string) -> bool,
                       m: map<string, Stored>, rels: map<Key, nat>,
                       names: seq<string>, parent: map<string, string>, heads: seq<string>, live: seq<Key>,
                       merged: map<string, Stored>, now: map<Key, nat>)
    requires IsCanonical(l, size, mergeable, m, rels, names, parent, heads, live, merged, now)
    ensures (forall n :: n in names <==> n in m) && Ranked(names, m, size, l.before)
    ensures FirstHeads(names, |names|, parent, merged.Keys, mergeable)
    ensures forall i, j :: 0 <= i < j < |names| && names[i] in merged && names[j] in merged ==> !mergeable(names[j], names[i])
  {
    CanonicalIsRanked(l, size, m, names);
    SurvivorsApart(names, parent, merged.Keys, mergeable);
    hide Ranked, FirstHeads, Clustered, MergedInto, RelationsInto;
  }

  lemma SurvivorsApart(names: seq<string>, parent: map<string, string>, survivors: set<string>, mergeable: (string, string) -> bool)
    requires FirstHeads(names, |names|, parent, survivors, mergeable)
    ensures forall i, j :: 0 <= i < j < |names| && names[i] in survivors && names[j] in survivors ==>
              !mergeable(names[j], names[i])
  {
    forall i, j | 0 <= i < j < |names| && names[i] in survivors && names[j] in survivors
      ensures !mergeable(names[j], names[i])
    {
      assert !Absorbed(names, j, survivors, mergeable);
    }
  }

  /** Canonicalize. */
  method Canonicalize(g: EntityGraph, size: string -> nat, mergeable: (string, string) -> bool)
    returns (ghost names: seq<string>, ghost parent: map<string, string>, ghost heads: seq<string>, ghost live: seq<Key>)
    requires TotalOrder(g.lang.before) && Proper(g.lang, g.entities.Keys, g.relations.Keys)
    modifies g
    ensures old(|g.entities|) < 2 ==> g.entities == old(g.entities) && g.relations == old(g.relations)
    ensures old(|g.entities|) >= 2 ==>
              IsCanonical(g.lang, size, mergeable, old(g.entities), old(g.relations), names, parent, heads, live,
                          g.entities, g.relations)
    // the names by rank; who survives and where the others go; what a surviving pair weighs
    ensures old(|g.entities|) >= 2 ==>
              && (forall n :: n in names <==> n in old(g.entities)) && Ranked(names, old(g.entities), size, g.lang.before)
              && FirstHeads(names, |names|, parent, g.entities.Keys, mergeable)
              && (forall i, j :: 0 <= i < j < |names| && names[i] in g.entities && names[j] in g.entities ==>
                    !mergeable(names[j], names[i]))
              && PairsWeigh(g.lang.before, parent, old(g.relations), live, g.relations)
    ensures Proper(g.lang, g.entities.Keys, g.relations.Keys)
  {
    hide *;
    names, parent, heads, live := [], map[], [], [];
    if |g.entities| < 2 {
      return;
    }
    var merged, now;
    merged, now, names, parent, heads, live := MakeCanonical(g.lang, size, mergeable, g.entities, g.relations);
    CanonicalFacts(g.lang, size, mergeable, g.entities, g.relations, names, parent, heads, live, merged, now);
    CanonicalWeighs(g.lang, size, mergeable, g.entities, g.relations, names, parent, heads, live, merged, now);
    g.entities := merged;
    g.relations := now;
  }

  lemma ParentsAll(names: seq<string>, parent: map<string, string>, heads: seq<string>, mergeable: (string, string) -> bool)
    requires Clustered(names, parent, heads, mergeable)
    ensures forall n :: n in names ==> n in parent
  {
  }
}
