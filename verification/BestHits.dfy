/** Keeping the best k of a stream in a bounded heap, merging such pools, and cutting a
    sorted list: index/topheap.go, the scan of index/index.go, the top-k of
    lexical/bm25.go. All of them refine "sort, then take". */
module BestHits {
  import opened Orders
  import opened Heaps

  /** kept is a best-k part of all: nothing left out beats anything kept. */
  ghost predicate BestOf<T(!new)>(worse: (T, T) -> bool, kept: multiset<T>, all: multiset<T>, k: nat) {
    && kept <= all
    && |kept| == (if |all| < k then |all| else k)
    && forall x, y :: x in kept && y in all - kept ==> !worse(x, y)
  }

  lemma BestOfNone<T(!new)>(worse: (T, T) -> bool, k: nat)
    ensures BestOf(worse, multiset{}, multiset{}, k)
  {
  }

  /** One more element while there is room. */
  lemma BestOfMore<T(!new)>(worse: (T, T) -> bool, kept: multiset<T>, all: multiset<T>, k: nat, x: T)
    requires BestOf(worse, kept, all, k) && |kept| < k
    ensures BestOf(worse, kept + multiset{x}, all + multiset{x}, k)
  {
    assert all == kept + (all - kept);
    assert |all - kept| == 0;
    assert (all + multiset{x}) - (kept + multiset{x}) == all - kept;
  }

  /** A full pool whose worst element is no worse than x stays. */
  lemma BestOfKeep<T(!new)>(worse: (T, T) -> bool, kept: multiset<T>, all: multiset<T>, k: nat, root: T, x: T)
    requires StrictWeak(worse) && BestOf(worse, kept, all, k) && |kept| == k && root in kept
    requires (forall z :: z in kept ==> !worse(z, root)) && !worse(root, x)
    ensures BestOf(worse, kept, all + multiset{x}, k)
  {
    assert (all + multiset{x}) - kept == (all - kept) + multiset{x};
    forall z | z in kept ensures !worse(z, x) {
      assert !worse(z, root);
    }
  }

  /** A full pool whose worst element is worse than x swaps it. */
  lemma BestOfSwap<T(!new)>(worse: (T, T) -> bool, kept: multiset<T>, all: multiset<T>, k: nat, root: T, x: T)
    requires StrictWeak(worse) && BestOf(worse, kept, all, k) && |kept| == k && root in kept
    requires (forall z :: z in kept ==> !worse(z, root)) && worse(root, x)
    ensures BestOf(worse, kept - multiset{root} + multiset{x}, all + multiset{x}, k)
  {
    var now, out := kept - multiset{root} + multiset{x}, all - kept;
    assert (all + multiset{x}) - now == out + multiset{root};
    forall z, y | z in now && y in out + multiset{root} ensures !worse(z, y) {
      assert z in kept || z == x;
      assert y in out || y == root;
      if z == x && y in out {
        assert !worse(root, y);
      }
    }
  }

  lemma BestOfParts<T(!new)>(worse: (T, T) -> bool, kept: multiset<T>, all: multiset<T>, k: nat)
    requires BestOf(worse, kept, all, k)
    ensures kept <= all && |kept| <= k && |kept| <= |all| && (|kept| < k ==> kept == all)
  {
    assert all == kept + (all - kept);
    if |kept| < k {
      assert |all - kept| == 0;
      assert all - kept == multiset{};
    }
  }

  ghost predicate NoWorse<T(!new)>(worse: (T, T) -> bool, group: multiset<T>, y: T) {
    forall z :: z in group ==> !worse(z, y)
  }

  /** pool is a part of all in which every absent element meets k that are no worse. */
  ghost predicate Enough<T(!new)>(worse: (T, T) -> bool, pool: multiset<T>, all: multiset<T>, k: nat) {
    pool <= all &&
    forall y :: y in all - pool ==> exists group: multiset<T> :: group <= pool && |group| == k && NoWorse(worse, group, y)
  }

  lemma BestIsEnough<T(!new)>(worse: (T, T) -> bool, kept: multiset<T>, all: multiset<T>, k: nat)
    requires BestOf(worse, kept, all, k)
    ensures Enough(worse, kept, all, k)
  {
    BestOfParts(worse, kept, all, k);
    forall y | y in all - kept
      ensures exists group: multiset<T> :: group <= kept && |group| == k && NoWorse(worse, group, y)
    {
      assert kept <= kept && |kept| == k && NoWorse(worse, kept, y);
    }
  }

  /** Pools of separate parts, put together. */
  lemma EnoughUnion<T(!new)>(worse: (T, T) -> bool, pool1: multiset<T>, all1: multiset<T>,
                             pool2: multiset<T>, all2: multiset<T>, k: nat)
    requires Enough(worse, pool1, all1, k) && Enough(worse, pool2, all2, k)
    ensures Enough(worse, pool1 + pool2, all1 + all2, k)
  {
    forall y | y in (all1 + all2) - (pool1 + pool2)
      ensures exists group: multiset<T> :: group <= pool1 + pool2 && |group| == k && NoWorse(worse, group, y)
    {
      if y in all1 - pool1 {
        var g: multiset<T> :| g <= pool1 && |g| == k && NoWorse(worse, g, y);
        assert g <= pool1 + pool2;
      } else {
        assert y in all2 - pool2;
        var g: multiset<T> :| g <= pool2 && |g| == k && NoWorse(worse, g, y);
        assert g <= pool1 + pool2;
      }
    }
  }

  /** The best k of such a pool is the best k of everything. */
  lemma BestOfEnough<T(!new)>(worse: (T, T) -> bool, kept: multiset<T>, pool: multiset<T>, all: multiset<T>, k: nat)
    requires StrictWeak(worse) && Enough(worse, pool, all, k) && BestOf(worse, kept, pool, k)
    ensures BestOf(worse, kept, all, k)
  {
    BestOfParts(worse, kept, pool, k);
    assert all == pool + (all - pool);
    if |kept| < k && all != pool {
      PoolIsFull(worse, pool, all, k);
    }
    forall x, y | x in kept && y in all - kept ensures !worse(x, y) {
      if y !in pool - kept {
        assert y in all - pool;
        LeftOut(worse, pool, all, kept, k, x, y);
      }
    }
  }

  lemma PoolIsFull<T(!new)>(worse: (T, T) -> bool, pool: multiset<T>, all: multiset<T>, k: nat)
    requires Enough(worse, pool, all, k) && pool != all
    ensures |pool| >= k
  {
    assert all <= pool ==> all == pool;
    var y :| all[y] > pool[y];
    assert y in all - pool;
    var g: multiset<T> :| g <= pool && |g| == k && NoWorse(worse, g, y);
    assert pool == g + (pool - g);
  }

  /** What the pool left out is beaten by everything in the best of it. */
  lemma LeftOut<T(!new)>(worse: (T, T) -> bool, pool: multiset<T>, all: multiset<T>,
                         kept: multiset<T>, k: nat, x: T, y: T)
    requires StrictWeak(worse) && Enough(worse, pool, all, k) && BestOf(worse, kept, pool, k)
    requires x in kept && y in all - pool
    ensures !worse(x, y)
  {
    var g: multiset<T> :| g <= pool && |g| == k && NoWorse(worse, g, y);
    assert pool == g + (pool - g);
    if x !in g {
      SmallerSomewhere(g, kept);
      var z :| g[z] > kept[z];
      assert z in pool - kept;
      assert !worse(x, z) && !worse(z, y);
    }
  }

  /** Under a total order the best k is unique. */
  lemma BestOfUnique<T(!new)>(worse: (T, T) -> bool, a: multiset<T>, b: multiset<T>, all: multiset<T>, k: nat)
    requires StrictWeak(worse) && BestOf(worse, a, all, k) && BestOf(worse, b, all, k)
    requires forall x, y :: x in all && y in all && !worse(x, y) && !worse(y, x) ==> x == y
    ensures a == b
  {
    SmallerSomewhere(a, b);
    SmallerSomewhere(b, a);
    forall x, y | a[x] > b[x] && b[y] > a[y] ensures x in all && y in all && !worse(x, y) && !worse(y, x) {
      Incomparable(worse, a, b, all, k, x, y);
    }
  }

  /** What only one choice keeps and what only the other keeps are equally good. */
  lemma Incomparable<T(!new)>(worse: (T, T) -> bool, a: multiset<T>, b: multiset<T>, all: multiset<T>, k: nat, x: T, y: T)
    requires BestOf(worse, a, all, k) && BestOf(worse, b, all, k) && a[x] > b[x] && b[y] > a[y]
    ensures x in all && y in all && !worse(x, y) && !worse(y, x)
  {
    assert a[x] <= all[x] && b[y] <= all[y];
    assert y in all - a && x in all - b;
  }

  lemma SubsetOfSize<T(!new)>(a: multiset<T>, b: multiset<T>)
    requires a <= b && |a| == |b|
    ensures a == b
  {
    assert b == a + (b - a);
    assert |b - a| == 0;
    assert b - a == multiset{};
  }

  lemma SmallerSomewhere<T(!new)>(a: multiset<T>, b: multiset<T>)
    requires |a| == |b|
    ensures a == b || exists x :: a[x] > b[x]
  {
    if a <= b {
      SubsetOfSize(a, b);
    }
  }

  /** Sorting best first and cutting gives a best-k part. */
  lemma SortedTake<T(!new)>(worse: (T, T) -> bool, s: seq<T>, k: nat)
    requires forall i, j :: 0 <= i < j < |s| ==> !worse(s[i], s[j])
    requires k <= |s|
    ensures BestOf(worse, multiset(s[..k]), multiset(s), k)
  {
    assert s == s[..k] + s[k..];
    assert multiset(s) - multiset(s[..k]) == multiset(s[k..]);
    forall x, y | x in multiset(s[..k]) && y in multiset(s[k..]) ensures !worse(x, y) {
      var i :| 0 <= i < k && s[..k][i] == x;
      var j :| 0 <= j < |s| - k && s[k..][j] == y;
      assert s[i] == x && s[k + j] == y;
    }
  }

  /** topHeap: the best cap of what was pushed. */
  class TopHeap<T(!new)> {
    const worse: (T, T) -> bool
    const cap: nat
    const heap: Heap<T>
    ghost var all: multiset<T>

    ghost predicate Valid()
      reads this, heap
    {
      heap.Valid() && heap.less == worse && cap > 0 && |heap.a| <= cap &&
      BestOf(worse, multiset(heap.a), all, cap)
    }

    constructor (worse: (T, T) -> bool, cap: nat)
      requires StrictWeak(worse) && cap > 0
      ensures Valid() && this.worse == worse && this.cap == cap && all == multiset{} && fresh(heap)
    {
      this.worse, this.cap := worse, cap;
      heap := new Heap<T>(worse);
      all := multiset{};
      new;
      BestOfNone(worse, cap);
    }

    method Push(x: T)
      requires Valid()
      modifies this`all, heap
      ensures Valid() && all == old(all) + multiset{x}
    {
      ghost var was, kept := all, multiset(heap.a);
      SameSize(heap.a);
      hide BestOf;
      all := all + multiset{x};
      if |heap.a| < cap {
        BestOfMore(worse, kept, was, cap, x);
        heap.Push(x);
        return;
      }
      RootIsFirst(worse, heap.a);
      var root := heap.a[0];
      assert root in kept;
      if worse(root, x) {
        BestOfSwap(worse, kept, was, cap, root, x);
        heap.ReplaceRoot(x);
      } else {
        BestOfKeep(worse, kept, was, cap, root, x);
      }
    }
  }

  lemma TakeOut<T>(a: seq<T>, i: nat)
    requires i < |a|
    ensures multiset(a) == multiset(a[..i] + a[i + 1..]) + multiset{a[i]}
  {
    assert a == a[..i] + [a[i]] + a[i + 1..];
  }

  lemma Cancel<T>(a: multiset<T>, b: multiset<T>, x: T)
    requires a + multiset{x} == b + multiset{x}
    ensures a == b
  {
    assert a == (a + multiset{x}) - multiset{x};
    assert b == (b + multiset{x}) - multiset{x};
  }

  lemma SameSize<T>(a: seq<T>)
    ensures |multiset(a)| == |a|
  {
  }
}
