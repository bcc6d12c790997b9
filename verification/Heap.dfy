/** The binary heaps of index/hnsw_heap.go, index/topheap.go and lexical/bm25.go.
    They are the same sift loops under different comparisons: the closest
    candidate first, the furthest first, or the worst kept hit first. */
module Heaps {
  import opened Orders

  function Parent(i: nat): nat
    requires i > 0
  {
    (i - 1) / 2
  }

  /** No element comes before its parent, except possibly the one at hole. */
  ghost predicate OrderedExcept<T>(less: (T, T) -> bool, a: seq<T>, hole: int) {
    forall i :: 0 < i < |a| && i != hole ==> !less(a[i], a[Parent(i)])
  }

  ghost predicate Ordered<T>(less: (T, T) -> bool, a: seq<T>) {
    forall i :: 0 < i < |a| ==> !less(a[i], a[Parent(i)])
  }

  function Swap<T>(a: seq<T>, i: nat, j: nat): (r: seq<T>)
    requires i < |a| && j < |a|
  {
    a[i := a[j]][j := a[i]]
  }

  lemma SwapRearranges<T>(a: seq<T>, i: nat, j: nat)
    requires i < |a| && j < |a|
    ensures multiset(Swap(a, i, j)) == multiset(a) && |Swap(a, i, j)| == |a|
  {
  }

  lemma {:induction false} RootBelow<T(!new)>(less: (T, T) -> bool, a: seq<T>, i: nat)
    requires StrictWeak(less) && Ordered(less, a) && i < |a|
    ensures !less(a[i], a[0])
  {
    if i > 0 {
      RootBelow(less, a, Parent(i));
      assert !less(a[i], a[Parent(i)]);
    }
  }

  /** Among i and its children, the one that comes first; ties keep the earlier choice. */
  function Foremost<T>(less: (T, T) -> bool, a: seq<T>, i: nat): (f: nat)
    requires i < |a|
    ensures f < |a| && (f == i || f == 2 * i + 1 || f == 2 * i + 2)
  {
    var l, r := 2 * i + 1, 2 * i + 2;
    var first := if l < |a| && less(a[l], a[i]) then l else i;
    if r < |a| && less(a[r], a[first]) then r else first
  }

  lemma ForemostIsFirst<T(!new)>(less: (T, T) -> bool, a: seq<T>, i: nat)
    requires StrictWeak(less) && i < |a|
    ensures var f := Foremost(less, a, i);
      && (f != i ==> less(a[f], a[i]))
      && forall j :: 0 < j < |a| && Parent(j) == i ==> !less(a[j], a[f])
  {
    var l, f := 2 * i + 1, Foremost(less, a, i);
    var first := if l < |a| && less(a[l], a[i]) then l else i;
    assert l < |a| ==> !less(a[l], a[first]);
    assert !less(a[first], a[f]);
  }

  /** The root of a heap comes before or ties with every element. */
  lemma RootIsFirst<T(!new)>(less: (T, T) -> bool, a: seq<T>)
    requires StrictWeak(less) && Ordered(less, a) && |a| > 0
    ensures forall x :: x in a ==> !less(x, a[0])
  {
    forall x | x in a ensures !less(x, a[0]) {
      var i :| 0 <= i < |a| && a[i] == x;
      RootBelow(less, a, i);
    }
  }

  class Heap<T(!new)> {
    const less: (T, T) -> bool
    var a: seq<T>

    ghost predicate Valid()
      reads this
    {
      StrictWeak(less) && Ordered(less, a)
    }

    constructor (less: (T, T) -> bool)
      requires StrictWeak(less)
      ensures Valid() && this.less == less && a == []
    {
      this.less := less;
      a := [];
    }

    /** The sift-up loop that follows an append. */
    method SiftUp()
      requires StrictWeak(less) && |a| > 0 && OrderedExcept(less, a, |a| - 1)
      modifies this`a
      ensures Valid() && multiset(a) == old(multiset(a)) && |a| == old(|a|)
    {
      var i := |a| - 1;
      while i > 0
        invariant 0 <= i < |a| == old(|a|)
        invariant multiset(a) == old(multiset(a))
        invariant OrderedExcept(less, a, i)
        invariant i > 0 ==> forall j :: 0 < j < |a| && Parent(j) == i ==> !less(a[j], a[Parent(i)])
      {
        var p := Parent(i);
        if !less(a[i], a[p]) {
          break;
        }
        SiftUpStep(less, a, i);
        SwapRearranges(a, i, p);
        a := Swap(a, i, p);
        i := p;
      }
    }

    method Push(x: T)
      requires Valid()
      modifies this`a
      ensures Valid() && multiset(a) == old(multiset(a)) + multiset{x} && |a| == old(|a|) + 1
    {
      a := a + [x];
      SiftUp();
    }

    /** The sift-down loop that follows a replaced root. */
    method SiftDown()
      requires StrictWeak(less)
      requires forall i :: 0 < i < |a| && Parent(i) != 0 ==> !less(a[i], a[Parent(i)])
      modifies this`a
      ensures Valid() && multiset(a) == old(multiset(a)) && |a| == old(|a|)
    {
      var n, i := |a|, 0;
      if n == 0 {
        return;
      }
      while true
        invariant 0 <= i < n == |a|
        invariant multiset(a) == old(multiset(a))
        invariant forall j :: 0 < j < n && Parent(j) != i ==> !less(a[j], a[Parent(j)])
        invariant i > 0 ==> forall j :: 0 < j < n && Parent(j) == i ==> !less(a[j], a[Parent(i)])
        decreases n - i
      {
        var first := Foremost(less, a, i);
        ForemostIsFirst(less, a, i);
        if first == i {
          break;
        }
        SiftDownStep(less, a, i, first);
        SwapRearranges(a, i, first);
        a := Swap(a, i, first);
        i := first;
      }
    }

    method Pop() returns (top: T)
      requires Valid() && |a| > 0
      modifies this`a
      ensures Valid() && top == old(a[0]) && multiset(a) == old(multiset(a)) - multiset{top} && |a| == old(|a|) - 1
      ensures forall x :: x in old(a) ==> !less(x, top)
    {
      RootIsFirst(less, a);
      top := a[0];
      var n := |a| - 1;
      ghost var was := a;
      PopMultiset(a);
      a := a[0 := a[n]][..n];
      assert forall i :: 0 < i < |a| && Parent(i) != 0 ==> a[i] == was[i] && a[Parent(i)] == was[Parent(i)];
      SiftDown();
    }

    /** Overwrite the root and restore the heap. */
    method ReplaceRoot(x: T)
      requires Valid() && |a| > 0
      modifies this`a
      ensures Valid() && multiset(a) == old(multiset(a)) - multiset{old(a[0])} + multiset{x} && |a| == old(|a|)
    {
      ghost var was := a;
      ReplaceMultiset(a, x);
      a := a[0 := x];
      assert forall i :: 0 < i < |a| && Parent(i) != 0 ==> a[i] == was[i] && a[Parent(i)] == was[Parent(i)];
      SiftDown();
    }
  }

  lemma PopMultiset<T>(a: seq<T>)
    requires |a| > 0
    ensures multiset(a[0 := a[|a| - 1]][..|a| - 1]) == multiset(a) - multiset{a[0]}
  {
    var n := |a| - 1;
    if n > 0 {
      assert a == [a[0]] + a[1..n] + [a[n]];
      assert a[0 := a[n]][..n] == [a[n]] + a[1..n];
    } else {
      assert a == [a[0]];
    }
  }

  lemma ReplaceMultiset<T>(a: seq<T>, x: T)
    requires |a| > 0
    ensures multiset(a[0 := x]) == multiset(a) - multiset{a[0]} + multiset{x}
  {
  }

  lemma SiftUpStep<T(!new)>(less: (T, T) -> bool, a: seq<T>, i: nat)
    requires StrictWeak(less) && 0 < i < |a| && OrderedExcept(less, a, i) && less(a[i], a[Parent(i)])
    requires forall j :: 0 < j < |a| && Parent(j) == i ==> !less(a[j], a[Parent(i)])
    ensures var p := Parent(i); var b := Swap(a, i, p);
      && OrderedExcept(less, b, p)
      && (p > 0 ==> forall j :: 0 < j < |b| && Parent(j) == p ==> !less(b[j], b[Parent(p)]))
  {
    var p := Parent(i);
    var b := Swap(a, i, p);
    forall j | 0 < j < |b| && j != p ensures !less(b[j], b[Parent(j)]) {
      if j != i && Parent(j) == p {
        assert !less(a[j], a[p]);
        assert b[j] == a[j] && b[p] == a[i];
      }
    }
    if p > 0 {
      assert !less(a[p], a[Parent(p)]);
      forall j | 0 < j < |b| && Parent(j) == p ensures !less(b[j], b[Parent(p)]) {
        assert j != i ==> !less(a[j], a[p]);
      }
    }
  }

  lemma SiftDownStep<T(!new)>(less: (T, T) -> bool, a: seq<T>, i: nat, c: nat)
    requires StrictWeak(less) && i < |a| && c < |a| && (c == 2 * i + 1 || c == 2 * i + 2)
    requires less(a[c], a[i])
    requires forall j :: 0 < j < |a| && Parent(j) == i ==> !less(a[j], a[c])
    requires forall j :: 0 < j < |a| && Parent(j) != i ==> !less(a[j], a[Parent(j)])
    requires i > 0 ==> forall j :: 0 < j < |a| && Parent(j) == i ==> !less(a[j], a[Parent(i)])
    ensures var b := Swap(a, i, c);
      && (forall j :: 0 < j < |b| && Parent(j) != c ==> !less(b[j], b[Parent(j)]))
      && (forall j :: 0 < j < |b| && Parent(j) == c ==> !less(b[j], b[Parent(c)]))
  {
    var b := Swap(a, i, c);
    assert Parent(c) == i;
    forall j | 0 < j < |b| && Parent(j) != c ensures !less(b[j], b[Parent(j)]) {
      if j == i {
        assert !less(a[c], a[Parent(i)]);
      }
    }
    forall j | 0 < j < |b| && Parent(j) == c ensures !less(b[j], b[Parent(c)]) {
      assert !less(a[j], a[c]);
    }
  }
}
