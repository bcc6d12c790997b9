/** Orders given by a comparison function, and the sorting that the programs
    get from Go's library: any sorted rearrangement, ties in any order. */
module Orders {

  /** less is the strict part of a total preorder. */
  ghost predicate StrictWeak<T(!new)>(less: (T, T) -> bool) {
    && (forall x :: !less(x, x))
    && (forall x, y, z :: less(x, y) && less(y, z) ==> less(x, z))
    && (forall x, y, z :: !less(x, y) && !less(y, z) ==> !less(x, z))
  }

  ghost predicate SortedBy<T>(less: (T, T) -> bool, s: seq<T>) {
    forall i, j :: 0 <= i < j < |s| ==> !less(s[j], s[i])
  }

  /** Go's order on strings: a strict total order. */
  ghost predicate TotalOrder(before: (string, string) -> bool) {
    StrictWeak(before) && forall a, b :: !before(a, b) && !before(b, a) ==> a == b
  }

  /** Equal as multisets: a rearrangement. */
  ghost predicate Rearranged<T>(a: seq<T>, b: seq<T>) {
    multiset(a) == multiset(b)
  }

  ghost predicate Distinct<T>(s: seq<T>) {
    forall i, j :: 0 <= i < j < |s| ==> s[i] != s[j]
  }

  lemma MemberOf<T>(s: set<T>) returns (x: T)
    requires s != {}
    ensures x in s
  {
    x :| x in s;
  }

  lemma DistinctSnoc<T>(s: seq<T>, x: T)
    requires Distinct(s) && x !in s
    ensures Distinct(s + [x])
  {
    assert forall i :: 0 <= i < |s| ==> s[i] in s;
  }

  lemma SameMembers<T>(a: seq<T>, b: seq<T>)
    requires Rearranged(a, b)
    ensures |a| == |b| && forall x :: x in a <==> x in b
  {
    assert |multiset(a)| == |a| && |multiset(b)| == |b|;
    assert forall x :: x in a <==> x in multiset(a);
    assert forall x :: x in b <==> x in multiset(b);
  }

  lemma DistinctMultiset<T>(s: seq<T>, x: T)
    requires Distinct(s)
    ensures multiset(s)[x] <= 1
  {
    if |s| > 0 {
      var n := |s| - 1;
      assert s == s[..n] + [s[n]];
      DistinctMultiset(s[..n], x);
      assert x == s[n] ==> x !in s[..n];
    }
  }

  lemma MultisetDistinct<T>(s: seq<T>)
    requires forall x :: multiset(s)[x] <= 1
    ensures Distinct(s)
  {
    forall i, j | 0 <= i < j < |s| ensures s[i] != s[j] {
      assert s == s[..j] + [s[j]] + s[j + 1..];
      assert s[i] in s[..j];
      assert multiset(s)[s[j]] == multiset(s[..j])[s[j]] + 1 + multiset(s[j + 1..])[s[j]];
    }
  }

  lemma RearrangedDistinct<T>(a: seq<T>, b: seq<T>)
    requires Rearranged(a, b) && Distinct(a)
    ensures Distinct(b)
  {
    forall x ensures multiset(b)[x] <= 1 {
      DistinctMultiset(a, x);
    }
    MultisetDistinct(b);
  }

  /** Position at which x can be inserted into a sorted prefix. */
  method InsertSorted<T(!new)>(less: (T, T) -> bool, s: seq<T>, x: T) returns (r: seq<T>)
    requires StrictWeak(less) && SortedBy(less, s)
    ensures SortedBy(less, r) && multiset(r) == multiset(s) + multiset{x}
  {
    var i := |s|;
    while i > 0 && less(x, s[i - 1])
      invariant 0 <= i <= |s|
      invariant forall j :: i <= j < |s| ==> less(x, s[j])
    {
      i := i - 1;
    }
    InsertedSorted(less, s, x, i);
    r := s[..i] + [x] + s[i..];
  }

  lemma InsertedSorted<T(!new)>(less: (T, T) -> bool, s: seq<T>, x: T, i: nat)
    requires StrictWeak(less) && SortedBy(less, s) && i <= |s|
    requires forall j :: i <= j < |s| ==> less(x, s[j])
    requires i > 0 ==> !less(x, s[i - 1])
    ensures SortedBy(less, s[..i] + [x] + s[i..])
    ensures multiset(s[..i] + [x] + s[i..]) == multiset(s) + multiset{x}
  {
    var r := s[..i] + [x] + s[i..];
    forall p, q | 0 <= p < q < |r| ensures !less(r[q], r[p]) {
      if q < i {
        assert r[p] == s[p] && r[q] == s[q];
      } else if q == i {
        assert p < i - 1 ==> !less(s[i - 1], s[p]);
      } else if p == i {
        assert less(x, s[q - 1]);
        assert less(s[q - 1], x) ==> less(x, x);
      } else {
        assert r[q] == s[q - 1];
      }
    }
    InsertedMultiset(s, x, i);
  }

  lemma InsertedMultiset<T>(s: seq<T>, x: T, i: nat)
    requires i <= |s|
    ensures multiset(s[..i] + [x] + s[i..]) == multiset(s) + multiset{x}
  {
    assert s == s[..i] + s[i..];
  }

  method SortBy<T(!new)>(less: (T, T) -> bool, s: seq<T>) returns (r: seq<T>)
    requires StrictWeak(less)
    ensures SortedBy(less, r) && Rearranged(s, r)
  {
    r := [];
    for i := 0 to |s|
      invariant SortedBy(less, r) && multiset(r) == multiset(s[..i])
    {
      assert s[..i + 1] == s[..i] + [s[i]];
      r := InsertSorted(less, r, s[i]);
    }
    assert s[..|s|] == s;
  }
}
