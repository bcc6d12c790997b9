/** The edit distance of entity/canonical.go: the two-row loop, the recurrence it
    fills in, and the distance that recurrence defines. */
module Levenshtein {

  // ---------- edit scripts ----------

  datatype Edit<T> = Keep(x: T) | Swap(x: T, y: T) | Insert(y: T) | Delete(x: T)

  /** The text a script consumes. */
  ghost function Before<T>(script: seq<Edit<T>>): seq<T> {
    if |script| == 0 then []
    else
      var rest, e := Before(script[..|script| - 1]), script[|script| - 1];
      if e.Insert? then rest else rest + [e.x]
  }

  /** The text a script produces. */
  ghost function After<T>(script: seq<Edit<T>>): seq<T> {
    if |script| == 0 then []
    else
      var rest, e := After(script[..|script| - 1]), script[|script| - 1];
      match e
      case Keep(x) => rest + [x]
      case Swap(_, y) => rest + [y]
      case Insert(y) => rest + [y]
      case Delete(_) => rest
  }

  /** Keeping is free, every other edit costs one. */
  ghost function Cost<T>(script: seq<Edit<T>>): nat {
    if |script| == 0 then 0
    else Cost(script[..|script| - 1]) + if script[|script| - 1].Keep? then 0 else 1
  }

  // ---------- the recurrence ----------

  function Min3(a: int, b: int, c: int): (m: int)
    ensures m <= a && m <= b && m <= c && (m == a || m == b || m == c)
  {
    var ab := if b < a then b else a;
    if c < ab then c else ab
  }

  /** The distance between the first i entries of a and the first j entries of b. */
  function Dist<T(==)>(a: seq<T>, b: seq<T>, i: nat, j: nat): (d: nat)
    requires i <= |a| && j <= |b|
  {
    if i == 0 then j
    else if j == 0 then i
    else Min3(Dist(a, b, i, j - 1) + 1, Dist(a, b, i - 1, j) + 1,
              Dist(a, b, i - 1, j - 1) + if a[i - 1] == b[j - 1] then 0 else 1)
  }

  function Distance<T(==)>(a: seq<T>, b: seq<T>): nat { Dist(a, b, |a|, |b|) }

  lemma DistEdge<T>(a: seq<T>, b: seq<T>, i: nat, j: nat)
    requires i <= |a| && j <= |b| && (i == 0 || j == 0)
    ensures Dist(a, b, i, j) == i + j
  {
  }

  lemma DistStep<T>(a: seq<T>, b: seq<T>, i: nat, j: nat)
    requires 0 < i <= |a| && 0 < j <= |b|
    ensures Dist(a, b, i, j)
         == Min3(Dist(a, b, i, j - 1) + 1, Dist(a, b, i - 1, j) + 1,
                 Dist(a, b, i - 1, j - 1) + if a[i - 1] == b[j - 1] then 0 else 1)
  {
  }

  lemma DistInsert<T>(a: seq<T>, b: seq<T>, i: nat, j: nat)
    requires i <= |a| && 0 < j <= |b|
    ensures Dist(a, b, i, j) <= Dist(a, b, i, j - 1) + 1
  {
  }

  lemma DistDelete<T>(a: seq<T>, b: seq<T>, i: nat, j: nat)
    requires 0 < i <= |a| && j <= |b|
    ensures Dist(a, b, i, j) <= Dist(a, b, i - 1, j) + 1
  {
  }

  // ---------- the two-row loop ----------

  ghost predicate RowHolds<T>(a: seq<T>, b: seq<T>, row: seq<int>, i: nat) {
    i <= |a| && |row| == |b| + 1 && forall j :: 0 <= j <= |b| ==> row[j] == Dist(a, b, i, j)
  }

  method EditDistance<T(==)>(a: seq<T>, b: seq<T>) returns (d: nat)
    ensures d == Distance(a, b)
  {
    var la, lb := |a|, |b|;
    if la == 0 {
      return lb;
    }
    if lb == 0 {
      return la;
    }
    var prev, curr := new int[lb + 1], new int[lb + 1];
    for j := 0 to lb + 1
      invariant forall k :: 0 <= k < j ==> prev[k] == k
    {
      prev[j] := j;
    }
    for i := 1 to la + 1
      invariant prev != curr && prev.Length == curr.Length == lb + 1 && fresh(prev) && fresh(curr)
      invariant RowHolds(a, b, prev[..], i - 1)
    {
      FillRow(a, b, i, prev, curr);
      prev, curr := curr, prev;
    }
    d := prev[lb];
  }

  /** One row of the table from the row above it. */
  method FillRow<T(==)>(a: seq<T>, b: seq<T>, i: nat, prev: array<int>, curr: array<int>)
    requires 1 <= i <= |a| && prev != curr && curr.Length == |b| + 1
    requires RowHolds(a, b, prev[..], i - 1)
    modifies curr
    ensures RowHolds(a, b, curr[..], i)
  {
    hide Dist;
    curr[0] := i;
    DistEdge(a, b, i, 0);
    for j := 1 to |b| + 1
      invariant forall k :: 0 <= k < j ==> curr[k] == Dist(a, b, i, k)
    {
      var cost := if a[i - 1] == b[j - 1] then 0 else 1;
      DistStep(a, b, i, j);
      assert prev[..][j] == Dist(a, b, i - 1, j) && prev[..][j - 1] == Dist(a, b, i - 1, j - 1);
      curr[j] := Min3(curr[j - 1] + 1, prev[j] + 1, prev[j - 1] + cost);
    }
  }

  // ---------- least cost over all scripts ----------

  /** No script that turns one prefix into the other is cheaper. */
  lemma {:induction false} NoScriptIsCheaper<T>(a: seq<T>, b: seq<T>, script: seq<Edit<T>>, i: nat, j: nat)
    requires i <= |a| && j <= |b| && Before(script) == a[..i] && After(script) == b[..j]
    ensures Dist(a, b, i, j) <= Cost(script)
    decreases |script|
  {
    hide Dist;
    if |script| == 0 {
      DistEdge(a, b, i, j);
    } else {
      var rest, e := script[..|script| - 1], script[|script| - 1];
      match e
      case Keep(x) =>
        PrefixSnoc(a, i, Before(rest), x);
        PrefixSnoc(b, j, After(rest), x);
        NoScriptIsCheaper(a, b, rest, i - 1, j - 1);
        DistStep(a, b, i, j);
      case Swap(x, y) =>
        PrefixSnoc(a, i, Before(rest), x);
        PrefixSnoc(b, j, After(rest), y);
        NoScriptIsCheaper(a, b, rest, i - 1, j - 1);
        DistStep(a, b, i, j);
      case Insert(y) =>
        PrefixSnoc(b, j, After(rest), y);
        NoScriptIsCheaper(a, b, rest, i, j - 1);
        DistInsert(a, b, i, j);
      case Delete(x) =>
        PrefixSnoc(a, i, Before(rest), x);
        NoScriptIsCheaper(a, b, rest, i - 1, j);
        DistDelete(a, b, i, j);
    }
  }

  lemma PrefixSnoc<T>(a: seq<T>, i: nat, rest: seq<T>, x: T)
    requires i <= |a| && a[..i] == rest + [x]
    ensures i > 0 && rest == a[..i - 1] && a[i - 1] == x
  {
    assert |a[..i]| == |rest| + 1;
    assert a[i - 1] == a[..i][i - 1];
    assert rest == a[..i][..i - 1];
  }

  lemma ScriptSnoc<T>(rest: seq<Edit<T>>, e: Edit<T>)
    ensures Cost(rest + [e]) == Cost(rest) + if e.Keep? then 0 else 1
    ensures Before(rest + [e]) == Before(rest) + if e.Insert? then [] else [e.x]
    ensures After(rest + [e]) == After(rest) + if e.Delete? then [] else if e.Keep? then [e.x] else [e.y]
  {
    assert (rest + [e])[..|rest|] == rest;
  }

  lemma ScriptEmpty<T>()
    ensures Before<T>([]) == After<T>([]) == [] && Cost<T>([]) == 0
  {
  }

  /** Some script turns one prefix into the other at exactly the distance. */
  lemma {:induction false} CheapestScript<T>(a: seq<T>, b: seq<T>, i: nat, j: nat) returns (script: seq<Edit<T>>)
    requires i <= |a| && j <= |b|
    ensures Before(script) == a[..i] && After(script) == b[..j] && Cost(script) == Dist(a, b, i, j)
    decreases i + j
  {
    var rest;
    hide *;
    if i == 0 || j == 0 {
      DistEdge(a, b, i, j);
    } else {
      DistStep(a, b, i, j);
    }
    ScriptEmpty<T>();
    if i > 0 {
      DistEdge(a, b, i - 1, 0);
    }
    if j > 0 {
      DistEdge(a, b, 0, j - 1);
    }
    if i == 0 && j == 0 {
      script := [];
    } else if i == 0 || (j > 0 && Dist(a, b, i, j) == Dist(a, b, i, j - 1) + 1) {
      rest := CheapestScript(a, b, i, j - 1);
      script := rest + [Insert(b[j - 1])];
      ScriptSnoc(rest, Insert(b[j - 1]));
    } else if j == 0 || Dist(a, b, i, j) == Dist(a, b, i - 1, j) + 1 {
      rest := CheapestScript(a, b, i - 1, j);
      script := rest + [Delete(a[i - 1])];
      ScriptSnoc(rest, Delete(a[i - 1]));
    } else {
      rest := CheapestScript(a, b, i - 1, j - 1);
      var e := if a[i - 1] == b[j - 1] then Keep(a[i - 1]) else Swap(a[i - 1], b[j - 1]);
      script := rest + [e];
      ScriptSnoc(rest, e);
    }
  }

  /** The distance is the least cost of any edit script. */
  lemma DistanceIsLeast<T>(a: seq<T>, b: seq<T>)
    ensures forall script: seq<Edit<T>> :: Before(script) == a && After(script) == b ==> Distance(a, b) <= Cost(script)
    ensures exists script: seq<Edit<T>> :: Before(script) == a && After(script) == b && Cost(script) == Distance(a, b)
  {
    assert a[..|a|] == a && b[..|b|] == b;
    forall script: seq<Edit<T>> | Before(script) == a && After(script) == b
      ensures Distance(a, b) <= Cost(script)
    {
      NoScriptIsCheaper(a, b, script, |a|, |b|);
    }
    var best := CheapestScript(a, b, |a|, |b|);
  }

  // ---------- a metric ----------

  lemma {:induction false} DistSymmetric<T>(a: seq<T>, b: seq<T>, i: nat, j: nat)
    requires i <= |a| && j <= |b|
    ensures Dist(a, b, i, j) == Dist(b, a, j, i)
    decreases i + j
  {
    hide Dist;
    if i == 0 || j == 0 {
      DistEdge(a, b, i, j);
      DistEdge(b, a, j, i);
    } else {
      DistStep(a, b, i, j);
      DistStep(b, a, j, i);
      DistSymmetric(a, b, i - 1, j);
      DistSymmetric(a, b, i, j - 1);
      DistSymmetric(a, b, i - 1, j - 1);
    }
  }

  function Max(x: int, y: int): int { if x < y then y else x }

  /** Between the difference of the lengths and the longer length. */
  lemma {:induction false} DistBounds<T>(a: seq<T>, b: seq<T>, i: nat, j: nat)
    requires i <= |a| && j <= |b|
    ensures i - j <= Dist(a, b, i, j) && j - i <= Dist(a, b, i, j) <= Max(i, j)
    decreases i + j
  {
    hide Dist;
    if i == 0 || j == 0 {
      DistEdge(a, b, i, j);
    } else {
      DistStep(a, b, i, j);
      DistBounds(a, b, i - 1, j);
      DistBounds(a, b, i, j - 1);
      DistBounds(a, b, i - 1, j - 1);
    }
  }

  lemma {:induction false} ZeroMeansEqual<T>(a: seq<T>, b: seq<T>, i: nat, j: nat)
    requires i <= |a| && j <= |b|
    ensures Dist(a, b, i, j) == 0 <==> a[..i] == b[..j]
    decreases i
  {
    if i > 0 && j > 0 {
      ZeroMeansEqual(a, b, i - 1, j - 1);
      assert a[..i] == a[..i - 1] + [a[i - 1]] && b[..j] == b[..j - 1] + [b[j - 1]];
    }
  }

  /** Going through b is never shorter. */
  lemma {:induction false} DistTriangle<T>(a: seq<T>, b: seq<T>, c: seq<T>, i: nat, j: nat, k: nat)
    requires i <= |a| && j <= |b| && k <= |c|
    ensures Dist(a, c, i, k) <= Dist(a, b, i, j) + Dist(b, c, j, k)
    decreases i + j + k
  {
    hide Dist;
    DistBounds(a, b, i, j);
    DistBounds(b, c, j, k);
    if i == 0 || k == 0 {
      DistEdge(a, c, i, k);
    } else {
      DistStep(a, c, i, k);
      if j == 0 {
        DistEdge(a, b, i, 0);
        DistEdge(b, c, 0, k);
        DistBounds(a, c, i, k);
      } else if Dist(a, b, i, j) == Dist(a, b, i - 1, j) + 1 {
        DistTriangle(a, b, c, i - 1, j, k);
      } else if Dist(b, c, j, k) == Dist(b, c, j, k - 1) + 1 {
        DistTriangle(a, b, c, i, j, k - 1);
      } else {
        TriangleStep(a, b, c, i, j, k);
      }
    }
  }

  /** Both sides touch the last entry of b. */
  lemma {:induction false} TriangleStep<T>(a: seq<T>, b: seq<T>, c: seq<T>, i: nat, j: nat, k: nat)
    requires 0 < i <= |a| && 0 < j <= |b| && 0 < k <= |c|
    requires Dist(a, b, i, j) != Dist(a, b, i - 1, j) + 1 && Dist(b, c, j, k) != Dist(b, c, j, k - 1) + 1
    ensures Dist(a, c, i, k) <= Dist(a, b, i, j) + Dist(b, c, j, k)
    decreases i + j + k, 0
  {
    hide Dist;
    DistStep(a, b, i, j);
    DistStep(b, c, j, k);
    DistStep(a, c, i, k);
    DistTriangle(a, b, c, i, j - 1, k);
    DistTriangle(a, b, c, i, j - 1, k - 1);
    DistTriangle(a, b, c, i - 1, j - 1, k);
    DistTriangle(a, b, c, i - 1, j - 1, k - 1);
  }

  /** The distance is a metric, at most the longer length. */
  lemma DistanceIsMetric<T>(a: seq<T>, b: seq<T>, c: seq<T>)
    ensures Distance(a, b) == Distance(b, a)
    ensures Distance(a, b) == 0 <==> a == b
    ensures Distance(a, b) <= Max(|a|, |b|)
    ensures Distance(a, c) <= Distance(a, b) + Distance(b, c)
  {
    assert a[..|a|] == a && b[..|b|] == b;
    DistSymmetric(a, b, |a|, |b|);
    ZeroMeansEqual(a, b, |a|, |b|);
    DistBounds(a, b, |a|, |b|);
    DistTriangle(a, b, c, |a|, |b|, |c|);
  }

  // ---------- similarity ----------

  /** editRatio: one minus the distance over the longer length. */
  method EditRatio<T(==)>(a: seq<T>, b: seq<T>) returns (r: real)
    ensures 0.0 <= r <= 1.0 && (r == 1.0 <==> a == b)
    ensures a != b ==> r == 1.0 - Distance(a, b) as real / Max(|a|, |b|) as real
    ensures r >= 0.9 <==> 10 * Distance(a, b) <= Max(|a|, |b|)
  {
    DistanceIsMetric(a, b, a);
    if a == b {
      return 1.0;
    }
    var d := EditDistance(a, b);
    var m := Max(|a|, |b|);
    if m == 0 {
      return 1.0;
    }
    RatioBounds(d, m);
    r := 1.0 - d as real / m as real;
  }

  lemma RatioBounds(d: nat, m: nat)
    requires 0 < d <= m
    ensures 0.0 < d as real / m as real <= 1.0
    ensures 1.0 - d as real / m as real >= 0.9 <==> 10 * d <= m
  {
    QuotientBounds(d as real, m as real);
    assert (10 * d) as real == 10.0 * d as real;
  }

  lemma QuotientBounds(x: real, y: real)
    requires 0.0 < x <= y
    ensures 0.0 < x / y <= 1.0 && (x / y <= 0.1 <==> 10.0 * x <= y)
  {
    var q := x / y;
    QuotientTimes(x, y);
    ScaleBounds(q, y, x);
  }

  lemma QuotientTimes(x: real, y: real)
    requires y > 0.0
    ensures (x / y) * y == x
  {
  }

  lemma ScaleBounds(q: real, y: real, x: real)
    requires 0.0 < x <= y && q * y == x
    ensures q <= 0.1 <==> 10.0 * x <= y
    ensures 0.0 < q <= 1.0
  {
    if q > 1.0 {
      ScaleAbove(q, y);
    }
    if q > 0.1 {
      calc {
        10.0 * x;
        (10.0 * q) * y;
      > { ScaleAbove(10.0 * q, y); }
        y;
      }
    } else {
      calc {
        10.0 * x;
        (10.0 * q) * y;
      <= { ScaleAtMost(10.0 * q, y); }
        y;
      }
    }
  }

  lemma ScaleAbove(k: real, y: real)
    requires k > 1.0 && y > 0.0
    ensures k * y > y
  {
  }

  lemma ScaleAtMost(k: real, y: real)
    requires k <= 1.0 && y > 0.0
    ensures k * y <= y
  {
  }
}
