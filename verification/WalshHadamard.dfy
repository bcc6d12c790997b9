/** The fast Walsh-Hadamard transform of quant/rotation.go: the in-place butterfly
    loops, the transform they compute, and its algebra. */
module WalshHadamard {
  import opened Vectors

  ghost predicate Pow2(n: nat) {
    n == 1 || (n > 1 && n % 2 == 0 && Pow2(n / 2))
  }

  /** Sums, then differences: one radix-2 step on two halves. */
  function Butterfly(p: Vec, q: Vec): (w: Vec)
    requires |p| == |q|
    ensures |w| == 2 * |p|
  {
    Add(p, q) + Sub(p, q)
  }

  /** The transform by halves; WalshIsMatrix says which matrix this is. */
  ghost function Walsh(a: Vec): (w: Vec)
    requires Pow2(|a|)
    ensures |w| == |a|
    decreases |a|
  {
    if |a| == 1 then a else Butterfly(Walsh(a[..|a| / 2]), Walsh(a[|a| / 2..]))
  }

  lemma WalshHalves(p: Vec, q: Vec)
    requires |p| == |q| && Pow2(|p|)
    ensures Pow2(2 * |p|) && Walsh(p + q) == Butterfly(Walsh(p), Walsh(q))
  {
    assert (p + q)[..|p|] == p && (p + q)[|p|..] == q;
  }

  /** Entry (i, j) of the n by n Hadamard matrix in Sylvester order: -1 to the
      number of bits set in both i and j. */
  ghost function Sign(n: nat, i: nat, j: nat): real
    requires Pow2(n) && i < n && j < n
    decreases n
  {
    if n == 1 then 1.0
    else
      var h := n / 2;
      var rest := Sign(h, if i < h then i else i - h, if j < h then j else j - h);
      if i >= h && j >= h then -rest else rest
  }

  ghost function Row(n: nat, i: nat): (r: Vec)
    requires Pow2(n) && i < n
    ensures |r| == n && forall j :: 0 <= j < n ==> r[j] == Sign(n, i, j)
  {
    seq(n, j requires 0 <= j < n => Sign(n, i, j))
  }

  lemma RowLow(n: nat, i: nat)
    requires Pow2(n) && n > 1 && i < n / 2
    ensures Row(n, i) == Row(n / 2, i) + Row(n / 2, i)
  {
  }

  lemma RowHigh(n: nat, i: nat)
    requires Pow2(n) && n > 1 && n / 2 <= i < n
    ensures Row(n, i) == Row(n / 2, i - n / 2) + Scale(-1.0, Row(n / 2, i - n / 2))
  {
  }

  lemma ButterflyEntry(p: Vec, q: Vec, i: nat)
    requires |p| == |q| && i < 2 * |p|
    ensures Butterfly(p, q)[i] == if i < |p| then p[i] + q[i] else p[i - |p|] - q[i - |p|]
  {
  }

  lemma WalshEntry(a: Vec, h: nat, i: nat)
    requires Pow2(|a|) && Pow2(h) && |a| == 2 * h && i < |a|
    ensures Walsh(a)[i] == if i < h then Walsh(a[..h])[i] + Walsh(a[h..])[i]
                           else Walsh(a[..h])[i - h] - Walsh(a[h..])[i - h]
  {
    hide *;
    WalshHalves(a[..h], a[h..]);
    assert a == a[..h] + a[h..];
    ButterflyEntry(Walsh(a[..h]), Walsh(a[h..]), i);
  }

  lemma RowDotLow(a: Vec, h: nat, i: nat)
    requires Pow2(|a|) && Pow2(h) && |a| == 2 * h && i < h
    ensures Dot(Row(|a|, i), a) == Dot(Row(h, i), a[..h]) + Dot(Row(h, i), a[h..])
  {
    hide *;
    RowLow(|a|, i);
    assert a == a[..h] + a[h..];
    DotConcat(Row(h, i), Row(h, i), a[..h], a[h..]);
  }

  lemma RowDotHigh(a: Vec, h: nat, i: nat)
    requires Pow2(|a|) && Pow2(h) && |a| == 2 * h && h <= i < |a|
    ensures Dot(Row(|a|, i), a) == Dot(Row(h, i - h), a[..h]) - Dot(Row(h, i - h), a[h..])
  {
    hide *;
    RowHigh(|a|, i);
    assert a == a[..h] + a[h..];
    DotConcatNegated(Row(h, i - h), a[..h], a[h..]);
  }

  lemma DotConcatNegated(r: Vec, p: Vec, q: Vec)
    requires |r| == |p| == |q|
    ensures Dot(r + Scale(-1.0, r), p + q) == Dot(r, p) - Dot(r, q)
  {
    TimesUnit(Dot(r, q));
    hide *;
    DotConcat(r, Scale(-1.0, r), p, q);
    DotScale(-1.0, r, q);
  }

  /** Every output of the transform is the inner product with one matrix row. */
  lemma {:induction false} WalshIsMatrix(a: Vec, i: nat)
    requires Pow2(|a|) && i < |a|
    ensures Walsh(a)[i] == Dot(Row(|a|, i), a)
    decreases |a|
  {
    if |a| == 1 {
      var r := Row(1, i);
      assert r == [1.0] && Dot(r, a) == DotTo(r, a, 0) + Times(r[0], a[0]);
    } else {
      var h := |a| / 2;
      var k := if i < h then i else i - h;
      assert |a[..h]| == |a[h..]| == h && Pow2(h);
      hide *;
      WalshIsMatrix(a[..h], k);
      WalshIsMatrix(a[h..], k);
      WalshEntry(a, h, i);
      if i < h {
        RowDotLow(a, h, i);
      } else {
        RowDotHigh(a, h, i);
      }
    }
  }

  lemma ButterflyAdd(p: Vec, q: Vec, r: Vec, s: Vec)
    requires |p| == |q| == |r| == |s|
    ensures Butterfly(Add(p, r), Add(q, s)) == Add(Butterfly(p, q), Butterfly(r, s))
  {
  }

  lemma ButterflyScale(c: real, p: Vec, q: Vec)
    requires |p| == |q|
    ensures Butterfly(Scale(c, p), Scale(c, q)) == Scale(c, Butterfly(p, q))
  {
    var l, r := Butterfly(Scale(c, p), Scale(c, q)), Scale(c, Butterfly(p, q));
    forall i | 0 <= i < |l| ensures l[i] == r[i] {
      var k := if i < |p| then i else i - |p|;
      Distribute(c, p[k], q[k]);
    }
  }

  lemma Distribute(c: real, x: real, y: real)
    ensures Times(c, x + y) == Times(c, x) + Times(c, y) && Times(c, x - y) == Times(c, x) - Times(c, y)
  {
  }

  lemma {:induction false} WalshAdd(x: Vec, y: Vec)
    requires |x| == |y| && Pow2(|x|)
    ensures Walsh(Add(x, y)) == Add(Walsh(x), Walsh(y))
    decreases |x|
  {
    if |x| > 1 {
      var h := |x| / 2;
      WalshAdd(x[..h], y[..h]);
      WalshAdd(x[h..], y[h..]);
      AddSplit(x, y, h);
      ButterflyAdd(Walsh(x[..h]), Walsh(x[h..]), Walsh(y[..h]), Walsh(y[h..]));
    }
  }

  lemma {:induction false} WalshScale(c: real, x: Vec)
    requires Pow2(|x|)
    ensures Walsh(Scale(c, x)) == Scale(c, Walsh(x))
    decreases |x|
  {
    if |x| > 1 {
      var h := |x| / 2;
      WalshScale(c, x[..h]);
      WalshScale(c, x[h..]);
      ScaleSplit(c, x, h);
      hide Times;
      ButterflyScale(c, Walsh(x[..h]), Walsh(x[h..]));
    }
  }

  lemma WalshSub(x: Vec, y: Vec)
    requires |x| == |y| && Pow2(|x|)
    ensures Walsh(Sub(x, y)) == Sub(Walsh(x), Walsh(y))
  {
    hide *;
    SubAsAdd(x, y);
    WalshAdd(x, Scale(-1.0, y));
    WalshScale(-1.0, y);
    SubAsAdd(Walsh(x), Walsh(y));
  }

  lemma ButterflyTwice(u: Vec, v: Vec)
    requires |u| == |v|
    ensures Butterfly(Add(u, v), Sub(u, v)) == Scale(2.0, u) + Scale(2.0, v)
  {
  }

  lemma ScaleHalves(h: nat, x: Vec)
    requires |x| == 2 * h
    ensures Scale(2.0, Scale(h as real, x[..h])) + Scale(2.0, Scale(h as real, x[h..])) == Scale(|x| as real, x)
  {
    ScaleScale(2.0, h as real, x[..h]);
    ScaleScale(2.0, h as real, x[h..]);
    assert 2.0 * h as real == |x| as real;
    ScaleSplit(|x| as real, x, h);
  }

  /** Applied twice, the transform multiplies by the length. */
  lemma {:induction false} WalshTwice(x: Vec)
    requires Pow2(|x|)
    ensures Walsh(Walsh(x)) == Scale(|x| as real, x)
    decreases |x|
  {
    if |x| > 1 {
      var h := |x| / 2;
      var p, q := Walsh(x[..h]), Walsh(x[h..]);
      WalshHalves(Add(p, q), Sub(p, q));
      WalshAdd(p, q);
      WalshSub(p, q);
      ButterflyTwice(Walsh(p), Walsh(q));
      WalshTwice(x[..h]);
      WalshTwice(x[h..]);
      ScaleHalves(h, x);
    } else {
      assert Scale(1.0, x) == x;
    }
  }

  lemma ButterflyDot(p: Vec, q: Vec, y: Vec)
    requires |p| == |q| && |y| == 2 * |p|
    ensures var c, d := y[..|p|], y[|p|..];
      Dot(Butterfly(p, q), y) == Dot(p, c) + Dot(q, c) + Dot(p, d) - Dot(q, d)
  {
    var c, d := y[..|p|], y[|p|..];
    assert y == c + d;
    DotConcat(Add(p, q), Sub(p, q), c, d);
    DotAdd(p, q, c);
    DotSub(p, q, d);
  }

  /** The transform is its own adjoint. */
  lemma {:induction false} WalshAdjoint(x: Vec, y: Vec)
    requires |x| == |y| && Pow2(|x|)
    ensures Dot(Walsh(x), y) == Dot(x, Walsh(y))
    decreases |x|
  {
    if |x| > 1 {
      var h := |x| / 2;
      var a, b, c, d := x[..h], x[h..], y[..h], y[h..];
      WalshAdjoint(a, c);
      WalshAdjoint(a, d);
      WalshAdjoint(b, c);
      WalshAdjoint(b, d);
      WalshAdjointStep(x, y, h);
    }
  }

  lemma WalshDotSplit(x: Vec, y: Vec, h: nat)
    requires |x| == |y| == 2 * h && Pow2(|x|) && Pow2(h)
    ensures var a, b, c, d := x[..h], x[h..], y[..h], y[h..];
      Dot(Walsh(x), y) == Dot(Walsh(a), c) + Dot(Walsh(b), c) + Dot(Walsh(a), d) - Dot(Walsh(b), d)
  {
    ButterflyDot(Walsh(x[..h]), Walsh(x[h..]), y);
  }

  lemma WalshAdjointStep(x: Vec, y: Vec, h: nat)
    requires |x| == |y| == 2 * h && Pow2(|x|) && Pow2(h)
    ensures var a, b, c, d := x[..h], x[h..], y[..h], y[h..];
      && Dot(Walsh(x), y) == Dot(Walsh(a), c) + Dot(Walsh(b), c) + Dot(Walsh(a), d) - Dot(Walsh(b), d)
      && Dot(x, Walsh(y)) == Dot(a, Walsh(c)) + Dot(b, Walsh(c)) + Dot(a, Walsh(d)) - Dot(b, Walsh(d))
  {
    hide *;
    var a, b, c, d := x[..h], x[h..], y[..h], y[h..];
    WalshDotSplit(x, y, h);
    WalshDotSplit(y, x, h);
    DotCommutes(x, Walsh(y));
    DotCommutes(Walsh(c), a);
    DotCommutes(Walsh(d), a);
    DotCommutes(Walsh(c), b);
    DotCommutes(Walsh(d), b);
  }

  /** The transform multiplies every inner product by the length. */
  lemma WalshDot(x: Vec, y: Vec)
    requires |x| == |y| && Pow2(|x|)
    ensures Dot(Walsh(x), Walsh(y)) == Times(|x| as real, Dot(x, y))
  {
    hide *;
    WalshAdjoint(x, Walsh(y));
    WalshTwice(y);
    DotScaleRight(|x| as real, x, y);
  }

  // ---------- block structure of the in-place loops ----------

  /** n is made of whole blocks of length h. */
  ghost predicate Tiled(n: nat, h: nat)
    decreases n
  {
    n == 0 || (0 < h <= n && Tiled(n - h, h))
  }

  lemma TiledStep(n: nat, h: nat)
    requires n > 0 && Tiled(n, h)
    ensures 0 < h <= n && Tiled(n - h, h)
  {
  }

  lemma {:induction false} TiledAdd(m: nat, n: nat, h: nat)
    requires Tiled(m, h) && Tiled(n, h)
    ensures Tiled(m + n, h)
    decreases m
  {
    if m > 0 {
      TiledAdd(m - h, n, h);
    }
  }

  lemma {:induction false} Pow2Tiled(n: nat, h: nat)
    requires Pow2(n) && Pow2(h) && h <= n
    ensures Tiled(n, h)
    ensures h < n ==> 2 * h <= n && Pow2(2 * h)
    decreases n
  {
    if h < n {
      Pow2Half(n, h);
      Pow2Tiled(n / 2, h);
      TiledAdd(n / 2, n / 2, h);
    }
  }

  lemma {:induction false} Pow2Half(n: nat, h: nat)
    requires Pow2(n) && Pow2(h) && h < n
    ensures 2 * h <= n
    decreases n
  {
    if h > 1 {
      Pow2Half(n / 2, h / 2);
    }
  }

  function Window(a: Vec, s: nat, n: nat): (w: Vec)
    requires s + n <= |a|
    ensures |w| == n && forall k :: 0 <= k < n ==> w[k] == a[s + k]
  {
    a[s..s + n]
  }

  /** The block of cur that starts at s is the transform of the same block of orig. */
  ghost predicate Done(cur: Vec, orig: Vec, s: nat, h: nat)
    requires Pow2(h)
  {
    s + h <= |cur| == |orig| && Window(cur, s, h) == Walsh(Window(orig, s, h))
  }

  /** The blocks of length h that fill [s, e) are done. */
  ghost predicate Blocks(cur: Vec, orig: Vec, s: nat, e: nat, h: nat)
    requires Pow2(h)
    decreases e - s
  {
    s == e || (s + h <= e && Done(cur, orig, s, h) && Blocks(cur, orig, s + h, e, h))
  }

  lemma BlocksHead(cur: Vec, orig: Vec, s: nat, e: nat, h: nat)
    requires Pow2(h) && Blocks(cur, orig, s, e, h) && s < e
    ensures s + h <= e && Done(cur, orig, s, h) && Blocks(cur, orig, s + h, e, h)
  {
  }

  lemma BlocksEmpty(cur: Vec, orig: Vec, s: nat, h: nat)
    requires Pow2(h)
    ensures Blocks(cur, orig, s, s, h)
  {
  }

  lemma {:induction false} BlocksExtend(cur: Vec, orig: Vec, s: nat, e: nat, h: nat)
    requires Pow2(h) && Blocks(cur, orig, s, e, h) && Done(cur, orig, e, h)
    ensures Blocks(cur, orig, s, e + h, h)
    decreases e - s
  {
    hide Done;
    if s < e {
      BlocksExtend(cur, orig, s + h, e, h);
    }
  }

  lemma DoneFrame(cur: Vec, next: Vec, orig: Vec, s: nat, h: nat)
    requires Pow2(h) && Done(cur, orig, s, h)
    requires |cur| == |next| && forall k :: s <= k < s + h ==> next[k] == cur[k]
    ensures Done(next, orig, s, h)
  {
    hide Walsh, Pow2;
    assert Window(next, s, h) == Window(cur, s, h);
  }

  lemma {:induction false} BlocksFrame(cur: Vec, next: Vec, orig: Vec, s: nat, e: nat, h: nat)
    requires Pow2(h) && Blocks(cur, orig, s, e, h) && e <= |cur|
    requires |cur| == |next| && forall k :: s <= k < e ==> next[k] == cur[k]
    ensures Blocks(next, orig, s, e, h)
    decreases e - s
  {
    hide Done;
    if s < e {
      DoneFrame(cur, next, orig, s, h);
      BlocksFrame(cur, next, orig, s + h, e, h);
    }
  }

  lemma {:induction false} BlocksStart(a: Vec, s: nat)
    requires s <= |a|
    ensures Blocks(a, a, s, |a|, 1)
    decreases |a| - s
  {
    if s < |a| {
      BlocksStart(a, s + 1);
    }
  }

  /** A butterfly turns two neighbouring blocks of length h into one of length 2h. */
  lemma PairDone(pre: Vec, post: Vec, orig: Vec, i: nat, h: nat)
    requires Pow2(h) && Pow2(2 * h) && |pre| == |post| && i + 2 * h <= |pre|
    requires Done(pre, orig, i, h) && Done(pre, orig, i + h, h)
    requires Window(post, i, 2 * h) == Butterfly(Window(pre, i, h), Window(pre, i + h, h))
    ensures Done(post, orig, i, 2 * h)
  {
    hide Walsh, Butterfly, Pow2, Window;
    WindowPair(orig, i, h);
    WalshHalves(Window(orig, i, h), Window(orig, i + h, h));
  }

  lemma WindowPair(a: Vec, i: nat, h: nat)
    requires i + 2 * h <= |a|
    ensures Window(a, i, 2 * h) == Window(a, i, h) + Window(a, i + h, h)
  {
  }

  lemma SegmentIsButterfly(cur: Vec, next: Vec, i: nat, h: nat)
    requires |cur| == |next| && i + 2 * h <= |cur|
    requires forall k :: i <= k < i + h ==> next[k] == cur[k] + cur[k + h]
    requires forall k :: i + h <= k < i + 2 * h ==> next[k] == cur[k - h] - cur[k]
    ensures Window(next, i, 2 * h) == Butterfly(Window(cur, i, h), Window(cur, i + h, h))
  {
    assert Window(next, i, h) == Add(Window(cur, i, h), Window(cur, i + h, h));
    assert Window(next, i + h, h) == Sub(Window(cur, i, h), Window(cur, i + h, h));
    WindowPair(next, i, h);
  }

  /** The innermost loop: one butterfly on the pair of blocks that starts at i. */
  method ButterflyAt(a: array<real>, i: nat, h: nat)
    requires i + 2 * h <= a.Length
    modifies a
    ensures Window(a[..], i, 2 * h) == Butterfly(Window(old(a[..]), i, h), Window(old(a[..]), i + h, h))
    ensures forall k :: 0 <= k < i || i + 2 * h <= k < a.Length ==> a[k] == old(a[k])
  {
    for j := i to i + h
      invariant forall k :: i <= k < j ==> a[k] == old(a[k]) + old(a[k + h])
      invariant forall k :: i + h <= k < j + h ==> a[k] == old(a[k - h]) - old(a[k])
      invariant forall k :: 0 <= k < i || j <= k < i + h || j + h <= k < a.Length ==> a[k] == old(a[k])
    {
      var x, y := a[j], a[j + h];
      a[j] := x + y;
      a[j + h] := x - y;
    }
    SegmentIsButterfly(old(a[..]), a[..], i, h);
  }

  /** One pass of the outer loop: every pair of blocks of length h is combined. */
  method Pass(a: array<real>, ghost orig: Vec, h: nat)
    requires Pow2(h) && Pow2(2 * h) && Tiled(a.Length, 2 * h)
    requires Blocks(a[..], orig, 0, a.Length, h)
    modifies a
    ensures Blocks(a[..], orig, 0, a.Length, 2 * h)
  {
    hide *;
    var n, i := a.Length, 0;
    BlocksEmpty(a[..], orig, 0, 2 * h);
    while i < n
      invariant 0 <= i <= n && Tiled(n - i, 2 * h)
      invariant Blocks(a[..], orig, 0, i, 2 * h)
      invariant Blocks(a[..], orig, i, n, h)
      decreases n - i
    {
      TiledStep(n - i, 2 * h);
      ghost var pre := a[..];
      ButterflyAt(a, i, h);
      PassStep(pre, a[..], orig, i, h);
      i := i + 2 * h;
    }
  }

  lemma PassStep(pre: Vec, post: Vec, orig: Vec, i: nat, h: nat)
    requires Pow2(h) && Pow2(2 * h) && |pre| == |post| && 0 < h && i + 2 * h <= |pre|
    requires Window(post, i, 2 * h) == Butterfly(Window(pre, i, h), Window(pre, i + h, h))
    requires forall k :: 0 <= k < i || i + 2 * h <= k < |pre| ==> post[k] == pre[k]
    requires Blocks(pre, orig, 0, i, 2 * h) && Blocks(pre, orig, i, |pre|, h)
    ensures Blocks(post, orig, 0, i + 2 * h, 2 * h) && Blocks(post, orig, i + 2 * h, |pre|, h)
  {
    hide *;
    BlocksHead(pre, orig, i, |pre|, h);
    BlocksHead(pre, orig, i + h, |pre|, h);
    PairDone(pre, post, orig, i, h);
    BlocksFrame(pre, post, orig, 0, i, 2 * h);
    BlocksExtend(post, orig, 0, i, 2 * h);
    assert i + h + h == i + 2 * h;
    BlocksFrame(pre, post, orig, i + 2 * h, |pre|, h);
  }

  lemma OneBlock(cur: Vec, orig: Vec)
    requires |cur| == |orig| && Pow2(|cur|) && Blocks(cur, orig, 0, |cur|, |cur|)
    ensures cur == Walsh(orig)
  {
    BlocksHead(cur, orig, 0, |cur|, |cur|);
    hide Walsh, Pow2;
    assert Window(cur, 0, |cur|) == cur && Window(orig, 0, |cur|) == orig;
  }

  /** The butterfly loops of fwht compute Walsh in place. */
  method Fwht(a: array<real>)
    requires Pow2(a.Length)
    modifies a
    ensures a[..] == Walsh(old(a[..]))
  {
    var n := a.Length;
    var h := 1;
    BlocksStart(a[..], 0);
    while h < n
      invariant Pow2(h) && h <= n
      invariant Blocks(a[..], old(a[..]), 0, n, h)
      decreases n - h
    {
      Pow2Tiled(n, h);
      Pow2Tiled(n, 2 * h);
      Pass(a, old(a[..]), h);
      h := 2 * h;
    }
    OneBlock(a[..], old(a[..]));
  }
}
