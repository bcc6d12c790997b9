/** Real vectors: the arithmetic shared by the codec, the vector index and the
    graph. Floating point is modelled by exact reals. */
module Vectors {

  type Vec = seq<real>

  /** A product of two reals, named so that proofs that need no algebra can hide it. */
  function Times(x: real, y: real): real { x * y }

  function Abs(x: real): real { if x < 0.0 then -x else x }

  function Add(x: Vec, y: Vec): (z: Vec)
    requires |x| == |y|
    ensures |z| == |x| && forall i :: 0 <= i < |x| ==> z[i] == x[i] + y[i]
  {
    seq(|x|, i requires 0 <= i < |x| => x[i] + y[i])
  }

  function Sub(x: Vec, y: Vec): (z: Vec)
    requires |x| == |y|
    ensures |z| == |x| && forall i :: 0 <= i < |x| ==> z[i] == x[i] - y[i]
  {
    seq(|x|, i requires 0 <= i < |x| => x[i] - y[i])
  }

  /** Coordinate-wise product, used for sign flips. */
  function Mul(x: Vec, y: Vec): (z: Vec)
    requires |x| == |y|
    ensures |z| == |x| && forall i :: 0 <= i < |x| ==> z[i] == Times(x[i], y[i])
  {
    seq(|x|, i requires 0 <= i < |x| => Times(x[i], y[i]))
  }

  function Scale(c: real, x: Vec): (z: Vec)
    ensures |z| == |x| && forall i :: 0 <= i < |x| ==> z[i] == Times(c, x[i])
  {
    seq(|x|, i requires 0 <= i < |x| => Times(c, x[i]))
  }

  lemma SubAsAdd(x: Vec, y: Vec)
    requires |x| == |y|
    ensures Sub(x, y) == Add(x, Scale(-1.0, y))
  {
  }

  lemma AddSplit(x: Vec, y: Vec, n: nat)
    requires |x| == |y| && n <= |x|
    ensures Add(x, y)[..n] == Add(x[..n], y[..n]) && Add(x, y)[n..] == Add(x[n..], y[n..])
  {
  }

  lemma ScaleSplit(c: real, x: Vec, n: nat)
    requires n <= |x|
    ensures Scale(c, x)[..n] == Scale(c, x[..n]) && Scale(c, x)[n..] == Scale(c, x[n..])
  {
    hide Times;
  }

  lemma ScaleScale(c: real, d: real, x: Vec)
    ensures Scale(c, Scale(d, x)) == Scale(c * d, x)
  {
    forall i | 0 <= i < |x| ensures Scale(c, Scale(d, x))[i] == Scale(c * d, x)[i] {
      TimesAssociates(c, d, x[i]);
    }
  }

  lemma TimesAssociates(c: real, d: real, x: real)
    ensures Times(c, Times(d, x)) == Times(c * d, x)
  {
  }

  function Zeros(n: nat): Vec {
    seq(n, _ => 0.0)
  }

  /** The inner product of the first n coordinates. */
  function DotTo(x: Vec, y: Vec, n: nat): real
    requires n <= |x| && n <= |y|
  {
    if n == 0 then 0.0 else DotTo(x, y, n - 1) + Times(x[n - 1], y[n - 1])
  }

  function Dot(x: Vec, y: Vec): real
    requires |x| == |y|
  {
    DotTo(x, y, |x|)
  }

  lemma {:induction false} DotToSame(x: Vec, y: Vec, x': Vec, y': Vec, n: nat)
    requires n <= |x| && n <= |y| && n <= |x'| && n <= |y'|
    requires forall i :: 0 <= i < n ==> x[i] == x'[i] && y[i] == y'[i]
    ensures DotTo(x, y, n) == DotTo(x', y', n)
  {
    hide Times;
    if n > 0 {
      DotToSame(x, y, x', y', n - 1);
    }
  }

  lemma {:induction false} DotToConcat(a: Vec, b: Vec, c: Vec, d: Vec, n: nat)
    requires |a| == |c| && |b| == |d| && n <= |b|
    ensures DotTo(a + b, c + d, |a| + n) == Dot(a, c) + DotTo(b, d, n)
  {
    hide Times;
    if n == 0 {
      DotToSame(a + b, c + d, a, c, |a|);
    } else {
      DotToConcat(a, b, c, d, n - 1);
      assert (a + b)[|a| + n - 1] == b[n - 1] && (c + d)[|a| + n - 1] == d[n - 1];
    }
  }

  lemma DotConcat(a: Vec, b: Vec, c: Vec, d: Vec)
    requires |a| == |c| && |b| == |d|
    ensures Dot(a + b, c + d) == Dot(a, c) + Dot(b, d)
  {
    DotToConcat(a, b, c, d, |b|);
  }

  lemma {:induction false} DotToLinear(x: Vec, y: Vec, c: real, z: Vec, w: Vec, n: nat)
    requires n <= |x| == |y| == |w| && n <= |z|
    requires forall i :: 0 <= i < |w| ==> w[i] == x[i] + Times(c, y[i])
    ensures DotTo(w, z, n) == DotTo(x, z, n) + Times(c, DotTo(y, z, n))
  {
    TimesUnit(c);
    hide Times;
    if n > 0 {
      DotToLinear(x, y, c, z, w, n - 1);
      LinearStep(c, DotTo(x, z, n - 1), DotTo(y, z, n - 1), x[n - 1], y[n - 1], z[n - 1], w[n - 1], DotTo(y, z, n));
    }
  }

  lemma LinearStep(c: real, d: real, e: real, x: real, y: real, z: real, w: real, e': real)
    requires w == x + Times(c, y) && e' == e + Times(y, z)
    ensures (d + Times(c, e)) + Times(w, z) == (d + Times(x, z)) + Times(c, e')
  {
  }

  lemma TimesUnit(x: real)
    ensures Times(1.0, x) == x && Times(x, 1.0) == x && Times(-1.0, x) == -x && Times(0.0, x) == 0.0 && Times(x, 0.0) == 0.0
  {
  }

  lemma DotAdd(x: Vec, y: Vec, z: Vec)
    requires |x| == |y| == |z|
    ensures Dot(Add(x, y), z) == Dot(x, z) + Dot(y, z)
  {
    TimesUnit(Dot(y, z));
    assert forall i :: 0 <= i < |y| ==> Times(1.0, y[i]) == y[i];
    hide Times;
    DotToLinear(x, y, 1.0, z, Add(x, y), |x|);
  }

  lemma DotSub(x: Vec, y: Vec, z: Vec)
    requires |x| == |y| == |z|
    ensures Dot(Sub(x, y), z) == Dot(x, z) - Dot(y, z)
  {
    TimesUnit(Dot(y, z));
    assert forall i :: 0 <= i < |y| ==> Times(-1.0, y[i]) == -y[i];
    hide Times;
    DotToLinear(x, y, -1.0, z, Sub(x, y), |x|);
  }

  lemma DotScale(c: real, x: Vec, y: Vec)
    requires |x| == |y|
    ensures Dot(Scale(c, x), y) == Times(c, Dot(x, y))
  {
    hide Times;
    DotToLinear(Zeros(|x|), x, c, y, Scale(c, x), |x|);
    DotToZeros(Zeros(|x|), y, |x|);
  }

  lemma {:induction false} DotToZeros(z: Vec, y: Vec, n: nat)
    requires n <= |z| && n <= |y|
    requires forall i :: 0 <= i < n ==> z[i] == 0.0
    ensures DotTo(z, y, n) == 0.0
  {
    if n > 0 {
      TimesUnit(y[n - 1]);
      hide Times;
      DotToZeros(z, y, n - 1);
    }
  }

  lemma {:induction false} DotToCommutes(x: Vec, y: Vec, n: nat)
    requires n <= |x| && n <= |y|
    ensures DotTo(x, y, n) == DotTo(y, x, n)
  {
    if n > 0 {
      TimesCommutes(x[n - 1], y[n - 1]);
      hide Times;
      DotToCommutes(x, y, n - 1);
    }
  }

  lemma TimesCommutes(x: real, y: real)
    ensures Times(x, y) == Times(y, x)
  {
  }

  lemma DotCommutes(x: Vec, y: Vec)
    requires |x| == |y|
    ensures Dot(x, y) == Dot(y, x)
  {
    DotToCommutes(x, y, |x|);
  }

  lemma DotSubRight(x: Vec, y: Vec, z: Vec)
    requires |x| == |y| == |z|
    ensures Dot(x, Sub(y, z)) == Dot(x, y) - Dot(x, z)
  {
    hide *;
    DotSub(y, z, x);
    DotCommutes(x, Sub(y, z));
    DotCommutes(x, y);
    DotCommutes(x, z);
  }

  lemma DotScaleRight(c: real, x: Vec, y: Vec)
    requires |x| == |y|
    ensures Dot(x, Scale(c, y)) == Times(c, Dot(x, y))
  {
    hide *;
    DotScale(c, y, x);
    DotCommutes(x, Scale(c, y));
    DotCommutes(x, y);
  }

  /** Flipping both vectors by the same signs leaves their inner product alone. */
  lemma {:induction false} DotToSigns(x: Vec, y: Vec, s: Vec, n: nat)
    requires n <= |x| == |y| == |s|
    requires forall i :: 0 <= i < |s| ==> s[i] == 1.0 || s[i] == -1.0
    ensures DotTo(Mul(x, s), Mul(y, s), n) == DotTo(x, y, n)
  {
    hide Times;
    if n > 0 {
      DotToSigns(x, y, s, n - 1);
      SignStep(x[n - 1], y[n - 1], s[n - 1]);
    }
  }

  lemma SignStep(x: real, y: real, s: real)
    requires s == 1.0 || s == -1.0
    ensures Times(Times(x, s), Times(y, s)) == Times(x, y)
  {
  }

  lemma DotMulSigns(x: Vec, y: Vec, s: Vec)
    requires |x| == |y| == |s|
    requires forall i :: 0 <= i < |s| ==> s[i] == 1.0 || s[i] == -1.0
    ensures Dot(Mul(x, s), Mul(y, s)) == Dot(x, y)
  {
    DotToSigns(x, y, s, |x|);
  }

  lemma {:induction false} DotToNonNegative(x: Vec, n: nat)
    requires n <= |x|
    ensures DotTo(x, x, n) >= 0.0
  {
    hide Times;
    if n > 0 {
      DotToNonNegative(x, n - 1);
      SquareNonNegative(x[n - 1]);
    }
  }

  lemma DotNonNegative(x: Vec)
    ensures Dot(x, x) >= 0.0
  {
    DotToNonNegative(x, |x|);
  }

  lemma SquareNonNegative(x: real)
    ensures Times(x, x) >= 0.0
  {
    if x < 0.0 {
      assert (-x) * (-x) == x * x;
    }
  }

  /** src cut or zero-extended to length n. */
  function Pad(src: Vec, n: nat): (r: Vec)
    ensures |r| == n
  {
    seq(n, i requires 0 <= i < n => if i < |src| then src[i] else 0.0)
  }

  lemma {:induction false} PadDotTo(v: Vec, r: Vec, n: nat)
    requires |v| <= |r| && n <= |r|
    ensures DotTo(Pad(v, |r|), r, n) == DotTo(v, r, if n <= |v| then n else |v|)
  {
    hide Times;
    if n > 0 {
      PadDotTo(v, r, n - 1);
      TimesUnit(r[n - 1]);
    }
  }

  /** Zero padding contributes nothing to an inner product. */
  lemma PadDot(v: Vec, r: Vec)
    requires |v| <= |r|
    ensures Dot(Pad(v, |r|), r) == Dot(v, r[..|v|])
  {
    PadDotTo(v, r, |r|);
    DotToSame(v, r, v, r[..|v|], |v|);
  }

  lemma PadFull(v: Vec)
    ensures Pad(v, |v|) == v
  {
  }
}
