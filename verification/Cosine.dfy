/** Cosine similarity, and how inner products of normalized vectors give it. */
module Cosines {
  import opened Vectors

  /** norm is the Euclidean length. */
  ghost predicate Euclidean(norm: Vec -> real) {
    forall v :: norm(v) >= 0.0 && norm(v) * norm(v) == Dot(v, v)
  }

  /** The cosine of the angle between two vectors; 0 when one of them is zero. */
  ghost function Cosine(norm: Vec -> real, x: Vec, y: Vec): real
    requires |x| == |y|
  {
    if norm(x) == 0.0 || norm(y) == 0.0 then 0.0 else Dot(x, y) / (norm(x) * norm(y))
  }

  /** L2 normalization into dim coordinates; norm is the Euclidean length. */
  function Normalized(norm: Vec -> real, v: Vec, dim: nat): (r: Vec)
    ensures |r| == dim
  {
    var n := norm(v);
    var w := if n == 0.0 then v else Scale(1.0 / n, v);
    seq(dim, i requires 0 <= i < dim => if i < |w| then w[i] else 0.0)
  }

  lemma {:induction false} ZeroDotTo(x: Vec, y: Vec, n: nat)
    requires n <= |x| && n <= |y| && DotTo(x, x, n) == 0.0
    ensures DotTo(x, y, n) == 0.0
  {
    if n > 0 {
      DotToNonNegative(x, n - 1);
      SquareNonNegative(x[n - 1]);
      SquareIsZero(x[n - 1]);
      TimesUnit(y[n - 1]);
      hide Times;
      ZeroDotTo(x, y, n - 1);
    }
  }

  lemma SquareIsZero(x: real)
    ensures Times(x, x) == 0.0 ==> x == 0.0
  {
    if x > 0.0 {
      PositiveProduct(x, x);
    } else if x < 0.0 {
      PositiveProduct(-x, -x);
    }
  }

  /** A vector of length zero is orthogonal to every vector. */
  lemma ZeroDot(norm: Vec -> real, x: Vec, y: Vec)
    requires Euclidean(norm) && |x| == |y| && norm(x) == 0.0
    ensures Dot(x, y) == 0.0
  {
    hide Times, DotTo;
    assert Dot(x, x) == norm(x) * norm(x);
    ZeroDotTo(x, y, |x|);
  }

  /** The cosine times both lengths is the inner product, whatever the vectors. */
  lemma CosineProduct(norm: Vec -> real, x: Vec, y: Vec)
    requires Euclidean(norm) && |x| == |y|
    ensures norm(x) * norm(y) * Cosine(norm, x, y) == Dot(x, y)
  {
    if norm(x) == 0.0 {
      ZeroDot(norm, x, y);
    } else if norm(y) == 0.0 {
      ZeroDot(norm, y, x);
      DotCommutes(x, y);
    } else {
      hide Dot, Euclidean;
      NonZeroProduct(norm(x), norm(y));
      QuotientBack(Dot(x, y), norm(x) * norm(y));
    }
  }

  lemma PositiveProduct(a: real, b: real)
    requires a > 0.0 && b > 0.0
    ensures Times(a, b) > 0.0 && Times(-a, -b) > 0.0
  {
    assert a * b > 0.0;
    assert (-a) * (-b) == a * b;
  }

  lemma NonZeroProduct(a: real, b: real)
    requires a != 0.0 && b != 0.0
    ensures a * b != 0.0
  {
  }

  lemma QuotientBack(a: real, b: real)
    requires b != 0.0
    ensures b * (a / b) == a
  {
  }

  lemma SameRoot(a: real, b: real)
    requires a >= 0.0 && b >= 0.0 && a * a == b * b
    ensures a == b
  {
    if a != b {
      assert (a - b) * (a + b) == 0.0;
      NonZeroProduct(a - b, a + b);
    }
  }

  /** Zeros behind a vector do not change its length. */
  lemma PadNorm(norm: Vec -> real, v: Vec, n: nat)
    requires Euclidean(norm) && |v| <= n
    ensures norm(Pad(v, n)) == norm(v)
  {
    var p := Pad(v, n);
    PadDot(v, p);
    assert p[..|v|] == v;
    assert Dot(p, p) == Dot(v, v);
    hide Dot;
    SameRoot(norm(p), norm(v));
  }

  lemma NormalizedIs(norm: Vec -> real, v: Vec, dim: nat)
    requires |v| <= dim
    ensures Normalized(norm, v, dim) == Scale(if norm(v) == 0.0 then 1.0 else 1.0 / norm(v), Pad(v, dim))
  {
    var c := if norm(v) == 0.0 then 1.0 else 1.0 / norm(v);
    forall i | 0 <= i < dim ensures Normalized(norm, v, dim)[i] == Scale(c, Pad(v, dim))[i] {
      TimesUnit(c);
      TimesUnit(Pad(v, dim)[i]);
    }
  }

  /** The inner product of two normalized vectors is the cosine of the vectors themselves. */
  lemma NormalizedDot(norm: Vec -> real, v: Vec, w: Vec, dim: nat)
    requires Euclidean(norm) && |v| <= dim && |w| <= dim
    ensures Dot(Normalized(norm, v, dim), Normalized(norm, w, dim)) == Cosine(norm, Pad(v, dim), Pad(w, dim))
  {
    var p, q := Pad(v, dim), Pad(w, dim);
    var c, d := if norm(v) == 0.0 then 1.0 else 1.0 / norm(v), if norm(w) == 0.0 then 1.0 else 1.0 / norm(w);
    PadNorm(norm, v, dim);
    PadNorm(norm, w, dim);
    NormalizedIs(norm, v, dim);
    NormalizedIs(norm, w, dim);
    DotScale(c, p, Scale(d, q));
    DotScaleRight(d, p, q);
    if norm(p) == 0.0 {
      ZeroDot(norm, p, q);
    } else if norm(q) == 0.0 {
      ZeroDot(norm, q, p);
      DotCommutes(p, q);
    } else {
      hide Dot, Euclidean, Normalized, Pad;
      TwoQuotients(norm(p), norm(q), Dot(p, q));
    }
  }

  lemma TwoQuotients(a: real, b: real, x: real)
    requires a != 0.0 && b != 0.0
    ensures a * b != 0.0 && Times(1.0 / a, Times(1.0 / b, x)) == x / (a * b)
  {
    NonZeroProduct(a, b);
    var y := (1.0 / a) * ((1.0 / b) * x);
    assert a * (1.0 / a) == 1.0 && b * (1.0 / b) == 1.0;
    assert y * (a * b) == (a * (1.0 / a)) * ((b * (1.0 / b)) * x);
  }
}
