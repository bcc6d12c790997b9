/** What encoding, decoding and scoring promise together. */
module CodecLaws {
  import opened Vectors
  import opened Rotations
  import opened Codebooks
  import opened Quantizers

  // ---------- scoring ----------

  lemma ScoreAlgebra(norm: real, d: real, unit: real, debias: real)
    ensures Times(norm, Times(Times(d, unit), debias)) == Times(debias, Times(Times(norm, unit), d))
  {
    assert norm * ((d * unit) * debias) == debias * ((norm * unit) * d);
  }

  /** The rotated query against the picked levels is the original query against
      the reconstruction, up to the amplitude. */
  lemma RotatedDot(q: Quantizer, vec: Vec, codes: seq<nat>, norm: real)
    requires q.Valid() && q.WellFormed(codes)
    ensures Dot(Pad(vec, q.rot.dim), q.Reconstruction(codes, norm))
         == Times(q.Amplitude(norm), Dot(q.rot.Image(vec), q.LevelsOf(codes)))
  {
    var lv, r := q.LevelsOf(codes), q.Reconstruction(codes, norm);
    var y := Scale(q.Amplitude(norm), lv);
    hide Times, IsSqrt, IsRotation, Sorted, Midpoints, Dot, Scale, Pad;
    RotationInverse(q.rot, vec, y);
    RotationIsometry(q.rot, vec, r);
    PadFull(r);
    DotScaleRight(q.Amplitude(norm), q.rot.Image(vec), lv);
  }

  /** Score equals the debias constant times the inner product of the padded query
      with the full reconstruction, for every query. */
  lemma ScoreOfPadded(q: Quantizer, vec: Vec, c: Code)
    requires q.Valid() && q.WellFormed(c.codes)
    ensures q.ScoreOf(q.rot.Image(vec), c)
         == Times(q.debias, Dot(Pad(vec, q.rot.dim), q.Reconstruction(c.codes, c.norm)))
  {
    var d := Dot(q.rot.Image(vec), q.LevelsOf(c.codes));
    assert q.ScoreOf(q.rot.Image(vec), c) == Times(c.norm, Times(Times(d, q.rot.norm), q.debias));
    assert q.Amplitude(c.norm) == Times(c.norm, q.rot.norm);
    hide *;
    RotatedDot(q, vec, c.codes, c.norm);
    ScoreAlgebra(c.norm, d, q.rot.norm, q.debias);
  }

  /** For a query no longer than the input dimension, Score is the debias constant
      times the plain inner product of the query with what Decode returns. */
  lemma ScoreIsInnerProduct(q: Quantizer, vec: Vec, c: Code)
    requires q.Valid() && q.WellFormed(c.codes) && |vec| <= q.rot.inDim
    ensures q.ScoreOf(q.rot.Image(vec), c) == Times(q.debias, Dot(vec, q.Decoded(c)[..|vec|]))
  {
    var r := q.Reconstruction(c.codes, c.norm);
    assert q.rot.inDim <= q.rot.dim && q.Decoded(c)[..|vec|] == r[..|vec|];
    hide *;
    ScoreOfPadded(q, vec, c);
    PadDot(vec, r);
  }

  // ---------- distances ----------

  lemma Dist2Expand(x: Vec, y: Vec)
    requires |x| == |y|
    ensures Dist2(x, y) == Dot(x, x) - 2.0 * Dot(x, y) + Dot(y, y)
  {
    var d := Sub(x, y);
    hide Dot, Sub, Times;
    DotSub(x, y, d);
    DotSubRight(x, x, y);
    DotSubRight(y, x, y);
    DotCommutes(x, y);
  }

  /** The distance to a reconstruction can be measured in the rotated frame. */
  lemma RotatedDist2(q: Quantizer, x: Vec, codes: seq<nat>, norm: real)
    requires q.Valid() && q.WellFormed(codes)
    ensures Dist2(Pad(x, q.rot.dim), q.Reconstruction(codes, norm))
         == Dist2(q.rot.Image(x), Scale(q.Amplitude(norm), q.LevelsOf(codes)))
  {
    var r := q.Reconstruction(codes, norm);
    var y := Scale(q.Amplitude(norm), q.LevelsOf(codes));
    var p, image := Pad(x, q.rot.dim), q.rot.Image(x);
    hide Times, IsSqrt, IsRotation, Sorted, Midpoints, Dot, Scale, Pad, Dist2;
    RotationInverse(q.rot, x, y);
    PadFull(r);
    RotationIsometry(q.rot, x, r);
    RotationIsometry(q.rot, x, x);
    RotationIsometry(q.rot, r, r);
    Dist2Expand(p, r);
    Dist2Expand(image, y);
  }

  lemma Dist2Scale(a: real, x: Vec, y: Vec)
    requires |x| == |y|
    ensures Dist2(Scale(a, x), Scale(a, y)) == Times(Sq(a), Dist2(x, y))
  {
    var d := Sub(x, y);
    forall i | 0 <= i < |x| ensures Sub(Scale(a, x), Scale(a, y))[i] == Scale(a, d)[i] {
      TimesAddRight(a, x[i], y[i]);
    }
    assert Sub(Scale(a, x), Scale(a, y)) == Scale(a, d);
    TimesAssociates(a, a, Dot(d, d));
    assert Sq(a) == a * a;
    hide Times, Dot, Scale;
    DotScale(a, d, Scale(a, d));
    DotScaleRight(a, d, d);
  }

  lemma {:induction false} DotToLe(x: Vec, y: Vec, n: nat)
    requires n <= |x| == |y|
    requires forall i :: 0 <= i < |x| ==> Sq(x[i]) <= Sq(y[i])
    ensures DotTo(x, x, n) <= DotTo(y, y, n)
  {
    hide Times;
    if n > 0 {
      DotToLe(x, y, n - 1);
      assert Sq(x[n - 1]) <= Sq(y[n - 1]);
    }
  }

  // ---------- encoding ----------

  /** The stored norm is the Euclidean norm of the input as far as it is encoded. */
  lemma EncodedNorm(q: Quantizer, x: Vec, c: Code)
    requires q.Valid() && q.IsCodeOf(x, c)
    ensures c.norm >= 0.0 && Sq(c.norm) == Dot(Pad(x, q.rot.dim), Pad(x, q.rot.dim))
  {
    var image := q.rot.Image(x);
    DotNonNegative(image);
    assert c.norm == q.sqrt(Dot(image, image)) && IsSqrt(q.sqrt);
    hide Times, Dot, IsRotation, Sorted, Midpoints, Pad;
    RotationIsometry(q.rot, x, x);
  }

  lemma ScaleInverse(a: real, v: Vec)
    requires a != 0.0
    ensures Scale(a, Scale(1.0 / a, v)) == v
  {
    forall i | 0 <= i < |v| ensures Scale(a, Scale(1.0 / a, v))[i] == v[i] {
      TimesAssociates(a, 1.0 / a, v[i]);
      TimesUnit(v[i]);
      assert a * (1.0 / a) == 1.0;
      hide Times;
    }
  }

  lemma ScaleZero(v: Vec, w: Vec)
    requires |v| == |w|
    ensures Scale(0.0, v) == Scale(0.0, w)
  {
    forall i | 0 <= i < |v| ensures Scale(0.0, v)[i] == Scale(0.0, w)[i] {
      TimesUnit(v[i]);
      TimesUnit(w[i]);
    }
  }

  /** The image of a non-zero input is its standardized coordinates times the amplitude. */
  lemma StandardScales(q: Quantizer, x: Vec, norm: real)
    requires q.Valid() && Times(q.rot.norm, norm) != 0.0
    ensures q.rot.Image(x) == Scale(q.Amplitude(norm), q.Standard(q.rot.Image(x), norm))
  {
    TimesCommutes(q.rot.norm, norm);
    hide Times, IsSqrt, IsRotation, Scale;
    ScaleInverse(q.Amplitude(norm), q.rot.Image(x));
  }

  /** The reconstruction error of the full decoding is exactly the amplitude times
      the stored residual norm. */
  lemma EncodedResidual(q: Quantizer, x: Vec, c: Code)
    requires q.Valid() && q.IsCodeOf(x, c)
    ensures Dist2(Pad(x, q.rot.dim), q.Reconstruction(c.codes, c.norm))
         == Times(Sq(q.Amplitude(c.norm)), Sq(c.resNorm))
  {
    RotatedDist2(q, x, c.codes, c.norm);
    if c.norm == 0.0 {
      ZeroResidual(q, x, c);
    } else {
      NonZeroResidual(q, x, c);
    }
  }

  lemma NonZeroResidual(q: Quantizer, x: Vec, c: Code)
    requires q.Valid() && q.IsCodeOf(x, c) && c.norm != 0.0
    ensures Dist2(q.rot.Image(x), Scale(q.Amplitude(c.norm), q.LevelsOf(c.codes)))
         == Times(Sq(q.Amplitude(c.norm)), Sq(c.resNorm))
  {
    var z, lv := q.Standard(q.rot.Image(x), c.norm), q.LevelsOf(c.codes);
    var res := Sub(z, lv);
    assert c.resNorm == q.sqrt(Dot(res, res)) && IsSqrt(q.sqrt);
    DotNonNegative(res);
    assert Sq(c.resNorm) == Dot(res, res) == Dist2(z, lv);
    hide *;
    StandardScales(q, x, c.norm);
    Dist2Scale(q.Amplitude(c.norm), z, lv);
  }

  lemma ZeroResidual(q: Quantizer, x: Vec, c: Code)
    requires q.Valid() && q.IsCodeOf(x, c) && c.norm == 0.0
    ensures Dist2(q.rot.Image(x), Scale(q.Amplitude(c.norm), q.LevelsOf(c.codes)))
         == Times(Sq(q.Amplitude(c.norm)), Sq(c.resNorm))
  {
    var image, lv := q.rot.Image(x), q.LevelsOf(c.codes);
    TimesUnit(q.rot.norm);
    assert c.resNorm == 0.0 && q.Amplitude(c.norm) == 0.0;
    EncodedNorm(q, x, c);
    RotationIsometry(q.rot, x, x);
    TimesUnit(0.0);
    assert Dot(image, image) == 0.0;
    hide IsSqrt, IsRotation, Sorted, Midpoints;
    assert forall i :: 0 <= i < |lv| ==> Scale(0.0, lv)[i] == 0.0;
    assert Sub(image, Scale(0.0, lv)) == image;
  }

  /** The codes that EncodeInto picks reconstruct x at least as well as any other
      codes of the same norm. */
  lemma EncodedIsNearest(q: Quantizer, x: Vec, c: Code, other: seq<nat>)
    requires q.Valid() && q.IsCodeOf(x, c) && q.WellFormed(other)
    ensures Dist2(Pad(x, q.rot.dim), q.Reconstruction(c.codes, c.norm))
         <= Dist2(Pad(x, q.rot.dim), q.Reconstruction(other, c.norm))
  {
    RotatedDist2(q, x, c.codes, c.norm);
    RotatedDist2(q, x, other, c.norm);
    if c.norm == 0.0 {
      TimesUnit(q.rot.norm);
      assert q.Amplitude(c.norm) == 0.0;
      ScaleZero(q.LevelsOf(c.codes), q.LevelsOf(other));
    } else {
      var a, z := q.Amplitude(c.norm), q.Standard(q.rot.Image(x), c.norm);
      SquareNonNegative(a);
      CodesAreNearest(q, x, c, other);
      hide *;
      StandardScales(q, x, c.norm);
      Dist2Scale(a, z, q.LevelsOf(c.codes));
      Dist2Scale(a, z, q.LevelsOf(other));
      MulLe(Sq(a), Dist2(z, q.LevelsOf(c.codes)), Dist2(z, q.LevelsOf(other)));
    }
  }

  lemma CodesAreNearest(q: Quantizer, x: Vec, c: Code, other: seq<nat>)
    requires q.Valid() && q.IsCodeOf(x, c) && c.norm != 0.0 && q.WellFormed(other)
    ensures var z := q.Standard(q.rot.Image(x), c.norm);
      Sq(q.Amplitude(c.norm)) >= 0.0 && Dist2(z, q.LevelsOf(c.codes)) <= Dist2(z, q.LevelsOf(other))
  {
    var z := q.Standard(q.rot.Image(x), c.norm);
    SquareNonNegative(q.Amplitude(c.norm));
    assert q.InCells(z, c.codes);
    hide Times, IsSqrt, IsRotation, Dist2, Sorted, Midpoints, IsCell;
    PickNearest(q.cb.levels, q.cb.bounds, z, c.codes, other);
  }

  /** The levels of the cells of z are, all together, a nearest choice of levels. */
  lemma PickNearest(levels: Vec, bounds: Vec, z: Vec, codes: seq<nat>, other: seq<nat>)
    requires Sorted(levels) && Midpoints(bounds, levels) && |z| == |codes| == |other|
    requires forall i :: 0 <= i < |codes| ==> codes[i] < |levels| && IsCell(bounds, z[i], codes[i])
    requires forall i :: 0 <= i < |other| ==> other[i] < |levels|
    ensures Dist2(z, Pick(levels, codes)) <= Dist2(z, Pick(levels, other))
  {
    hide Times, Sorted, Midpoints, IsCell;
    var d, e := Sub(z, Pick(levels, codes)), Sub(z, Pick(levels, other));
    forall i | 0 <= i < |z| ensures Sq(d[i]) <= Sq(e[i]) {
      CellIsNearest(levels, bounds, z[i], codes[i], other[i]);
    }
    DotToLe(d, e, |z|);
  }

  /** Cutting to the input dimension only brings Decode's answer closer. */
  lemma DecodedError(q: Quantizer, x: Vec, c: Code)
    requires q.Valid() && q.IsCodeOf(x, c) && |x| == q.rot.inDim
    ensures Dist2(x, q.Decoded(c)) <= Times(Sq(q.Amplitude(c.norm)), Sq(c.resNorm))
  {
    EncodedResidual(q, x, c);
    var p, r := Pad(x, q.rot.dim), q.Reconstruction(c.codes, c.norm);
    assert |r| == q.rot.dim;
    hide IsSqrt, IsRotation, Sorted, Midpoints, Times;
    var d, e := Sub(p, r), Sub(x, q.Decoded(c));
    DotToSame(d, d, e, e, |x|);
    DotToGrows(d, |x|, |d|);
  }

  lemma {:induction false} DotToGrows(d: Vec, m: nat, n: nat)
    requires m <= n <= |d|
    ensures DotTo(d, d, m) <= DotTo(d, d, n)
    decreases n
  {
    hide Times;
    if m < n {
      DotToGrows(d, m, n - 1);
      SquareNonNegative(d[n - 1]);
    }
  }
}
