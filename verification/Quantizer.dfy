/** The codec of quant/quantizer.go and the asymmetric scoring of
    quant/estimator.go: what a stored code and a prepared query compute together. */
module Quantizers {
  import opened Vectors
  import opened Rotations
  import opened Codebooks

  /** A compressed vector; signs holds the indices of the set sketch bits. */
  datatype Code = Code(codes: seq<nat>, norm: real, resNorm: real, signs: set<nat>)

  /** A prepared query: rotated coordinates and the flat table of their products
      with every level. */
  datatype Query = Query(qrot: Vec, qnorm2: real, qlut: Vec, k: nat, projq: Vec)

  ghost predicate IsSqrt(sqrt: real -> real) {
    forall x: real :: x >= 0.0 ==> sqrt(x) >= 0.0 && Times(sqrt(x), sqrt(x)) == x
  }

  /** Squared Euclidean distance. */
  ghost function Dist2(x: Vec, y: Vec): real
    requires |x| == |y|
  {
    Dot(Sub(x, y), Sub(x, y))
  }

  /** Position of coordinate i, code c in a row-major table with k columns. */
  function Slot(i: nat, k: nat, c: nat): nat { i * k + c }

  lemma SlotBelow(i: nat, n: nat, k: nat, c: nat)
    requires i < n && c < k
    ensures Slot(i, k, c) < n * k
  {
    assert (i + 1) * k <= n * k;
  }

  lemma SlotDistinct(i: nat, j: nat, k: nat, c: nat, d: nat)
    requires c < k && d < k && (i != j || c != d)
    ensures Slot(i, k, c) != Slot(j, k, d)
  {
    if i < j {
      assert (i + 1) * k <= j * k;
    } else if j < i {
      assert (j + 1) * k <= i * k;
    }
  }

  class Quantizer {
    const rot: Rotation
    const cb: Codebook
    const m: nat // sketch projections
    const proj: seq<Vec>
    const debias: real
    const sqrt: real -> real

    ghost predicate Valid() {
      && rot.Valid() && cb.Valid() && m <= 64
      && |proj| == m && (forall j :: 0 <= j < m ==> IsSigns(proj[j], rot.dim))
      && debias * cb.eq2 == 1.0
      && IsSqrt(sqrt)
    }

    constructor (rot: Rotation, cb: Codebook, proj: seq<Vec>, sqrt: real -> real)
      requires rot.Valid() && cb.Valid() && cb.eq2 != 0.0 && IsSqrt(sqrt)
      requires |proj| <= 64 && forall j :: 0 <= j < |proj| ==> IsSigns(proj[j], rot.dim)
      ensures Valid() && this.rot == rot && this.cb == cb && this.proj == proj && this.sqrt == sqrt
    {
      this.rot, this.cb, this.proj, this.sqrt := rot, cb, proj, sqrt;
      m := |proj|;
      debias := 1.0 / cb.eq2;
    }

    ghost predicate WellFormed(codes: seq<nat>)
      requires Valid()
    {
      |codes| == rot.dim && forall i :: 0 <= i < |codes| ==> codes[i] < |cb.levels|
    }

    /** The levels that a code sequence names. */
    ghost function LevelsOf(codes: seq<nat>): (r: Vec)
      requires Valid() && WellFormed(codes)
      ensures |r| == rot.dim
    {
      Pick(cb.levels, codes)
    }

    /** The factor that takes levels back to the length of a vector of this norm. */
    function Amplitude(norm: real): real { Times(norm, rot.norm) }

    /** The full reconstruction in the padded frame, before Decode cuts it. */
    ghost function Reconstruction(codes: seq<nat>, norm: real): (r: Vec)
      requires Valid() && WellFormed(codes)
      ensures |r| == rot.dim
    {
      rot.Preimage(Scale(Amplitude(norm), LevelsOf(codes)))
    }

    /** What Decode returns: the reconstruction cut to the input dimension. */
    ghost function Decoded(c: Code): (r: Vec)
      requires Valid() && WellFormed(c.codes)
      ensures |r| == rot.inDim
    {
      Reconstruction(c.codes, c.norm)[..rot.inDim]
    }

    /** unitScore as a function of rawMain's result. */
    function UnitScore(main: real): real { Times(Times(main, rot.norm), debias) }

    /** Score's value for a rotated query and a code. */
    ghost function ScoreOf(qrot: Vec, c: Code): real
      requires Valid() && WellFormed(c.codes) && |qrot| == rot.dim
    {
      Times(c.norm, UnitScore(Dot(qrot, LevelsOf(c.codes))))
    }

    /** Standardized coordinates of a non-zero image: z = image / (norm / sqrt(D)). */
    ghost function Standard(image: Vec, norm: real): (z: Vec)
      requires Times(rot.norm, norm) != 0.0
      ensures |z| == |image|
    {
      Scale(1.0 / (Times(rot.norm, norm)), image)
    }

    /** Every coordinate of z has its cell's code. */
    ghost predicate InCells(z: Vec, codes: seq<nat>)
      requires |z| == |codes|
    {
      forall i :: 0 <= i < |codes| ==> IsCell(cb.bounds, z[i], codes[i])
    }

    /** Everything EncodeInto promises about the code of x. */
    ghost predicate IsCodeOf(x: Vec, c: Code)
      requires Valid()
    {
      var image := rot.Image(x);
      && WellFormed(c.codes)
      && c.norm == sqrt(Dot(image, image))
      && if c.norm == 0.0 then
           c.resNorm == 0.0 && c.signs == {} && forall i :: 0 <= i < |c.codes| ==> IsCell(cb.bounds, 0.0, c.codes[i])
         else
           Times(rot.norm, c.norm) != 0.0 &&
           var z := Standard(image, c.norm);
           var res := Sub(z, LevelsOf(c.codes));
           && InCells(z, c.codes)
           && c.resNorm == sqrt(Dot(res, res))
           && c.signs == set j | 0 <= j < m && Dot(proj[j], res) >= 0.0
    }

    /** EncodeInto: rotate, standardize, quantize every coordinate, sketch the residual. */
    method EncodeInto(x: Vec, buf: array<real>, res: array<real>, codes: array<nat>)
      returns (norm: real, resNorm: real, signs: set<nat>)
      requires Valid() && buf.Length == res.Length == codes.Length == rot.dim && buf != res
      modifies buf, res, codes
      ensures buf[..] == rot.Image(x)
      ensures IsCodeOf(x, Code(codes[..], norm, resNorm, signs))
    {
      rot.Apply(buf, x);
      ghost var image := buf[..];
      MidpointsSorted(cb.bounds, cb.levels);
      var n2 := SumOfSquares(buf);
      norm := sqrt(n2);
      DotNonNegative(image);
      hide *;
      if norm == 0.0 {
        for i := 0 to codes.Length
          invariant buf[..] == image
          invariant forall k :: 0 <= k < i ==> IsCell(cb.bounds, 0.0, codes[k])
        {
          codes[i] := Codebooks.Encode(cb.bounds, 0.0);
        }
        resNorm, signs := 0.0, {};
        ZeroCode(x, codes[..], norm);
      } else {
        NormProduct(norm);
        QuantizeCoordinates(buf[..], 1.0 / (Times(rot.norm, norm)), res, codes);
        var resN2 := SumOfSquares(res);
        DotNonNegative(res[..]);
        resNorm := sqrt(resN2);
        signs := Sketch(res[..]);
        FullCode(x, codes[..], res[..], norm, resNorm, signs);
      }
    }

    lemma NormProduct(norm: real)
      requires Valid() && norm != 0.0
      ensures Times(rot.norm, norm) != 0.0
    {
      assert rot.norm > 0.0;
      hide *;
    }

    lemma ZeroCode(x: Vec, codes: seq<nat>, norm: real)
      requires Valid() && |codes| == rot.dim
      requires norm == 0.0 && norm == sqrt(Dot(rot.Image(x), rot.Image(x)))
      requires forall k :: 0 <= k < |codes| ==> IsCell(cb.bounds, 0.0, codes[k])
      ensures IsCodeOf(x, Code(codes, norm, 0.0, {}))
    {
    }

    lemma FullCode(x: Vec, codes: seq<nat>, res: Vec, norm: real, resNorm: real, signs: set<nat>)
      requires Valid() && WellFormed(codes)
      requires norm != 0.0 && Times(rot.norm, norm) != 0.0 && norm == sqrt(Dot(rot.Image(x), rot.Image(x)))
      requires InCells(Standard(rot.Image(x), norm), codes)
      requires res == Sub(Standard(rot.Image(x), norm), LevelsOf(codes))
      requires resNorm == sqrt(Dot(res, res))
      requires signs == set j | 0 <= j < m && Dot(proj[j], res) >= 0.0
      ensures IsCodeOf(x, Code(codes, norm, resNorm, signs))
    {
      hide Times, Dot, WellFormed, LevelsOf, Standard, InCells, IsSqrt, IsSigns;
    }

    /** The quantizing loop of EncodeInto: codes and residual of every coordinate. */
    method QuantizeCoordinates(buf: Vec, zscale: real, res: array<real>, codes: array<nat>)
      requires Valid() && |buf| == res.Length == codes.Length == rot.dim
      modifies res, codes
      ensures WellFormed(codes[..])
      ensures InCells(Scale(zscale, buf), codes[..])
      ensures res[..] == Sub(Scale(zscale, buf), LevelsOf(codes[..]))
    {
      MidpointsSorted(cb.bounds, cb.levels);
      assert |cb.levels| == |cb.bounds| + 1;
      ghost var zs := Scale(zscale, buf);
      hide *;
      for i := 0 to |buf|
        invariant forall k :: 0 <= k < i ==> IsCell(cb.bounds, zs[k], codes[k])
        invariant forall k :: 0 <= k < i ==> codes[k] < |cb.levels| && res[k] == zs[k] - cb.levels[codes[k]]
      {
        var z := Times(zscale, buf[i]);
        assert z == zs[i];
        var code := Codebooks.Encode(cb.bounds, z);
        CellBelow(cb.bounds, z, code);
        codes[i] := code;
        res[i] := z - cb.levels[code];
      }
      QuantizedForm(zs, res[..], codes[..]);
    }

    lemma QuantizedForm(zs: Vec, res: Vec, codes: seq<nat>)
      requires Valid() && |zs| == |res| == |codes| == rot.dim
      requires forall k :: 0 <= k < |codes| ==> IsCell(cb.bounds, zs[k], codes[k])
      requires forall k :: 0 <= k < |codes| ==> codes[k] < |cb.levels| && res[k] == zs[k] - cb.levels[codes[k]]
      ensures WellFormed(codes) && InCells(zs, codes) && res == Sub(zs, LevelsOf(codes))
    {
      assert WellFormed(codes) && InCells(zs, codes);
      hide Times, IsSqrt, IsRotation, Sorted, Midpoints, IsSigns, IsCell;
    }

    /** The sign bit of every projection of the residual. */
    method Sketch(res: Vec) returns (signs: set<nat>)
      requires Valid() && |res| == rot.dim
      ensures signs == set j | 0 <= j < m && Dot(proj[j], res) >= 0.0
    {
      signs := {};
      assert forall j :: 0 <= j < m ==> |proj[j]| == |res|;
      hide Times, Valid, WellFormed;
      for j := 0 to m
        invariant signs == set i | 0 <= i < j && Dot(proj[i], res) >= 0.0
      {
        var dot := DotLoop(proj[j], res);
        if dot >= 0.0 {
          signs := signs + {j};
        }
      }
    }

    method Encode(x: Vec) returns (c: Code)
      requires Valid()
      ensures IsCodeOf(x, c)
    {
      var buf, res, codes := new real[rot.dim], new real[rot.dim], new nat[rot.dim];
      var norm, resNorm, signs := EncodeInto(x, buf, res, codes);
      c := Code(codes[..], norm, resNorm, signs);
    }

    /** Decode: levels scaled back, rotation undone in place, cut to the input dimension. */
    method Decode(c: Code) returns (v: Vec)
      requires Valid() && WellFormed(c.codes)
      ensures v == Decoded(c)
    {
      var y := new real[rot.dim];
      var s := Amplitude(c.norm);
      ghost var lv := LevelsOf(c.codes);
      assert forall k :: 0 <= k < |c.codes| ==> c.codes[k] < |cb.levels|;
      assert |c.codes| == rot.dim && rot.inDim <= rot.dim;
      assert forall k :: 0 <= k < |c.codes| ==> lv[k] == cb.levels[c.codes[k]];
      ghost var target := Scale(s, lv);
      assert rot.Preimage(target) == Reconstruction(c.codes, c.norm);
      hide *;
      for i := 0 to |c.codes|
        invariant forall k :: 0 <= k < i ==> y[k] == target[k]
      {
        y[i] := Times(s, cb.levels[c.codes[i]]);
      }
      assert y[..] == target;
      rot.ApplyInverse(y);
      v := y[..rot.inDim];
    }

    /** What PrepareQuery leaves in a query for vec. */
    ghost predicate IsQueryOf(vec: Vec, qr: Query)
      requires Valid()
    {
      && qr.qrot == rot.Image(vec) && qr.qnorm2 == Dot(qr.qrot, qr.qrot)
      && qr.k == |cb.levels| && IsTable(qr.qlut, qr.qrot, cb.levels)
      && |qr.projq| == m && forall j :: 0 <= j < m ==> qr.projq[j] == Dot(proj[j], qr.qrot)
    }

    method PrepareQuery(vec: Vec) returns (qr: Query)
      requires Valid()
      ensures IsQueryOf(vec, qr)
    {
      var qrot := new real[rot.dim];
      rot.Apply(qrot, vec);
      hide *;
      var n2 := SumOfSquares(qrot);
      var k := |cb.levels|;
      var q := qrot[..];
      var lut := FillTable(q, cb.levels);
      var projq := Projections(q);
      qr := Query(q, n2, lut, k, projq);
      QueryForm(vec, qr);
    }

    lemma QueryForm(vec: Vec, qr: Query)
      requires Valid()
      requires qr.qrot == rot.Image(vec) && qr.qnorm2 == Dot(qr.qrot, qr.qrot) && qr.k == |cb.levels|
      requires IsTable(qr.qlut, qr.qrot, cb.levels)
      requires |qr.projq| == m && forall j :: 0 <= j < m ==> qr.projq[j] == Dot(proj[j], qr.qrot)
      ensures IsQueryOf(vec, qr)
    {
    }

    method Projections(q: Vec) returns (projq: Vec)
      requires Valid() && |q| == rot.dim
      ensures |projq| == m && forall j :: 0 <= j < m ==> projq[j] == Dot(proj[j], q)
    {
      assert forall j :: 0 <= j < m ==> |proj[j]| == |q|;
      hide Times, Valid, WellFormed;
      var out := new real[m];
      for j := 0 to m
        invariant forall i :: 0 <= i < j ==> out[i] == Dot(proj[i], q)
      {
        out[j] := DotLoop(proj[j], q);
      }
      projq := out[..];
    }

    /** rawMain: one table entry per coordinate. */
    method RawMain(qr: Query, codes: seq<nat>, ghost vec: Vec) returns (main: real)
      requires Valid() && IsQueryOf(vec, qr) && WellFormed(codes)
      ensures main == Dot(qr.qrot, LevelsOf(codes))
    {
      hide Times, IsSqrt, IsRotation, Sorted, Midpoints, Exp2, IsSigns;
      main := SumTable(qr.qlut, qr.qrot, cb.levels, codes);
    }

    method Score(qr: Query, c: Code, ghost vec: Vec) returns (s: real)
      requires Valid() && IsQueryOf(vec, qr) && WellFormed(c.codes)
      ensures s == ScoreOf(rot.Image(vec), c)
    {
      assert qr.qrot == rot.Image(vec);
      hide Times, IsSqrt, Dot, LevelsOf, IsQueryOf, WellFormed, UnitScore;
      var main := RawMain(qr, c.codes, vec);
      s := Times(c.norm, UnitScore(main));
    }
  }

  function Pick(levels: Vec, codes: seq<nat>): (r: Vec)
    requires forall i :: 0 <= i < |codes| ==> codes[i] < |levels|
    ensures |r| == |codes| && forall i :: 0 <= i < |r| ==> r[i] == levels[codes[i]]
  {
    seq(|codes|, i requires 0 <= i < |codes| => levels[codes[i]])
  }

  /** The accumulation loop of rawMain: one table entry per coordinate. */
  method SumTable(lut: Vec, qrot: Vec, levels: Vec, codes: seq<nat>) returns (main: real)
    requires IsTable(lut, qrot, levels) && |codes| == |qrot|
    requires forall i :: 0 <= i < |codes| ==> codes[i] < |levels|
    ensures main == Dot(qrot, Pick(levels, codes))
  {
    ghost var picked := Pick(levels, codes);
    hide *;
    DotToStart(qrot, picked);
    main := 0.0;
    for i := 0 to |codes|
      invariant main == DotTo(qrot, picked, i)
    {
      TableAt(lut, qrot, levels, i, codes[i], picked[i]);
      DotToStep(qrot, picked, i);
      main := main + lut[Slot(i, |levels|, codes[i])];
    }
    DotIsDotTo(qrot, picked);
  }

  lemma CellBelow(bounds: Vec, x: real, c: nat)
    requires IsCell(bounds, x, c)
    ensures c <= |bounds|
  {
  }

  lemma DotIsDotTo(x: Vec, y: Vec)
    requires |x| == |y|
    ensures Dot(x, y) == DotTo(x, y, |x|)
  {
  }

  lemma DotToStart(x: Vec, y: Vec)
    ensures DotTo(x, y, 0) == 0.0
  {
  }

  lemma DotToStep(x: Vec, y: Vec, n: nat)
    requires n < |x| && n < |y|
    ensures DotTo(x, y, n + 1) == DotTo(x, y, n) + Times(x[n], y[n])
  {
  }

  method DotLoop(x: Vec, y: Vec) returns (dot: real)
    requires |x| == |y|
    ensures dot == Dot(x, y)
  {
    hide Times;
    dot := 0.0;
    for i := 0 to |x|
      invariant dot == DotTo(x, y, i)
    {
      dot := dot + Times(x[i], y[i]);
    }
  }

  /** lut is the row-major table of the products of qrot and levels. */
  ghost predicate IsTable(lut: Vec, qrot: Vec, levels: Vec) {
    |lut| == |qrot| * |levels| &&
    forall i, c :: 0 <= i < |qrot| && 0 <= c < |levels| ==>
      Slot(i, |levels|, c) < |lut| && lut[Slot(i, |levels|, c)] == Times(qrot[i], levels[c])
  }

  lemma TableAt(lut: Vec, qrot: Vec, levels: Vec, i: nat, c: nat, level: real)
    requires IsTable(lut, qrot, levels) && i < |qrot| && c < |levels| && level == levels[c]
    ensures Slot(i, |levels|, c) < |lut| && lut[Slot(i, |levels|, c)] == Times(qrot[i], level)
  {
    hide Times, Slot;
  }

  method SumOfSquares(a: array<real>) returns (s: real)
    ensures s == Dot(a[..], a[..])
  {
    hide Times;
    s := 0.0;
    for i := 0 to a.Length
      invariant s == DotTo(a[..], a[..], i)
    {
      s := s + Times(a[i], a[i]);
    }
  }

  /** The flat lookup table: slot (i, c) holds coordinate i times level c. */
  method FillTable(qrot: Vec, levels: Vec) returns (lut: Vec)
    ensures IsTable(lut, qrot, levels)
  {
    var n, k := |qrot|, |levels|;
    var table := new real[n * k];
    hide Times, Slot;
    for i := 0 to n
      invariant forall r, c :: 0 <= r < i && 0 <= c < k ==>
                  Slot(r, k, c) < table.Length && table[Slot(r, k, c)] == Times(qrot[r], levels[c])
    {
      for c := 0 to k
        invariant forall r, d :: 0 <= r <= i && 0 <= d < k && (r < i || d < c) ==>
                    Slot(r, k, d) < table.Length && table[Slot(r, k, d)] == Times(qrot[r], levels[d])
      {
        SlotBelow(i, n, k, c);
        forall r, d | 0 <= r <= i && 0 <= d < k && (r < i || d < c)
          ensures Slot(r, k, d) != Slot(i, k, c)
        {
          SlotDistinct(r, i, k, d, c);
        }
        table[Slot(i, k, c)] := Times(qrot[i], levels[c]);
      }
    }
    lut := table[..];
  }
}
