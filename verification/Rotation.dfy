/** The randomized rotation of quant/rotation.go: sign flips alternating with
    normalized Walsh-Hadamard transforms, and its inverse. */
module Rotations {
  import opened Vectors
  import opened WalshHadamard

  // ---------- the padded dimension ----------

  function Exp2(k: nat): (r: nat)
    ensures r > 0
  {
    if k == 0 then 1 else 2 * Exp2(k - 1)
  }

  /** The number of bits needed to write n (Go's bits.Len). */
  function BitLen(n: nat): nat {
    if n == 0 then 0 else 1 + BitLen(n / 2)
  }

  function NextPow2(n: nat): (p: nat)
    ensures p > 0
  {
    if n <= 1 then 1 else Exp2(BitLen(n - 1))
  }

  lemma {:induction false} BitLenBounds(n: nat)
    requires n > 0
    ensures BitLen(n) > 0 && Exp2(BitLen(n) - 1) <= n < Exp2(BitLen(n))
  {
    if n > 1 {
      BitLenBounds(n / 2);
    } else {
      assert BitLen(1 / 2) == 0;
    }
  }

  lemma {:induction false} Exp2IsPow2(k: nat)
    ensures Pow2(Exp2(k))
  {
    if k > 0 {
      Exp2IsPow2(k - 1);
    }
  }

  lemma {:induction false} Pow2Gap(p: nat, k: nat)
    requires Pow2(p) && Exp2(k) < p
    ensures 2 * Exp2(k) <= p
  {
    Exp2IsPow2(k);
    Pow2Half(p, Exp2(k));
  }

  /** nextPow2 returns the least power of two that is at least n. */
  lemma NextPow2IsLeast(n: nat, p: nat)
    requires Pow2(p) && n <= p
    ensures Pow2(NextPow2(n)) && n <= NextPow2(n) <= p
  {
    if n > 1 {
      BitLenBounds(n - 1);
      var k := BitLen(n - 1);
      Exp2IsPow2(k);
      Pow2Gap(p, k - 1);
    }
  }

  // ---------- one pass and its inverse ----------

  ghost predicate IsSigns(s: Vec, n: nat) {
    |s| == n && forall i :: 0 <= i < n ==> s[i] == 1.0 || s[i] == -1.0
  }

  ghost predicate IsUnit(norm: real, n: nat) {
    norm > 0.0 && norm * norm * n as real == 1.0
  }

  ghost function Pass(norm: real, s: Vec, v: Vec): (r: Vec)
    requires Pow2(|v|) && |s| == |v|
    ensures |r| == |v|
  {
    Scale(norm, Walsh(Mul(v, s)))
  }

  ghost function PassBack(norm: real, s: Vec, v: Vec): (r: Vec)
    requires Pow2(|v|) && |s| == |v|
    ensures |r| == |v|
  {
    Mul(Scale(norm, Walsh(v)), s)
  }

  lemma SignsTwice(v: Vec, s: Vec)
    requires IsSigns(s, |v|)
    ensures Mul(Mul(v, s), s) == v
  {
    forall i | 0 <= i < |v| ensures Mul(Mul(v, s), s)[i] == v[i] {
      FlipTwice(v[i], s[i]);
    }
  }

  lemma FlipTwice(x: real, s: real)
    requires s == 1.0 || s == -1.0
    ensures Times(Times(x, s), s) == x
  {
  }

  lemma UnitStep(norm: real, n: real, x: real)
    requires norm * norm * n == 1.0
    ensures Times(norm, Times(norm, Times(n, x))) == x
  {
    assert norm * (norm * (n * x)) == (norm * norm * n) * x;
  }

  lemma ScaleUnit(norm: real, n: real, v: Vec)
    requires norm * norm * n == 1.0
    ensures Scale(norm, Scale(norm, Scale(n, v))) == v
  {
    forall i | 0 <= i < |v| ensures Scale(norm, Scale(norm, Scale(n, v)))[i] == v[i] {
      UnitStep(norm, n, v[i]);
      hide Times;
    }
  }

  /** The normalized transform is its own inverse. */
  lemma NormalizedTwice(norm: real, v: Vec)
    requires Pow2(|v|) && IsUnit(norm, |v|)
    ensures Scale(norm, Walsh(Scale(norm, Walsh(v)))) == v
  {
    ScaleUnit(norm, |v| as real, v);
    hide *;
    WalshScale(norm, Walsh(v));
    WalshTwice(v);
  }

  lemma NormalizedAdjoint(norm: real, x: Vec, y: Vec)
    requires |x| == |y| && Pow2(|x|)
    ensures Dot(Scale(norm, Walsh(x)), y) == Dot(x, Scale(norm, Walsh(y)))
  {
    hide *;
    DotScale(norm, Walsh(x), y);
    WalshAdjoint(x, y);
    DotScaleRight(norm, x, Walsh(y));
  }

  lemma PassBackPass(norm: real, s: Vec, v: Vec)
    requires Pow2(|v|) && IsUnit(norm, |v|) && IsSigns(s, |v|)
    ensures PassBack(norm, s, Pass(norm, s, v)) == v
  {
    NormalizedTwice(norm, Mul(v, s));
    SignsTwice(v, s);
    hide Times, Walsh, Mul, Scale;
  }

  lemma PassPassBack(norm: real, s: Vec, v: Vec)
    requires Pow2(|v|) && IsUnit(norm, |v|) && IsSigns(s, |v|)
    ensures Pass(norm, s, PassBack(norm, s, v)) == v
  {
    NormalizedTwice(norm, v);
    SignsTwice(Scale(norm, Walsh(v)), s);
    hide Times, Walsh, Mul, Scale;
  }

  lemma PassDot(norm: real, s: Vec, x: Vec, y: Vec)
    requires |x| == |y| && Pow2(|x|) && IsUnit(norm, |x|) && IsSigns(s, |x|)
    ensures Dot(Pass(norm, s, x), Pass(norm, s, y)) == Dot(x, y)
  {
    var a, b := Mul(x, s), Mul(y, s);
    DotMulSigns(x, y, s);
    hide Times, Walsh, Mul, Scale, Dot, IsUnit;
    NormalizedAdjoint(norm, a, Scale(norm, Walsh(b)));
    NormalizedTwice(norm, b);
  }

  // ----- what a pass is for: no coordinate stands out -----

  /** All weight on one coordinate. */
  function Spike(n: nat, j: nat, c: real): (v: Vec)
    ensures |v| == n && forall i :: 0 <= i < n ==> v[i] == if i == j then c else 0.0
  {
    seq(n, i requires 0 <= i < n => if i == j then c else 0.0)
  }

  lemma {:induction false} DotToSpike(r: Vec, j: nat, c: real, n: nat)
    requires n <= |r|
    ensures DotTo(r, Spike(|r|, j, c), n) == if j < n then Times(r[j], c) else 0.0
  {
    if n > 0 {
      DotToSpike(r, j, c, n - 1);
      TimesZero(r[n - 1]);
      hide Times;
    }
  }

  lemma TimesZero(x: real)
    ensures Times(x, 0.0) == 0.0
  {
  }

  lemma {:induction false} SignIsUnit(n: nat, i: nat, j: nat)
    requires Pow2(n) && i < n && j < n
    ensures Sign(n, i, j) == 1.0 || Sign(n, i, j) == -1.0
    decreases n
  {
    if n > 1 {
      var h := n / 2;
      SignIsUnit(h, if i < h then i else i - h, if j < h then j else j - h);
    }
  }

  /** One pass spreads a coordinate evenly: every entry of the result has the size norm. */
  lemma PassSpreads(norm: real, s: Vec, j: nat)
    requires Pow2(|s|) && IsUnit(norm, |s|) && IsSigns(s, |s|) && j < |s|
    ensures forall i :: 0 <= i < |s| ==> Abs(Pass(norm, s, Spike(|s|, j, 1.0))[i]) == norm
  {
    var n := |s|;
    var e := Spike(n, j, 1.0);
    SpikeSigns(s, j);
    forall i | 0 <= i < n ensures Abs(Pass(norm, s, e)[i]) == norm {
      WalshIsMatrix(Mul(e, s), i);
      DotToSpike(Row(n, i), j, s[j], n);
      SignIsUnit(n, i, j);
      SizeIs(norm, Sign(n, i, j), s[j]);
      hide Times, Sign, Mul, Walsh, DotTo;
    }
  }

  lemma SpikeSigns(s: Vec, j: nat)
    ensures j < |s| ==> Mul(Spike(|s|, j, 1.0), s) == Spike(|s|, j, s[j])
  {
    if j < |s| {
      forall i | 0 <= i < |s| ensures Mul(Spike(|s|, j, 1.0), s)[i] == Spike(|s|, j, s[j])[i] {
      }
    }
  }

  lemma SizeIs(norm: real, a: real, b: real)
    requires norm > 0.0 && (a == 1.0 || a == -1.0) && (b == 1.0 || b == -1.0)
    ensures Abs(Times(norm, Times(a, b))) == norm
  {
  }

  // ---------- all passes ----------

  ghost predicate IsRotation(norm: real, signs: seq<Vec>, n: nat) {
    Pow2(n) && IsUnit(norm, n) && forall k :: 0 <= k < |signs| ==> IsSigns(signs[k], n)
  }

  /** The vector after the first k passes. */
  ghost function Forward(norm: real, signs: seq<Vec>, v: Vec, k: nat): (r: Vec)
    requires IsRotation(norm, signs, |v|) && k <= |signs|
    ensures |r| == |v|
  {
    if k == 0 then v else Pass(norm, signs[k - 1], Forward(norm, signs, v, k - 1))
  }

  /** The vector after undoing passes k - 1 down to 0. */
  ghost function Backward(norm: real, signs: seq<Vec>, v: Vec, k: nat): (r: Vec)
    requires IsRotation(norm, signs, |v|) && k <= |signs|
    ensures |r| == |v|
    decreases k
  {
    if k == 0 then v else Backward(norm, signs, PassBack(norm, signs[k - 1], v), k - 1)
  }

  lemma {:induction false} BackwardForward(norm: real, signs: seq<Vec>, v: Vec, k: nat)
    requires IsRotation(norm, signs, |v|) && k <= |signs|
    ensures Backward(norm, signs, Forward(norm, signs, v, k), k) == v
  {
    hide Pass, PassBack;
    if k > 0 {
      PassBackPass(norm, signs[k - 1], Forward(norm, signs, v, k - 1));
      BackwardForward(norm, signs, v, k - 1);
    }
  }

  lemma {:induction false} ForwardBackward(norm: real, signs: seq<Vec>, v: Vec, k: nat)
    requires IsRotation(norm, signs, |v|) && k <= |signs|
    ensures Forward(norm, signs, Backward(norm, signs, v, k), k) == v
    decreases k
  {
    hide Pass, PassBack;
    if k > 0 {
      ForwardBackward(norm, signs, PassBack(norm, signs[k - 1], v), k - 1);
      PassPassBack(norm, signs[k - 1], v);
    }
  }

  lemma {:induction false} ForwardDot(norm: real, signs: seq<Vec>, x: Vec, y: Vec, k: nat)
    requires |x| == |y| && IsRotation(norm, signs, |x|) && k <= |signs|
    ensures Dot(Forward(norm, signs, x, k), Forward(norm, signs, y, k)) == Dot(x, y)
  {
    hide Pass, Dot;
    if k > 0 {
      ForwardDot(norm, signs, x, y, k - 1);
      PassDot(norm, signs[k - 1], Forward(norm, signs, x, k - 1), Forward(norm, signs, y, k - 1));
    }
  }

  method MulInPlace(a: array<real>, s: Vec)
    requires |s| == a.Length
    modifies a
    ensures a[..] == Mul(old(a[..]), s)
  {
    hide Times;
    for i := 0 to a.Length
      invariant forall k :: 0 <= k < i ==> a[k] == Times(old(a[k]), s[k])
      invariant forall k :: i <= k < a.Length ==> a[k] == old(a[k])
    {
      a[i] := Times(a[i], s[i]);
    }
    forall k | 0 <= k < a.Length ensures a[..][k] == Mul(old(a[..]), s)[k] {
      assert old(a[..])[k] == old(a[k]);
    }
  }

  method ScaleInPlace(a: array<real>, c: real)
    modifies a
    ensures a[..] == Scale(c, old(a[..]))
  {
    hide Times;
    for i := 0 to a.Length
      invariant forall k :: 0 <= k < i ==> a[k] == Times(c, old(a[k]))
      invariant forall k :: i <= k < a.Length ==> a[k] == old(a[k])
    {
      a[i] := Times(c, a[i]);
    }
    forall k | 0 <= k < a.Length ensures a[..][k] == Scale(c, old(a[..]))[k] {
      assert old(a[..])[k] == old(a[k]);
    }
  }

  class Rotation {
    const dim: nat // padded dimension, a power of two
    const inDim: nat
    const rounds: nat
    const signs: seq<Vec>
    const norm: real // 1 / sqrt(dim)

    ghost predicate Valid() {
      && dim == NextPow2(inDim) && 0 < inDim <= dim
      && |signs| == rounds && IsRotation(norm, signs, dim)
    }

    /** The rotated image of a vector. */
    ghost function Image(src: Vec): (r: Vec)
      requires Valid()
      ensures |r| == dim
    {
      Forward(norm, signs, Pad(src, dim), rounds)
    }

    /** The vector of the original frame that v is the image of. */
    ghost function Preimage(v: Vec): (r: Vec)
      requires Valid() && |v| == dim
      ensures |r| == dim
    {
      Backward(norm, signs, v, rounds)
    }

    /** The random generator is the function bit from draw position to a bit; norm
        stands for the square root that Apply and applyInverse take of dim. */
    constructor (inDim: nat, rounds: int, bit: (nat, nat) -> bool, norm: real)
      requires inDim > 0
      requires IsUnit(norm, NextPow2(inDim))
      ensures Valid()
      ensures this.inDim == inDim && this.norm == norm
      ensures this.rounds == if rounds <= 0 then 3 else rounds
      ensures forall k, i :: 0 <= k < this.rounds && 0 <= i < dim ==>
                signs[k][i] == if bit(k, i) then -1.0 else 1.0
    {
      var n := NextPow2(inDim);
      var passes := if rounds <= 0 then 3 else rounds;
      var all: seq<Vec> := [];
      for k := 0 to passes
        invariant |all| == k
        invariant forall j :: 0 <= j < k ==>
                    |all[j]| == n && forall i :: 0 <= i < n ==> all[j][i] == if bit(j, i) then -1.0 else 1.0
      {
        var s: Vec := [];
        for i := 0 to n
          invariant |s| == i
          invariant forall m :: 0 <= m < i ==> s[m] == if bit(k, m) then -1.0 else 1.0
        {
          s := s + [if bit(k, i) then -1.0 else 1.0];
        }
        all := all + [s];
      }
      this.dim, this.inDim, this.rounds, this.signs, this.norm := n, inDim, passes, all, norm;
      new;
      var p := SomePow2Above(inDim);
      NextPow2IsLeast(inDim, p);
      assert forall k :: 0 <= k < |signs| ==> IsSigns(signs[k], n);
    }

    method Apply(dst: array<real>, src: Vec)
      requires Valid() && dst.Length == dim
      modifies dst
      ensures dst[..] == Image(src)
    {
      hide Times, Walsh, Mul, Scale, Pow2, IsUnit, NextPow2;
      for i := 0 to dim
        invariant forall k :: 0 <= k < i ==> dst[k] == if k < |src| then src[k] else 0.0
      {
        dst[i] := if i < |src| then src[i] else 0.0;
      }
      assert dst[..] == Pad(src, dim);
      for k := 0 to rounds
        invariant dst[..] == Forward(norm, signs, Pad(src, dim), k)
      {
        MulInPlace(dst, signs[k]);
        Fwht(dst);
        ScaleInPlace(dst, norm);
      }
    }

    method ApplyInverse(v: array<real>)
      requires Valid() && v.Length == dim
      modifies v
      ensures v[..] == Preimage(old(v[..]))
    {
      hide Times, Walsh, Mul, Scale;
      for k := rounds downto 0
        invariant Backward(norm, signs, v[..], k) == Preimage(old(v[..]))
      {
        Fwht(v);
        ScaleInPlace(v, norm);
        MulInPlace(v, signs[k]);
      }
    }
  }

  lemma {:induction false} SomePow2Above(n: nat) returns (p: nat)
    ensures Pow2(p) && n <= p
  {
    if n <= 1 {
      p := 1;
    } else {
      var q := SomePow2Above(n - 1);
      p := 2 * q;
    }
  }

  /** applyInverse undoes Apply, and Apply undoes applyInverse. */
  lemma RotationInverse(r: Rotation, src: Vec, v: Vec)
    requires r.Valid() && |v| == r.dim
    ensures r.Preimage(r.Image(src)) == Pad(src, r.dim)
    ensures r.Image(r.Preimage(v)) == v
  {
    BackwardForward(r.norm, r.signs, Pad(src, r.dim), r.rounds);
    ForwardBackward(r.norm, r.signs, v, r.rounds);
    assert Pad(r.Preimage(v), r.dim) == r.Preimage(v);
  }

  /** Apply preserves every inner product, and so norms and distances. */
  lemma RotationIsometry(r: Rotation, x: Vec, y: Vec)
    requires r.Valid()
    ensures Dot(r.Image(x), r.Image(y)) == Dot(Pad(x, r.dim), Pad(y, r.dim))
  {
    ForwardDot(r.norm, r.signs, Pad(x, r.dim), Pad(y, r.dim), r.rounds);
  }
}
