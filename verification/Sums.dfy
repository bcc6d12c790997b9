/** Finite sums of real-valued functions on 0..n-1. */
module Sums {
  import opened Vectors

  ghost function Sum(f: nat -> real, n: nat): real {
    if n == 0 then 0.0 else Sum(f, n - 1) + f(n - 1)
  }

  lemma {:induction false} SumSame(f: nat -> real, g: nat -> real, n: nat)
    requires forall i :: 0 <= i < n ==> f(i) == g(i)
    ensures Sum(f, n) == Sum(g, n)
  {
    if n > 0 {
      SumSame(f, g, n - 1);
    }
  }

  lemma {:induction false} SumLe(f: nat -> real, g: nat -> real, n: nat)
    requires forall i :: 0 <= i < n ==> f(i) <= g(i)
    ensures Sum(f, n) <= Sum(g, n)
  {
    if n > 0 {
      SumLe(f, g, n - 1);
    }
  }

  lemma {:induction false} SumZero(f: nat -> real, n: nat)
    requires forall i :: 0 <= i < n ==> f(i) == 0.0
    ensures Sum(f, n) == 0.0
  {
    if n > 0 {
      SumZero(f, n - 1);
    }
  }

  lemma {:induction false} SumNonNegative(f: nat -> real, n: nat)
    requires forall i :: 0 <= i < n ==> f(i) >= 0.0
    ensures Sum(f, n) >= 0.0
  {
    if n > 0 {
      SumNonNegative(f, n - 1);
    }
  }

  /** h is f plus g, term by term. */
  lemma {:induction false} SumAdd(f: nat -> real, g: nat -> real, h: nat -> real, n: nat)
    requires forall i :: 0 <= i < n ==> h(i) == f(i) + g(i)
    ensures Sum(h, n) == Sum(f, n) + Sum(g, n)
  {
    if n > 0 {
      SumAdd(f, g, h, n - 1);
    }
  }

  /** g is c times f, term by term. */
  lemma {:induction false} SumScale(c: real, f: nat -> real, g: nat -> real, n: nat)
    requires forall i :: 0 <= i < n ==> g(i) == Times(c, f(i))
    ensures Sum(g, n) == Times(c, Sum(f, n))
  {
    if n > 0 {
      hide Times;
      SumScale(c, f, g, n - 1);
      SumScaleStep(c, Sum(f, n - 1), f(n - 1));
    } else {
      TimesUnit(c);
    }
  }

  lemma SumScaleStep(c: real, x: real, y: real)
    ensures Times(c, x + y) == Times(c, x) + Times(c, y)
  {
  }

  /** f is zero except at k. */
  lemma {:induction false} SumSingle(f: nat -> real, k: nat, n: nat)
    requires forall i :: 0 <= i < n && i != k ==> f(i) == 0.0
    ensures Sum(f, n) == if k < n then f(k) else 0.0
  {
    if n > 0 {
      SumSingle(f, k, n - 1);
    }
  }

  /** A sum without negative terms is positive exactly when one of them is. */
  lemma {:induction false} SumPositive(f: nat -> real, n: nat)
    requires forall i :: 0 <= i < n ==> f(i) >= 0.0
    ensures Sum(f, n) > 0.0 <==> exists i :: 0 <= i < n && f(i) > 0.0
  {
    if n > 0 {
      SumNonNegative(f, n - 1);
      SumPositive(f, n - 1);
    }
  }

  /** f and g differ only at k. */
  lemma {:induction false} SumUpdate(f: nat -> real, g: nat -> real, k: nat, n: nat)
    requires k < n && forall i :: 0 <= i < n && i != k ==> g(i) == f(i)
    ensures Sum(g, n) == Sum(f, n) + g(k) - f(k)
  {
    if k == n - 1 {
      SumSame(f, g, n - 1);
    } else {
      SumUpdate(f, g, k, n - 1);
    }
  }

  lemma {:induction false} SumAbs(f: nat -> real, g: nat -> real, n: nat)
    requires forall i :: 0 <= i < n ==> g(i) == Abs(f(i))
    ensures Abs(Sum(f, n)) <= Sum(g, n)
  {
    if n > 0 {
      SumAbs(f, g, n - 1);
    }
  }

  ghost function RowOf(f: (nat, nat) -> real, i: nat): nat -> real { (j: nat) => f(i, j) }

  ghost function ColOf(f: (nat, nat) -> real, j: nat): nat -> real { (i: nat) => f(i, j) }

  ghost function RowSums(f: (nat, nat) -> real, n: nat): nat -> real { (i: nat) => Sum(RowOf(f, i), n) }

  ghost function ColSums(f: (nat, nat) -> real, m: nat): nat -> real { (j: nat) => Sum(ColOf(f, j), m) }

  /** Row sums and column sums of f over m by n have the same total. */
  lemma {:induction false} SumSwap(f: (nat, nat) -> real, m: nat, n: nat)
    ensures Sum(RowSums(f, n), m) == Sum(ColSums(f, m), n)
  {
    if m == 0 {
      SumZero(ColSums(f, 0), n);
    } else {
      SumSwap(f, m - 1, n);
      SumAdd(ColSums(f, m - 1), RowOf(f, m - 1), ColSums(f, m), n);
    }
  }
}
