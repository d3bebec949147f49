/** Finite sums of reals and the laws that the linear layers need. */
module Sums {
  import opened Arith

  function Sum(n: nat, f: int -> real): real {
    if n == 0 then 0.0 else Sum(n - 1, f) + f(n - 1)
  }

  lemma {:induction false} SumEq(n: nat, f: int -> real, g: int -> real)
    requires forall i :: 0 <= i < n ==> f(i) == g(i)
    ensures Sum(n, f) == Sum(n, g)
  {
    if n > 0 {
      SumEq(n - 1, f, g);
    }
  }

  lemma {:induction false} SumPlus(n: nat, f: int -> real, g: int -> real, h: int -> real)
    requires forall i :: 0 <= i < n ==> h(i) == f(i) + g(i)
    ensures Sum(n, h) == Sum(n, f) + Sum(n, g)
  {
    if n > 0 {
      SumPlus(n - 1, f, g, h);
    }
  }

  lemma Distribute(a: real, x: real, y: real)
    ensures a * (x + y) == a * x + a * y
  {
  }

  lemma {:induction false} SumTimes(n: nat, a: real, f: int -> real, g: int -> real)
    requires forall i :: 0 <= i < n ==> g(i) == a * f(i)
    ensures Sum(n, g) == a * Sum(n, f)
  {
    if n > 0 {
      SumTimes(n - 1, a, f, g);
      Distribute(a, Sum(n - 1, f), f(n - 1));
    }
  }

  lemma {:induction false} SumZero(n: nat, f: int -> real)
    requires forall i :: 0 <= i < n ==> f(i) == 0.0
    ensures Sum(n, f) == 0.0
  {
    if n > 0 {
      SumZero(n - 1, f);
    }
  }

  function Row(f: (int, int) -> real, i: int): int -> real { j => f(i, j) }

  function Col(f: (int, int) -> real, j: int): int -> real { i => f(i, j) }

  function RowSums(f: (int, int) -> real, n: nat): int -> real { i => Sum(n, Row(f, i)) }

  function ColSums(f: (int, int) -> real, m: nat): int -> real { j => Sum(m, Col(f, j)) }

  /** The order of two summations does not matter. */
  lemma {:induction false} SumSwap(m: nat, n: nat, f: (int, int) -> real)
    ensures Sum(m, RowSums(f, n)) == Sum(n, ColSums(f, m))
  {
    if m == 0 {
      SumZero(n, ColSums(f, 0));
    } else {
      SumSwap(m - 1, n, f);
      SumPlus(n, ColSums(f, m - 1), Row(f, m - 1), ColSums(f, m));
    }
  }

  /** The b consecutive values from i * b on. */
  function Digit(f: int -> real, b: nat, i: int): int -> real { j => f(i * b + j) }

  function DigitSums(f: int -> real, b: nat): int -> real { i => Sum(b, Digit(f, b, i)) }

  lemma {:induction false} SumAppend(n: nat, k: nat, f: int -> real, g: int -> real)
    requires forall j :: 0 <= j < k ==> g(j) == f(n + j)
    ensures Sum(n + k, f) == Sum(n, f) + Sum(k, g)
  {
    if k > 0 {
      SumAppend(n, k - 1, f, g);
    }
  }

  /** A sum over a * b indices, digit by digit. */
  lemma {:induction false} SumSplit(a: nat, b: nat, f: int -> real)
    ensures a * b >= 0 && Sum(a * b, f) == Sum(a, DigitSums(f, b))
  {
    if a > 0 {
      MulNonNegative(a - 1, b);
      SumSplit(a - 1, b, f);
      assert a * b == (a - 1) * b + b;
      SumAppend((a - 1) * b, b, f, Digit(f, b, a - 1));
    } else {
      assert a * b == 0;
    }
  }

  /** Changing one term changes the sum by as much. */
  lemma {:induction false} SumBump(n: nat, f: int -> real, g: int -> real, k: int, d: real)
    requires forall i :: 0 <= i < n && i != k ==> g(i) == f(i)
    requires 0 <= k < n ==> g(k) == f(k) + d
    ensures Sum(n, g) == Sum(n, f) + if 0 <= k < n then d else 0.0
  {
    if n > 0 {
      SumBump(n - 1, f, g, k, d);
    }
  }

  function Products(x: seq<real>, y: seq<real>): int -> real {
    i => if 0 <= i < |x| && i < |y| then x[i] * y[i] else 0.0
  }

  /** The inner product of two vectors. */
  function Inner(x: seq<real>, y: seq<real>): real { Sum(|x|, Products(x, y)) }

  lemma InnerAdd(x: seq<real>, y: seq<real>, k: nat, v: real)
    requires |x| == |y| && k < |y|
    ensures Inner(x, y[k := y[k] + v]) == Inner(x, y) + x[k] * v
  {
    Distribute(x[k], y[k], v);
    SumBump(|x|, Products(x, y), Products(x, y[k := y[k] + v]), k, x[k] * v);
  }
}
