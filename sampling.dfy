/** Evenly spaced sample axes, in the two forms the calculators build them:
    numpy's linspace(0, 1, N) stretched onto an interval, and the list
    comprehension lo + (hi - lo) * i / (N - 1). */
module Sampling {
  import opened RealArith

  /** numpy.linspace(0, 1, N): N points from 0 to 1 inclusive; one point is [0]. */
  function Linspace01(N: nat): (xs: seq<real>)
    ensures |xs| == N
    ensures N >= 1 ==> xs[0] == 0.0
    ensures N >= 2 ==> xs[N - 1] == 1.0
  {
    if N == 1 then [0.0]
    else
      var xs := seq(N, i requires 0 <= i < N => (i as real) / ((N - 1) as real));
      assert N >= 2 ==> xs[N - 1] == 1.0 by {
        if N >= 2 {
          var n := (N - 1) as real;
          SelfQuotient(n);
          assert xs[N - 1] == n / n;
        }
      }
      xs
  }

  /** The affine image lo + (hi - lo) * x of every entry. */
  function Stretch(lo: real, hi: real, xs: seq<real>): (ys: seq<real>)
    ensures |ys| == |xs|
    ensures forall i :: 0 <= i < |xs| && xs[i] == 0.0 ==> ys[i] == lo
    ensures forall i :: 0 <= i < |xs| && xs[i] == 1.0 ==> ys[i] == hi
  {
    seq(|xs|, i requires 0 <= i < |xs| => lo + (hi - lo) * xs[i])
  }

  /** N points lo + (hi - lo) * i / (N - 1) for i = 0 .. N - 1. A single point
      divides by zero, so N == 1 is excluded; N == 0 gives no points. */
  function Grid(lo: real, hi: real, N: nat): (g: seq<real>)
    requires N != 1
    ensures |g| == N
    ensures N >= 2 ==> g[0] == lo && g[N - 1] == hi
  {
    var g := seq(N, i requires 0 <= i < N => lo + (hi - lo) * (i as real) / ((N - 1) as real));
    assert N >= 2 ==> g[N - 1] == hi by {
      if N >= 2 {
        var n := (N - 1) as real;
        assert g[N - 1] == lo + (hi - lo) * n / n;
        GridLast(lo, hi, n);
      }
    }
    g
  }

  /** The distance between grid points i and j is (j - i) steps of (hi - lo)/(N - 1). */
  lemma GridEvenlySpaced(lo: real, hi: real, N: nat)
    requires N >= 2
    ensures forall i, j :: 0 <= i < N && 0 <= j < N ==>
      Grid(lo, hi, N)[j] - Grid(lo, hi, N)[i] == ((j - i) as real) * ((hi - lo) / ((N - 1) as real))
  {
    var g := Grid(lo, hi, N);
    var step := (hi - lo) / ((N - 1) as real);
    forall i, j | 0 <= i < N && 0 <= j < N
      ensures g[j] - g[i] == ((j - i) as real) * step
    {
      GridPairSpacing(lo, hi, N, i, j);
    }
  }

  lemma GridPairSpacing(lo: real, hi: real, N: nat, i: nat, j: nat)
    requires N >= 2 && i < N && j < N
    ensures Grid(lo, hi, N)[j] - Grid(lo, hi, N)[i] == ((j - i) as real) * ((hi - lo) / ((N - 1) as real))
  {
    GridPoint(lo, hi, N, i);
    GridPoint(lo, hi, N, j);
    StepsApart(lo, (hi - lo) / ((N - 1) as real), i, j);
  }

  lemma StepsApart(lo: real, step: real, i: int, j: int)
    ensures (lo + (j as real) * step) - (lo + (i as real) * step) == ((j - i) as real) * step
  {
    assert ((j - i) as real) == (j as real) - (i as real);
    assert (j as real) * step - (i as real) * step == ((j as real) - (i as real)) * step;
  }

  /** Grid point i is i steps of (hi - lo)/(N - 1) above lo. */
  lemma GridPoint(lo: real, hi: real, N: nat, i: nat)
    requires N >= 2 && i < N
    ensures Grid(lo, hi, N)[i] == lo + (i as real) * ((hi - lo) / ((N - 1) as real))
  {
    CancelFactor(hi - lo, i as real, (N - 1) as real);
  }

  /** The grid is strictly increasing when lo < hi. */
  lemma GridIncreasing(lo: real, hi: real, N: nat)
    requires N >= 2 && lo < hi
    ensures forall i, j :: 0 <= i < j < N ==> Grid(lo, hi, N)[i] < Grid(lo, hi, N)[j]
  {
    var g := Grid(lo, hi, N);
    var step := (hi - lo) / ((N - 1) as real);
    assert step > 0.0;
    GridEvenlySpaced(lo, hi, N);
    forall i, j | 0 <= i < j < N
      ensures g[i] < g[j]
    {
      assert g[j] - g[i] == ((j - i) as real) * step;
      assert ((j - i) as real) * step > 0.0;
    }
  }

  /** Every grid point lies between lo and hi when lo <= hi. */
  lemma GridWithin(lo: real, hi: real, N: nat)
    requires N >= 2 && lo <= hi
    ensures forall i :: 0 <= i < N ==> lo <= Grid(lo, hi, N)[i] <= hi
  {
    forall i | 0 <= i < N
      ensures lo <= Grid(lo, hi, N)[i] <= hi
    {
      GridPointBetween(lo, hi, N, i);
    }
  }

  lemma GridPointBetween(lo: real, hi: real, N: nat, i: nat)
    requires N >= 2 && i < N && lo <= hi
    ensures lo <= Grid(lo, hi, N)[i] <= hi
  {
    var n := (N - 1) as real;
    GridPointWithin(lo, hi, i as real, n, Grid(lo, hi, N)[i]);
  }

  lemma GridLast(lo: real, hi: real, n: real)
    requires n != 0.0
    ensures lo + (hi - lo) * n / n == hi
  {
    MultiplyDivide(hi - lo, n);
  }

  lemma GridPointWithin(lo: real, hi: real, x: real, n: real, p: real)
    requires lo <= hi && 0.0 <= x <= n && n > 0.0 && p == lo + (hi - lo) * x / n
    ensures lo <= p <= hi
  {
    var t := x / n;
    assert t * n == x;
    assert 0.0 <= t <= 1.0;
    ScaleQuotient(hi - lo, x, n);
    assert p == lo + (hi - lo) * t;
    AffineWithin(lo, hi, t);
  }

  lemma AffineWithin(lo: real, hi: real, t: real)
    requires lo <= hi && 0.0 <= t <= 1.0
    ensures lo <= lo + (hi - lo) * t <= hi
  {
    ProductNonNegative(hi - lo, t);
    ScaleMonotone(hi - lo, t, 1.0);
  }

  /** Stretching linspace(0, 1, N) onto [lo, hi] gives the list-comprehension grid. */
  lemma StretchedLinspaceIsGrid(lo: real, hi: real, N: nat)
    requires N != 1
    ensures Stretch(lo, hi, Linspace01(N)) == Grid(lo, hi, N)
  {
    var a := Stretch(lo, hi, Linspace01(N));
    var b := Grid(lo, hi, N);
    forall i | 0 <= i < N
      ensures a[i] == b[i]
    {
      var x := Linspace01(N)[i];
      assert x == (i as real) / ((N - 1) as real);
      assert a[i] == lo + (hi - lo) * x;
      GridPoint(lo, hi, N, i);
      StretchPoint(lo, hi, i as real, (N - 1) as real, a[i], b[i]);
    }
  }

  lemma StretchPoint(lo: real, hi: real, x: real, n: real, a: real, b: real)
    requires n != 0.0 && a == lo + (hi - lo) * (x / n) && b == lo + x * ((hi - lo) / n)
    ensures a == b
  {
    ScaleQuotient(hi - lo, x, n);
    CancelFactor(hi - lo, x, n);
  }
}
