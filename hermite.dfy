/**
 * lib/capricious/cubic_hermite_spline.rb: a cubic Hermite spline through a
 * table of knots, with gradients chosen by finite differences or by the
 * Fritsch-Carlson style "monotonic" correction, fixed-gradient overrides, and
 * a lazy dirty/recompute lifecycle.
 */
module Hermite {
  import opened Wrappers
  import opened Knots
  import opened Elementary

  // -------------------------------------------------------------- gradients

  /** `finite_difference`: one-sided secants at the ends, the mean of the two adjacent secants inside. */
  function FdGradient(x: seq<real>, y: seq<real>, j: nat): real
    requires Fit(x, y) && j < |x|
  {
    if j == 0 then Secant(x, y, 0)
    else if j == |x| - 1 then Secant(x, y, |x| - 2)
    else (Secant(x, y, j - 1) + Secant(x, y, j)) / 2.0
  }

  /**
   * The starting gradients of `monotonic`: d[0] and d[n-2] at the ends, and
   * inside the secants weighted towards the nearer neighbour.
   */
  function WeightedGradient(x: seq<real>, y: seq<real>, j: nat): real
    requires Fit(x, y) && j < |x|
  {
    if j == 0 then Secant(x, y, 0)
    else if j == |x| - 1 then Secant(x, y, |x| - 2)
    else Weigh(x[j] - x[j - 1], x[j + 1] - x[j], Secant(x, y, j - 1), Secant(x, y, j))
  }

  /**
   * Secants d0 (over an interval of width h1) and d1 (width h) averaged with
   * each weighted by the other's width, so the nearer secant counts more.
   */
  function Weigh(h1: real, h: real, d0: real, d1: real): real
    requires h1 + h > 0.0
  {
    (h * d0 + h1 * d1) / (h1 + h)
  }

  predicate Between(v: real, a: real, b: real)
  {
    (a <= v <= b) || (b <= v <= a)
  }

  /** Every finite-difference gradient lies between the secants of the intervals beside it. */
  lemma FdBetweenSecants(x: seq<real>, y: seq<real>, j: nat)
    requires Fit(x, y) && 0 < j < |x| - 1
    ensures Between(FdGradient(x, y, j), Secant(x, y, j - 1), Secant(x, y, j))
  {
  }

  /** A weighted average with positive weights lies between the values averaged. */
  lemma WeightedMean(p: real, q: real, a: real, b: real)
    requires p > 0.0 && q > 0.0
    ensures Between((p * a + q * b) / (q + p), a, b)
  {
    if a <= b {
      WeightedMeanOrdered(p, q, a, b);
    } else {
      WeightedMeanOrdered(q, p, b, a);
      assert q * b + p * a == p * a + q * b && p + q == q + p;
    }
  }

  lemma WeightedMeanOrdered(p: real, q: real, a: real, b: real)
    requires p > 0.0 && q > 0.0 && a <= b
    ensures a <= (p * a + q * b) / (q + p) <= b
  {
    MulMonotone(a, b, p);
    MulMonotone(a, b, q);
    assert (q + p) * a == p * a + q * a;
    assert (q + p) * b == p * b + q * b;
    DivBounds(p * a + q * b, q + p, a, b);
  }

  /** Each weighted starting gradient of `monotonic` lies between its adjacent secants. */
  lemma WeightedBetweenSecants(x: seq<real>, y: seq<real>, j: nat)
    requires Fit(x, y) && 0 < j < |x| - 1
    ensures Between(WeightedGradient(x, y, j), Secant(x, y, j - 1), Secant(x, y, j))
  {
    WeightedMean(x[j + 1] - x[j], x[j] - x[j - 1], Secant(x, y, j - 1), Secant(x, y, j));
    assert WeightedGradient(x, y, j) == Weigh(x[j] - x[j - 1], x[j + 1] - x[j], Secant(x, y, j - 1), Secant(x, y, j));
  }

  /** On knots that lie on one line, every secant is its slope. */
  lemma SecantOnLine(x: seq<real>, y: seq<real>, a: real, b: real, j: nat)
    requires Fit(x, y) && j + 1 < |x|
    requires forall i :: 0 <= i < |x| ==> y[i] == a * x[i] + b
    ensures Secant(x, y, j) == a
  {
    var h := x[j + 1] - x[j];
    assert y[j + 1] - y[j] == a * h;
    MulDiv(a, h);
  }

  /** On knots that lie on one line, both gradient rules give its slope everywhere. */
  lemma GradientsOnLine(x: seq<real>, y: seq<real>, a: real, b: real, j: nat)
    requires Fit(x, y) && j < |x|
    requires forall i :: 0 <= i < |x| ==> y[i] == a * x[i] + b
    ensures FdGradient(x, y, j) == a && WeightedGradient(x, y, j) == a
  {
    if j == 0 || j == |x| - 1 {
      SecantOnLine(x, y, a, b, if j == 0 then 0 else |x| - 2);
    } else {
      SecantOnLine(x, y, a, b, j - 1);
      SecantOnLine(x, y, a, b, j);
      var h1 := x[j] - x[j - 1];
      var h := x[j + 1] - x[j];
      assert WeightedGradient(x, y, j) == Weigh(h1, h, a, a);
      WeighEqual(h1, h, a);
    }
  }

  /** Two equal secants weigh to themselves. */
  lemma WeighEqual(h1: real, h: real, d: real)
    requires h1 + h > 0.0
    ensures Weigh(h1, h, d, d) == d
  {
    assert h * d + h1 * d == d * (h1 + h);
    MulDiv(d, h1 + h);
  }

  // ------------------------------------------------------ gradient loops

  /** `finite_difference`: a fresh gradient array filled end, interior, end. */
  method FiniteDifference(x: seq<real>, y: seq<real>) returns (m: array<real>)
    requires Fit(x, y)
    ensures fresh(m) && m.Length == |x|
    ensures forall j :: 0 <= j < |x| ==> m[j] == FdGradient(x, y, j)
  {
    var n := |x|;
    m := new real[n](_ => 0.0);
    m[0] := (y[1] - y[0]) / (x[1] - x[0]);
    for j := 1 to n - 1
      invariant m[0] == FdGradient(x, y, 0)
      invariant forall i :: 1 <= i < j ==> m[i] == FdGradient(x, y, i)
    {
      var g0 := (y[j] - y[j - 1]) / (x[j] - x[j - 1]);
      var g1 := (y[j + 1] - y[j]) / (x[j + 1] - x[j]);
      m[j] := (g0 + g1) / 2.0;
    }
    m[n - 1] := (y[n - 1] - y[n - 2]) / (x[n - 1] - x[n - 2]);
  }

  /** The secants `d` of `monotonic`, one per interval. */
  method Secants(x: seq<real>, y: seq<real>) returns (d: seq<real>)
    requires Fit(x, y)
    ensures |d| == |x| - 1 && forall j :: 0 <= j < |d| ==> d[j] == Secant(x, y, j)
  {
    var a := new real[|x| - 1](_ => 0.0);
    for j := 0 to |x| - 1
      invariant forall i :: 0 <= i < j ==> a[i] == Secant(x, y, i)
    {
      a[j] := (y[j + 1] - y[j]) / (x[j + 1] - x[j]);
    }
    d := a[..];
  }

  /** The starting gradients of `monotonic`, in a fresh array. */
  method WeightedSecants(x: seq<real>, y: seq<real>, d: seq<real>) returns (m: array<real>)
    requires Fit(x, y) && |d| == |x| - 1 && forall j :: 0 <= j < |d| ==> d[j] == Secant(x, y, j)
    ensures fresh(m) && m.Length == |x|
    ensures forall j :: 0 <= j < |x| ==> m[j] == WeightedGradient(x, y, j)
  {
    var n := |x|;
    m := new real[n](_ => 0.0);
    m[0] := d[0];
    m[n - 1] := d[n - 2];
    for j := 1 to n - 1
      invariant m[0] == WeightedGradient(x, y, 0) && m[n - 1] == WeightedGradient(x, y, n - 1)
      invariant forall i :: 1 <= i < j ==> m[i] == WeightedGradient(x, y, i)
    {
      var h1 := x[j] - x[j - 1];
      var h := x[j + 1] - x[j];
      m[j] := Weigh(h1, h, d[j - 1], d[j]);
    }
  }

  /** The gradient `fixed_gradients` gives knot x, if any, else g. */
  function FixedOr(fg: seq<(real, real)>, x: real, g: real): real
  {
    if Lookup(fg, x).Some? then Lookup(fg, x).value else g
  }

  /** The override loop of `recompute`: each knot with a fixed gradient takes it. */
  method ApplyFixed(m: array<real>, x: seq<real>, fg: seq<(real, real)>)
    requires m.Length == |x|
    modifies m
    ensures forall j :: 0 <= j < |x| ==> m[j] == FixedOr(fg, x[j], old(m[j]))
  {
    for j := 0 to m.Length
      invariant forall i :: 0 <= i < j ==> m[i] == FixedOr(fg, x[i], old(m[i]))
      invariant forall i :: j <= i < m.Length ==> m[i] == old(m[i])
    {
      if Lookup(fg, x[j]).Some? {
        m[j] := Lookup(fg, x[j]).value;
      }
    }
  }

  // ------------------------------------------------------ monotone sweep

  /** `delta.abs < eps`: the interval is treated as flat. */
  predicate Flat(delta: real, eps: real)
  {
    -eps < delta < eps
  }

  /**
   * The ratio bounds of the sweep: both end gradients over the secant are
   * non-negative, and each is at most 3 (non-strict) or their squares sum to
   * at most 9 (strict).
   */
  predicate Tame(m0: real, m1: real, delta: real, strict: bool)
    requires delta != 0.0
  {
    var a := m0 / delta;
    var b := m1 / delta;
    a >= 0.0 && b >= 0.0 && if strict then a * a + b * b <= 9.0 else a <= 3.0 && b <= 3.0
  }

  /** What the sweep leaves on one interval: zero gradients if flat, tame ones otherwise. */
  predicate Settled(m0: real, m1: real, delta: real, eps: real, strict: bool)
  {
    if Flat(delta, eps) then m0 == 0.0 && m1 == 0.0
    else delta != 0.0 && Tame(m0, m1, delta, strict)
  }

  /** w is v pulled towards zero: zero, or of the same sign and no larger in size. */
  predicate Shrunk(v: real, w: real)
  {
    w == 0.0 || 0.0 < w <= v || v <= w < 0.0
  }

  /** The gradients at the two ends of one interval. */
  datatype Ends = Ends(lo: real, hi: real)

  /**
   * One pass of the correction loop over the interval whose secant is delta
   * and whose end gradients are m0 and m1: both become zero on a flat
   * interval, otherwise they are corrected by their ratios to the secant.
   */
  function StepOf(m0: real, m1: real, delta: real, eps: real, strict: bool, sqrt: real -> real): Ends
    requires eps > 0.0 && SqrtLaw(sqrt)
  {
    if Flat(delta, eps) then Ends(0.0, 0.0)
    else Corrected(m0, m1, delta, m0 / delta, m1 / delta, strict, sqrt)
  }

  /**
   * The correction by the ratios a = m0/delta and b = m1/delta: both
   * gradients become zero when either ratio is negative; otherwise the strict
   * method rescales them and the plain one clamps each ratio to 3.
   */
  function Corrected(m0: real, m1: real, delta: real, a: real, b: real, strict: bool, sqrt: real -> real): Ends
    requires SqrtLaw(sqrt)
  {
    if a < 0.0 || b < 0.0 then Ends(0.0, 0.0)
    else if strict then Rescaled(m0, m1, delta, a, b, sqrt)
    else Ends(Clamped(m0, delta, a), Clamped(m1, delta, b))
  }

  /** The strict branch: when a^2 + b^2 exceeds 9, both gradients scale by tau = 3/sqrt(a^2 + b^2). */
  function Rescaled(m0: real, m1: real, delta: real, a: real, b: real, sqrt: real -> real): Ends
    requires SqrtLaw(sqrt)
  {
    var z := a * a + b * b;
    if z > 9.0 then
      SqrtAboveThree(sqrt, z);
      var tau := 3.0 / sqrt(z);
      Ends(tau * delta * a, tau * delta * b)
    else Ends(m0, m1)
  }

  /** The plain branch: a ratio above 3 makes the gradient exactly 3 times the secant. */
  function Clamped(v: real, delta: real, a: real): real
  {
    if a > 3.0 then 3.0 * delta else v
  }

  /** The gradients once the correction loop has passed over the first k intervals, in order. */
  function SweepUpTo(m: seq<real>, d: seq<real>, eps: real, strict: bool, sqrt: real -> real, k: nat): (r: seq<real>)
    requires |m| == |d| + 1 && k <= |d| && eps > 0.0 && SqrtLaw(sqrt)
    ensures |r| == |m|
    decreases k
  {
    if k == 0 then m
    else
      var p := SweepUpTo(m, d, eps, strict, sqrt, k - 1);
      var e := StepOf(p[k - 1], p[k], d[k - 1], eps, strict, sqrt);
      p[k - 1 := e.lo][k := e.hi]
  }

  /** The gradients the whole correction loop leaves. */
  function SweepOf(m: seq<real>, d: seq<real>, eps: real, strict: bool, sqrt: real -> real): (r: seq<real>)
    requires |m| == |d| + 1 && eps > 0.0 && SqrtLaw(sqrt)
    ensures |r| == |m|
  {
    SweepUpTo(m, d, eps, strict, sqrt, |d|)
  }

  /**
   * One step settles its interval and only pulls its two gradients towards
   * zero.
   */
  lemma StepSettles(m0: real, m1: real, delta: real, eps: real, strict: bool, sqrt: real -> real)
    requires eps > 0.0 && SqrtLaw(sqrt)
    ensures var e := StepOf(m0, m1, delta, eps, strict, sqrt);
            Settled(e.lo, e.hi, delta, eps, strict) && Shrunk(m0, e.lo) && Shrunk(m1, e.hi)
  {
    if !Flat(delta, eps) {
      var a := m0 / delta;
      var b := m1 / delta;
      if a >= 0.0 && b >= 0.0 {
        if strict {
          RescaleSettles(m0, m1, delta, a, b, sqrt);
        } else {
          ClampRatios(m0, m1, delta, a, b);
        }
      }
    }
  }

  lemma RescaledAbove(m0: real, m1: real, delta: real, a: real, b: real, sqrt: real -> real)
    requires SqrtLaw(sqrt) && a * a + b * b > 9.0
    ensures var tau := 3.0 / sqrt(a * a + b * b);
            Rescaled(m0, m1, delta, a, b, sqrt) == Ends(tau * delta * a, tau * delta * b)
  {
  }

  lemma RescaleSettles(m0: real, m1: real, delta: real, a: real, b: real, sqrt: real -> real)
    requires delta != 0.0 && a == m0 / delta && b == m1 / delta && a >= 0.0 && b >= 0.0 && SqrtLaw(sqrt)
    ensures var e := Rescaled(m0, m1, delta, a, b, sqrt);
            Tame(e.lo, e.hi, delta, true) && Shrunk(m0, e.lo) && Shrunk(m1, e.hi)
  {
    var e := Rescaled(m0, m1, delta, a, b, sqrt);
    var z := a * a + b * b;
    if z > 9.0 {
      SqrtAboveThree(sqrt, z);
      RescaledAbove(m0, m1, delta, a, b, sqrt);
      StrictRescale(m0, m1, delta, a, b, z, sqrt(z), 3.0 / sqrt(z), e.lo, e.hi);
    } else {
      assert e == Ends(m0, m1);
      RatiosTame(m0, m1, delta, a, b, true);
    }
  }


  /**
   * After the first k steps, those k intervals are settled, every gradient
   * has only been pulled towards zero, and the gradients past knot k are
   * untouched.
   */
  lemma {:induction false} SweepUpToSettles(m: seq<real>, d: seq<real>, eps: real, strict: bool, sqrt: real -> real, k: nat)
    requires |m| == |d| + 1 && k <= |d| && eps > 0.0 && SqrtLaw(sqrt)
    ensures var r := SweepUpTo(m, d, eps, strict, sqrt, k);
            && (forall j :: 0 <= j < k ==> Settled(r[j], r[j + 1], d[j], eps, strict))
            && (forall i :: 0 <= i < |m| ==> Shrunk(m[i], r[i]))
            && (forall i :: k < i < |m| ==> r[i] == m[i])
  {
    if k > 0 {
      SweepUpToSettles(m, d, eps, strict, sqrt, k - 1);
      var p := SweepUpTo(m, d, eps, strict, sqrt, k - 1);
      var e := StepOf(p[k - 1], p[k], d[k - 1], eps, strict, sqrt);
      var r := SweepUpTo(m, d, eps, strict, sqrt, k);
      assert r == p[k - 1 := e.lo][k := e.hi];
      StepSettles(p[k - 1], p[k], d[k - 1], eps, strict, sqrt);
      ShrunkTwice(m[k - 1], p[k - 1], e.lo);
      ShrunkTwice(m[k], p[k], e.hi);
      if k > 1 {
        KeepSettled(p[k - 2], p[k - 1], e.lo, d[k - 2], eps, strict);
      }
    }
  }

  /**
   * What the correction loop promises: every interval settled, and no
   * gradient changed in sign or grown.
   */
  lemma SweepSettles(m: seq<real>, d: seq<real>, eps: real, strict: bool, sqrt: real -> real)
    requires |m| == |d| + 1 && eps > 0.0 && SqrtLaw(sqrt)
    ensures var r := SweepOf(m, d, eps, strict, sqrt);
            && (forall j :: 0 <= j < |d| ==> Settled(r[j], r[j + 1], d[j], eps, strict))
            && (forall i :: 0 <= i < |m| ==> Shrunk(m[i], r[i]))
  {
    SweepUpToSettles(m, d, eps, strict, sqrt, |d|);
  }

  /** The correction loop of `monotonic` over the gradients m and the secants d. */
  method MonotoneSweep(m: array<real>, d: seq<real>, eps: real, strict: bool, sqrt: real -> real)
    requires m.Length == |d| + 1 && eps > 0.0 && SqrtLaw(sqrt)
    modifies m
    ensures m[..] == SweepOf(old(m[..]), d, eps, strict, sqrt)
  {
    var j := 0;
    while j < |d|
      invariant 0 <= j <= |d|
      invariant m[..] == SweepUpTo(old(m[..]), d, eps, strict, sqrt, j)
    {
      ghost var before := m[..];
      SweepStep(m, d[j], j, eps, strict, sqrt);
      ghost var e := StepOf(before[j], before[j + 1], d[j], eps, strict, sqrt);
      assert m[..] == before[j := e.lo][j + 1 := e.hi];
      j := j + 1;
    }
  }

  /** The body of the correction loop for interval j, whose secant is delta. */
  method SweepStep(m: array<real>, delta: real, j: nat, eps: real, strict: bool, sqrt: real -> real)
    requires j + 1 < m.Length && eps > 0.0 && SqrtLaw(sqrt)
    modifies m
    ensures m[j] == StepOf(old(m[j]), old(m[j + 1]), delta, eps, strict, sqrt).lo
    ensures m[j + 1] == StepOf(old(m[j]), old(m[j + 1]), delta, eps, strict, sqrt).hi
    ensures forall i :: 0 <= i < m.Length && i != j && i != j + 1 ==> m[i] == old(m[i])
  {
    var lo, hi := m[j], m[j + 1];
    if -eps < delta < eps {
      lo, hi := 0.0, 0.0;
    } else {
      lo, hi := CorrectStep(lo, hi, delta, strict, sqrt);
    }
    m[j], m[j + 1] := lo, hi;
  }

  /** The non-flat part of the loop body, on the two end gradients of the interval. */
  method CorrectStep(m0: real, m1: real, delta: real, strict: bool, sqrt: real -> real) returns (lo: real, hi: real)
    requires delta != 0.0 && SqrtLaw(sqrt)
    ensures Ends(lo, hi) == Corrected(m0, m1, delta, m0 / delta, m1 / delta, strict, sqrt)
  {
    lo, hi := m0, m1;
    var a := m0 / delta;
    var b := m1 / delta;
    if a < 0.0 || b < 0.0 {
      return 0.0, 0.0;
    }
    if strict {
      var z := a * a + b * b;
      if z > 9.0 {
        SqrtAboveThree(sqrt, z);
        var tau := 3.0 / sqrt(z);
        RescaledAbove(m0, m1, delta, a, b, sqrt);
        lo := tau * delta * a;
        hi := tau * delta * b;
      }
    } else {
      if a > 3.0 {
        lo := 3.0 * delta;
      }
      if b > 3.0 {
        hi := 3.0 * delta;
      }
    }
  }

  lemma ShrunkTwice(u: real, v: real, w: real)
    requires Shrunk(u, v) && Shrunk(v, w)
    ensures Shrunk(u, w)
  {
  }

  /** Ratios already within the bounds leave the interval tame as it is. */
  lemma RatiosTame(m0: real, m1: real, delta: real, a: real, b: real, strict: bool)
    requires delta != 0.0 && a == m0 / delta && b == m1 / delta && a >= 0.0 && b >= 0.0
    requires if strict then a * a + b * b <= 9.0 else a <= 3.0 && b <= 3.0
    ensures Tame(m0, m1, delta, strict)
  {
  }

  /**
   * The non-strict branch: a ratio above 3 becomes exactly 3, which pulls its
   * gradient towards zero, and the interval ends up tame.
   */
  lemma ClampRatios(m0: real, m1: real, delta: real, a: real, b: real)
    requires delta != 0.0 && a == m0 / delta && b == m1 / delta && a >= 0.0 && b >= 0.0
    ensures var w0 := Clamped(m0, delta, a);
            var w1 := Clamped(m1, delta, b);
            Tame(w0, w1, delta, false) && Shrunk(m0, w0) && Shrunk(m1, w1)
  {
    ClampOne(m0, delta, a);
    ClampOne(m1, delta, b);
  }

  lemma ClampOne(v: real, delta: real, a: real)
    requires delta != 0.0 && a == v / delta && a >= 0.0
    ensures var w := Clamped(v, delta, a);
            0.0 <= w / delta <= 3.0 || a <= 3.0
    ensures var w := Clamped(v, delta, a);
            w / delta == (if a > 3.0 then 3.0 else a) && Shrunk(v, w)
  {
    assert v == a * delta;
    if a > 3.0 {
      MulDiv(3.0, delta);
      if delta > 0.0 {
        MulMonotone(3.0, a, delta);
      } else {
        MulMonotone(3.0, a, -delta);
      }
    }
  }

  /**
   * The strict branch: with z = a^2 + b^2 > 9 and r = sqrt(z), scaling both
   * gradients by tau = 3/r < 1 brings the sum of squared ratios to exactly 9.
   */
  lemma StrictRescale(m0: real, m1: real, delta: real, a: real, b: real, z: real, r: real, tau: real, w0: real, w1: real)
    requires delta != 0.0 && a == m0 / delta && b == m1 / delta && a >= 0.0 && b >= 0.0
    requires z == a * a + b * b && z > 9.0 && r * r == z && r > 3.0 && tau == 3.0 / r
    requires w0 == tau * delta * a && w1 == tau * delta * b
    ensures Tame(w0, w1, delta, true) && Shrunk(m0, w0) && Shrunk(m1, w1)
  {
    assert 0.0 < tau < 1.0 by {
      assert tau * r == 3.0;
    }
    ScaledRatio(delta, a, tau);
    ScaledRatio(delta, b, tau);
    assert tau * tau * z == 9.0 by {
      assert tau * r == 3.0;
      assert tau * tau * (r * r) == (tau * r) * (tau * r);
    }
    assert (tau * a) * (tau * a) + (tau * b) * (tau * b) == tau * tau * z;
    ScaleShrinks(m0, delta, a, tau);
    ScaleShrinks(m1, delta, b, tau);
  }

  lemma ScaledRatio(delta: real, a: real, tau: real)
    requires delta != 0.0
    ensures tau * delta * a / delta == tau * a
  {
    assert tau * delta * a == (tau * a) * delta;
    MulDiv(tau * a, delta);
  }

  lemma ScaleShrinks(v: real, delta: real, a: real, tau: real)
    requires delta != 0.0 && a == v / delta && a >= 0.0 && 0.0 < tau < 1.0
    ensures Shrunk(v, tau * delta * a)
  {
    assert v == a * delta;
    assert tau * delta * a == tau * v;
    if v > 0.0 {
      MulMonotone(tau, 1.0, v);
    } else if v < 0.0 {
      MulMonotone(tau, 1.0, -v);
    }
  }

  /** Shrinking the shared gradient of the next interval keeps the previous interval settled. */
  lemma KeepSettled(m0: real, v: real, w: real, delta: real, eps: real, strict: bool)
    requires Settled(m0, v, delta, eps, strict) && Shrunk(v, w)
    ensures Settled(m0, w, delta, eps, strict)
  {
    if !Flat(delta, eps) {
      ShrunkRatio(v, w, delta);
      var a, b, c := m0 / delta, v / delta, w / delta;
      if strict {
        MulMonotone(c, b, c);
        MulMonotone(c, b, b);
        assert c * c <= b * b;
      }
    }
  }

  /** The ratio of a shrunk gradient to a secant stays between zero and the old ratio. */
  lemma ShrunkRatio(v: real, w: real, delta: real)
    requires delta != 0.0 && v / delta >= 0.0 && Shrunk(v, w)
    ensures 0.0 <= w / delta <= v / delta
  {
    if w != 0.0 {
      if delta > 0.0 {
        DivMonotone(w, v, delta);
      } else {
        NegativeSecant(v, delta);
        DivMonotone(v, w, -delta);
        assert v / delta == -(v / -delta) && w / delta == -(w / -delta);
      }
    }
  }

  lemma NegativeSecant(v: real, delta: real)
    requires delta < 0.0 && v / delta >= 0.0
    ensures v <= 0.0
  {
    assert v / delta == -(v / -delta);
  }

  lemma DivMonotone(p: real, q: real, c: real)
    requires c > 0.0 && p <= q
    ensures p / c <= q / c
  {
    assert p == c * (p / c) && q == c * (q / c);
    MulCancel(p / c, q / c, c);
  }

  // ------------------------------------------------------- Hermite basis

  /**
   * The cubic on one interval of width h at local coordinate t, from the end
   * values y0, y1 and gradients m0, m1 (`q`). It passes through both ends.
   */
  function Cubic(t: real, h: real, y0: real, m0: real, y1: real, m1: real): (r: real)
    ensures t == 0.0 ==> r == y0
    ensures t == 1.0 ==> r == y1
  {
    (2.0 * t * t * t - 3.0 * t * t + 1.0) * y0 + (t * t * t - 2.0 * t * t + t) * h * m0
      + (3.0 * t * t - 2.0 * t * t * t) * y1 + (t * t * t - t * t) * h * m1
  }

  /** Its slope in x (`qp`), which is m0 and m1 at the two ends. */
  function CubicP(t: real, h: real, y0: real, m0: real, y1: real, m1: real): (r: real)
    requires h != 0.0
    ensures t == 0.0 ==> r == m0
    ensures t == 1.0 ==> r == m1
  {
    var r := ((6.0 * t * t - 6.0 * t) * y0 + (3.0 * t * t - 4.0 * t + 1.0) * h * m0
              + (6.0 * t - 6.0 * t * t) * y1 + (3.0 * t * t - 2.0 * t) * h * m1) / h;
    assert t == 0.0 ==> r == h * m0 / h;
    assert t == 1.0 ==> r == h * m1 / h;
    r
  }

  /** Its second derivative in x (`qpp`); the division by h squared is written as two divisions by h. */
  function CubicPP(t: real, h: real, y0: real, m0: real, y1: real, m1: real): real
    requires h != 0.0
  {
    CurvatureNumerator(t, h, y0, m0, y1, m1) / h / h
  }

  function CurvatureNumerator(t: real, h: real, y0: real, m0: real, y1: real, m1: real): real
  {
    (12.0 * t - 6.0) * y0 + (6.0 * t - 4.0) * h * m0 + (6.0 - 12.0 * t) * y1 + (6.0 * t - 2.0) * h * m1
  }

  /** The second derivative moves linearly from one end of the interval to the other. */
  lemma CubicPPLinear(t: real, h: real, y0: real, m0: real, y1: real, m1: real)
    requires h != 0.0
    ensures CubicPP(t, h, y0, m0, y1, m1)
            == (1.0 - t) * CubicPP(0.0, h, y0, m0, y1, m1) + t * CubicPP(1.0, h, y0, m0, y1, m1)
  {
    NumeratorLinear(t, h, y0, m0, y1, m1);
    DivBlendTwice(t, CurvatureNumerator(0.0, h, y0, m0, y1, m1), CurvatureNumerator(1.0, h, y0, m0, y1, m1),
                  CurvatureNumerator(t, h, y0, m0, y1, m1), h);
  }

  lemma NumeratorLinear(t: real, h: real, y0: real, m0: real, y1: real, m1: real)
    ensures CurvatureNumerator(t, h, y0, m0, y1, m1)
            == (1.0 - t) * CurvatureNumerator(0.0, h, y0, m0, y1, m1) + t * CurvatureNumerator(1.0, h, y0, m0, y1, m1)
  {
  }

  lemma DivBlendTwice(t: real, n0: real, n1: real, nt: real, h: real)
    requires h != 0.0 && nt == (1.0 - t) * n0 + t * n1
    ensures nt / h / h == (1.0 - t) * (n0 / h / h) + t * (n1 / h / h)
  {
    DivBlend(t, n0, n1, h);
    DivBlend(t, n0 / h, n1 / h, h);
  }

  lemma DivBlend(t: real, a: real, b: real, d: real)
    requires d != 0.0
    ensures ((1.0 - t) * a + t * b) / d == (1.0 - t) * (a / d) + t * (b / d)
  {
    var p, q := a / d, b / d;
    assert a == p * d && b == q * d;
    assert (1.0 - t) * a + t * b == ((1.0 - t) * p + t * q) * d;
    MulDiv((1.0 - t) * p + t * q, d);
  }

  /** With both gradients equal to the chord slope s, the cubic is that straight line. */
  lemma CubicOnLine(t: real, h: real, y0: real, s: real)
    requires h != 0.0
    ensures Cubic(t, h, y0, s, y0 + s * h, s) == y0 + s * h * t
    ensures CubicP(t, h, y0, s, y0 + s * h, s) == s
  {
    var n := (6.0 * t * t - 6.0 * t) * y0 + (3.0 * t * t - 4.0 * t + 1.0) * h * s
             + (6.0 * t - 6.0 * t * t) * (y0 + s * h) + (3.0 * t * t - 2.0 * t) * h * s;
    assert n == s * h;
    MulDiv(s, h);
  }

  /** The interval `find` settles on, and the local coordinate of pt in it. */
  function Coordinate(x: seq<real>, pt: real): (r: (nat, real, real))
    requires |x| >= 2 && StrictlyIncreasing(x)
    ensures r.0 == Locate(x, pt) && r.2 == x[r.0 + 1] - x[r.0] && r.2 > 0.0
    ensures r.1 == (pt - x[r.0]) / r.2
  {
    var j := Locate(x, pt);
    (j, (pt - x[j]) / (x[j + 1] - x[j]), x[j + 1] - x[j])
  }

  /** `q(pt)` on a fitted spline. */
  function QOf(x: seq<real>, y: seq<real>, m: seq<real>, pt: real): real
    requires Fitted(x, y, m)
  {
    var (j, t, h) := Coordinate(x, pt);
    Cubic(t, h, y[j], m[j], y[j + 1], m[j + 1])
  }

  /** `qp(pt)` on a fitted spline. */
  function QpOf(x: seq<real>, y: seq<real>, m: seq<real>, pt: real): real
    requires Fitted(x, y, m)
  {
    var (j, t, h) := Coordinate(x, pt);
    CubicP(t, h, y[j], m[j], y[j + 1], m[j + 1])
  }

  /** `qpp(pt)` on a fitted spline. */
  function QppOf(x: seq<real>, y: seq<real>, m: seq<real>, pt: real): real
    requires Fitted(x, y, m)
  {
    var (j, t, h) := Coordinate(x, pt);
    CubicPP(t, h, y[j], m[j], y[j + 1], m[j + 1])
  }

  /** The three queries read the cubic of the interval `find` returns. */
  lemma QueriesAt(x: seq<real>, y: seq<real>, m: seq<real>, pt: real, j: nat, t: real, h: real)
    requires Fitted(x, y, m) && (j, t, h) == Coordinate(x, pt)
    ensures j + 1 < |x| && h != 0.0
    ensures QOf(x, y, m, pt) == Cubic(t, h, y[j], m[j], y[j + 1], m[j + 1])
    ensures QpOf(x, y, m, pt) == CubicP(t, h, y[j], m[j], y[j + 1], m[j + 1])
    ensures QppOf(x, y, m, pt) == CubicPP(t, h, y[j], m[j], y[j + 1], m[j + 1])
  {
  }

  /** The spline passes through every knot and has the knot's gradient there. */
  lemma QAtKnot(x: seq<real>, y: seq<real>, m: seq<real>, k: nat)
    requires Fitted(x, y, m) && k < |x|
    ensures QOf(x, y, m, x[k]) == y[k]
    ensures QpOf(x, y, m, x[k]) == m[k]
  {
    LocateAtKnot(x, k);
    var (j, t, h) := Coordinate(x, x[k]);
    if k == |x| - 1 {
      MulDiv(1.0, h);
      assert t == 1.0 * h / h;
    } else {
      assert t == 0.0;
    }
  }

  /** Inside the domain, the local coordinate lies in [0, 1]. */
  lemma CoordinateInUnit(x: seq<real>, pt: real)
    requires |x| >= 2 && StrictlyIncreasing(x) && x[0] <= pt <= x[|x| - 1]
    ensures 0.0 <= Coordinate(x, pt).1 <= 1.0
  {
    LocateBrackets(x, pt);
    var (j, t, h) := Coordinate(x, pt);
    DivBounds(pt - x[j], h, 0.0, 1.0);
  }

  // ------------------------------------------------------------ arguments

  const FiniteDifferenceMethod: string := "finite_difference"
  const MonotonicMethod: string := "monotonic"
  const StrictMonotonicMethod: string := "strict_monotonic"

  /** `:fixed_gradients`, once coerced to a float-to-float table, or as given when coercion failed. */
  datatype Gradients = Coerced(table: seq<(real, real)>) | Raw(raw: Value)

  /** `@args` */
  datatype Args = Args(data: Value, gradientMethod: Value, strictDomain: Value,
                       monotonicEpsilon: Value, fixedGradients: Gradients)

  /** The argument Hash given to `configure`: each key present or absent. */
  datatype Config = Config(data: Option<Value>, gradientMethod: Option<Value>, strictDomain: Option<Value>,
                           monotonicEpsilon: Option<Value>, fixedGradients: Option<Value>)

  /** The arguments `reset` installs. */
  function Defaults(): Args
  {
    Args(Nil, Str(FiniteDifferenceMethod), Bool(true), Float(0.000001), Coerced([]))
  }

  /** `@args.merge!(args)`: every key given replaces the stored one. */
  function Merge(a: Args, c: Config): (r: Args)
    ensures c.data.None? ==> r.data == a.data
    ensures c.fixedGradients.None? ==> r.fixedGradients == a.fixedGradients
    ensures c.fixedGradients.Some? ==> r.fixedGradients == Raw(c.fixedGradients.value)
  {
    Args(if c.data.Some? then c.data.value else a.data,
         if c.gradientMethod.Some? then c.gradientMethod.value else a.gradientMethod,
         if c.strictDomain.Some? then c.strictDomain.value else a.strictDomain,
         if c.monotonicEpsilon.Some? then c.monotonicEpsilon.value else a.monotonicEpsilon,
         if c.fixedGradients.Some? then Raw(c.fixedGradients.value) else a.fixedGradients)
  }

  /** Values given in a configuration hold no infinite Float. */
  predicate FiniteConfig(c: Config)
  {
    (c.data.Some? ==> Finite(c.data.value)) && (c.fixedGradients.Some? ==> Finite(c.fixedGradients.value))
  }

  /** The block parameters `|x, y|` bound to one element: an Array spreads, anything else is x alone. */
  function Destructure(e: Value): (Value, Value)
  {
    if e.Arr? then (if |e.elems| > 0 then e.elems[0] else Nil, if |e.elems| > 1 then e.elems[1] else Nil)
    else (e, Nil)
  }

  /**
   * `@args[:fixed_gradients].to_a.each { |x,y| t[x.to_f] = y.to_f }`, any
   * failure reported as ArgumentError.
   */
  function CoerceGradients(v: Value): (r: Result<seq<(real, real)>>)
    requires Finite(v)
    ensures r.Err? ==> r.error == ArgumentError
    ensures r.Ok? ==> DistinctKeys(r.value)
    ensures v.Nil? ==> r == Ok([])
    ensures v.Bool? || v.Int? || v.Float? || v.Str? ==> r == Err(ArgumentError)
  {
    match ToA(v)
    case None => Err(ArgumentError)
    case Some(es) =>
      ElementsFinite(v);
      var rows := seq(|es|, i requires 0 <= i < |es| => Destructure(es[i]));
      assert forall i :: 0 <= i < |rows| ==> !rows[i].0.Infinity? && !rows[i].1.Infinity? by {
        forall i | 0 <= i < |rows| ensures !rows[i].0.Infinity? && !rows[i].1.Infinity? {
          DestructureFinite(es[i]);
        }
      }
      match ConvertRows(rows)
      case Err(_) => Err(ArgumentError)
      case Ok(ps) =>
        EnterAllDistinct([], ps);
        Ok(EnterAll([], ps))
  }

  lemma DestructureFinite(e: Value)
    requires Finite(e)
    ensures !Destructure(e).0.Infinity? && !Destructure(e).1.Infinity?
  {
    if e.Arr? && |e.elems| > 0 {
      assert Finite(e.elems[0]);
      if |e.elems| > 1 {
        assert Finite(e.elems[1]);
      }
    }
  }

  /** A Hash of Float keys to Float values, such as the fixed-gradient Hash `gfix`. */
  function FloatHash(ps: seq<(real, real)>): (v: Value)
    ensures v.Hash? && |v.pairs| == |ps| && Finite(v)
  {
    var v := Hash(seq(|ps|, i requires 0 <= i < |ps| => (Float(ps[i].0), Float(ps[i].1))));
    assert forall i :: 0 <= i < |ps| ==> v.pairs[i] == (Float(ps[i].0), Float(ps[i].1));
    v
  }

  /** A Hash of floats coerces to the table that maps each key to its last value. */
  lemma CoerceFloatHash(ps: seq<(real, real)>, k: real)
    ensures CoerceGradients(FloatHash(ps)).Ok? && Lookup(CoerceGradients(FloatHash(ps)).value, k) == LastFor(ps, k)
  {
    var v := FloatHash(ps);
    assert v.pairs == seq(|ps|, i requires 0 <= i < |ps| => (Float(ps[i].0), Float(ps[i].1)));
    var es := ToA(v).value;
    var rows := seq(|es|, i requires 0 <= i < |es| => Destructure(es[i]));
    assert forall i :: 0 <= i < |es| ==> es[i] == Arr([Float(ps[i].0), Float(ps[i].1)]);
    assert forall i :: 0 <= i < |rows| ==> rows[i] == (Float(ps[i].0), Float(ps[i].1));
    var r := ConvertRows(rows);
    assert forall i :: 0 <= i < |rows| ==> ToF(rows[i].0) == Ok(ps[i].0) && ToF(rows[i].1) == Ok(ps[i].1);
    assert r.Ok? && |r.value| == |ps|;
    assert forall i :: 0 <= i < |ps| ==> r.value[i] == ps[i];
    assert r.value == ps;
    EnterAllLookup([], ps, k);
  }

  /** The stored gradients as a table, coercing them again as `configure` does. */
  function Coerce(g: Gradients): (r: Result<seq<(real, real)>>)
    requires g.Raw? ==> Finite(g.raw)
    ensures r.Err? ==> r.error == ArgumentError
  {
    match g
    case Coerced(t) => Ok(t)
    case Raw(v) => CoerceGradients(v)
  }

  predicate IsMonotone(gm: Value)
  {
    gm == Str(MonotonicMethod) || gm == Str(StrictMonotonicMethod)
  }

  predicate KnownMethod(gm: Value)
  {
    gm == Str(FiniteDifferenceMethod) || IsMonotone(gm)
  }

  /** An epsilon the sweep can compare with: non-numeric (an error), or a positive number. */
  predicate UsableEpsilon(v: Value)
  {
    !v.Infinity? && (v.Int? ==> v.i > 0) && (v.Float? ==> v.f > 0.0)
  }

  function EpsReal(v: Value): real
    requires v.Int? || v.Float?
  {
    if v.Int? then v.i as real else v.f
  }

  /** The starting gradients of `monotonic`, as a list. */
  function WeightedOf(x: seq<real>, y: seq<real>): (w: seq<real>)
    requires Fit(x, y)
    ensures |w| == |x| && forall j :: 0 <= j < |x| ==> w[j] == WeightedGradient(x, y, j)
  {
    seq(|x|, j requires 0 <= j < |x| => WeightedGradient(x, y, j))
  }

  /** The secants `d` of `monotonic`, as a list. */
  function SecantsOf(x: seq<real>, y: seq<real>): (d: seq<real>)
    requires Fit(x, y)
    ensures |d| == |x| - 1 && forall j :: 0 <= j < |d| ==> d[j] == Secant(x, y, j)
  {
    seq(|x| - 1, j requires 0 <= j < |x| - 1 => Secant(x, y, j))
  }

  /** The gradients `monotonic` (strict or not) computes, before any fixed gradient overrides them. */
  function MonotoneGradients(x: seq<real>, y: seq<real>, eps: real, strict: bool, sqrt: real -> real): (g: seq<real>)
    requires Fit(x, y) && eps > 0.0 && SqrtLaw(sqrt)
    ensures |g| == |x|
  {
    SweepOf(WeightedOf(x, y), SecantsOf(x, y), eps, strict, sqrt)
  }

  /** A gradient method `recompute` accepts, with an epsilon its monotonic methods can use. */
  predicate Dispatchable(gm: Value, eps: Value)
  {
    KnownMethod(gm) && (IsMonotone(gm) ==> UsableEpsilon(eps) && Numeric(eps))
  }

  /** The gradients of the named method, before fixed gradients override some. */
  function MethodGradients(gm: Value, eps: Value, x: seq<real>, y: seq<real>, sqrt: real -> real): (g: seq<real>)
    requires Fit(x, y) && Dispatchable(gm, eps) && SqrtLaw(sqrt)
    ensures |g| == |x|
  {
    if gm == Str(FiniteDifferenceMethod) then seq(|x|, j requires 0 <= j < |x| => FdGradient(x, y, j))
    else MonotoneGradients(x, y, EpsReal(eps), gm == Str(StrictMonotonicMethod), sqrt)
  }

  /**
   * The gradients of a successful `recompute`: the fixed gradient wherever
   * `fixed_gradients` names the knot, the method's own gradient elsewhere.
   */
  ghost predicate GradientsHold(a: Args, fg: seq<(real, real)>, x: seq<real>, y: seq<real>, m: seq<real>, sqrt: real -> real)
    requires Fit(x, y) && Dispatchable(a.gradientMethod, a.monotonicEpsilon) && SqrtLaw(sqrt)
  {
    var g := MethodGradients(a.gradientMethod, a.monotonicEpsilon, x, y, sqrt);
    |m| == |x| && forall j :: 0 <= j < |x| ==> m[j] == FixedOr(fg, x[j], g[j])
  }

  /**
   * What the gradients of a successful `recompute` promise: fixed gradients
   * where given; elsewhere the finite-difference rule, or for the monotonic
   * methods settled intervals whose gradients were only pulled towards zero
   * from the weighted secants.
   */
  lemma GradientsSettle(a: Args, fg: seq<(real, real)>, x: seq<real>, y: seq<real>, m: seq<real>, sqrt: real -> real)
    requires Fit(x, y) && Dispatchable(a.gradientMethod, a.monotonicEpsilon) && SqrtLaw(sqrt)
    requires GradientsHold(a, fg, x, y, m, sqrt)
    ensures forall j :: 0 <= j < |x| && Lookup(fg, x[j]).Some? ==> m[j] == Lookup(fg, x[j]).value
    ensures a.gradientMethod == Str(FiniteDifferenceMethod) ==>
              forall j :: 0 <= j < |x| && Lookup(fg, x[j]).None? ==> m[j] == FdGradient(x, y, j)
    ensures IsMonotone(a.gradientMethod) ==>
              && (forall j :: 0 <= j < |x| && Lookup(fg, x[j]).None? ==> Shrunk(WeightedGradient(x, y, j), m[j]))
              && (forall j :: 0 <= j < |x| - 1 && Lookup(fg, x[j]).None? && Lookup(fg, x[j + 1]).None? ==>
                    Settled(m[j], m[j + 1], Secant(x, y, j), EpsReal(a.monotonicEpsilon),
                            a.gradientMethod == Str(StrictMonotonicMethod)))
  {
    var g := MethodGradients(a.gradientMethod, a.monotonicEpsilon, x, y, sqrt);
    assert forall j :: 0 <= j < |x| && Lookup(fg, x[j]).None? ==> m[j] == g[j];
    if IsMonotone(a.gradientMethod) {
      MonotoneSettle(x, y, EpsReal(a.monotonicEpsilon), a.gradientMethod == Str(StrictMonotonicMethod), sqrt, g);
    }
  }

  /** The monotone gradients are settled on every interval and shrunk from the weighted secants. */
  lemma MonotoneSettle(x: seq<real>, y: seq<real>, eps: real, strict: bool, sqrt: real -> real, g: seq<real>)
    requires Fit(x, y) && eps > 0.0 && SqrtLaw(sqrt) && g == MonotoneGradients(x, y, eps, strict, sqrt)
    ensures forall j :: 0 <= j < |x| ==> Shrunk(WeightedGradient(x, y, j), g[j])
    ensures forall j :: 0 <= j < |x| - 1 ==> Settled(g[j], g[j + 1], Secant(x, y, j), eps, strict)
  {
    var w := WeightedOf(x, y);
    var d := SecantsOf(x, y);
    SweepSettles(w, d, eps, strict, sqrt);
  }


  /**
   * The gradient-method dispatch of `recompute`: the fresh gradient array of
   * the named method, or the error it raises. The monotonic methods raise
   * ArgumentError on a non-numeric epsilon only once their weighted secants
   * are in place, and the caller keeps those.
   */
  method BaseGradients(x: seq<real>, y: seq<real>, gm: Value, eps: Value, sqrt: real -> real)
    returns (g: array<real>, o: Outcome)
    requires Fit(x, y) && (IsMonotone(gm) ==> UsableEpsilon(eps)) && SqrtLaw(sqrt)
    ensures fresh(g)
    ensures !KnownMethod(gm) ==> o == Fail(ArgumentError)
    ensures KnownMethod(gm) ==> g.Length == |x|
    ensures IsMonotone(gm) && !Numeric(eps) ==>
              o == Fail(ArgumentError) && forall j :: 0 <= j < |x| ==> g[j] == WeightedGradient(x, y, j)
    ensures Dispatchable(gm, eps) ==> o == Pass && g[..] == MethodGradients(gm, eps, x, y, sqrt)
  {
    if gm == Str(FiniteDifferenceMethod) {
      g := FiniteDifference(x, y);
      o := Pass;
    } else if IsMonotone(gm) {
      var d := Secants(x, y);
      g := WeightedSecants(x, y, d);
      if !Numeric(eps) {
        return g, Fail(ArgumentError);
      }
      assert g[..] == WeightedOf(x, y) && d == SecantsOf(x, y);
      MonotoneSweep(g, d, EpsReal(eps), gm == Str(StrictMonotonicMethod), sqrt);
      o := Pass;
    } else {
      g := new real[0];
      o := Fail(ArgumentError);
    }
  }

  /** Overriding the method's gradients g with the fixed gradients gives what `recompute` promises. */
  lemma OverrideHolds(a: Args, fg: seq<(real, real)>, x: seq<real>, y: seq<real>, g: seq<real>, m: seq<real>, sqrt: real -> real)
    requires Fit(x, y) && |m| == |x| && Dispatchable(a.gradientMethod, a.monotonicEpsilon) && SqrtLaw(sqrt)
    requires g == MethodGradients(a.gradientMethod, a.monotonicEpsilon, x, y, sqrt)
    requires forall j :: 0 <= j < |x| ==> m[j] == FixedOr(fg, x[j], g[j])
    ensures GradientsHold(a, fg, x, y, m, sqrt)
  {
  }

  // ---------------------------------------------------------------- the class

  class CubicHermiteSpline {
    var args: Args
    /** `@h`, the knot table in insertion order */
    var h: seq<(real, real)>
    /** `@x`, `@y`: the sorted knot columns, empty for nil */
    var x: seq<real>
    var y: seq<real>
    /** `@m`, the gradients; None for nil */
    var m: Option<seq<real>>

    ghost predicate Valid()
      reads this
    {
      && DistinctKeys(h)
      && Finite(args.data)
      && (args.fixedGradients.Raw? ==> Finite(args.fixedGradients.raw))
      && (m.Some? ==> && |h| >= 2 && x == Xs(SortByKey(h)) && y == Ys(SortByKey(h))
                      && Fitted(x, y, m.value))
    }

    /** `dirty?` */
    predicate Dirty()
      reads this
    {
      m.None? || |x| != |h|
    }

    /** What `recompute` needs that the model leaves to the caller. */
    ghost predicate Computable()
      reads this
    {
      && (IsMonotone(args.gradientMethod) ==> UsableEpsilon(args.monotonicEpsilon))
      && (args.fixedGradients.Raw? ==> !args.fixedGradients.raw.Hash?)
    }

    /** `initialize({})`: the defaults and no knots. */
    constructor ()
      ensures Valid() && Dirty()
      ensures args == Defaults() && h == []
    {
      args := Defaults();
      h := [];
      x, y, m := [], [], None;
    }

    /** `reset`: default arguments, then `clear`. */
    method Reset()
      modifies this
      ensures Valid() && Dirty()
      ensures args == Defaults() && h == []
    {
      args := Defaults();
      Clear();
    }

    /** `clear`: forget every knot, keep the arguments. */
    method Clear()
      modifies this
      ensures Dirty() && h == [] && args == old(args)
      ensures Finite(args.data) && (args.fixedGradients.Raw? ==> Finite(args.fixedGradients.raw)) ==> Valid()
    {
      h := [];
      MarkDirty();
    }

    /** `dirty!` */
    method MarkDirty()
      modifies this
      ensures x == [] && y == [] && m.None?
      ensures h == old(h) && args == old(args)
    {
      x, y, m := [], [], None;
    }

    /**
     * `configure(args)`: merge the arguments, coerce the fixed gradients,
     * replace the knots when data is given, and mark the spline dirty. A
     * failure leaves what was already merged or cleared in place.
     */
    method Configure(c: Config) returns (o: Outcome)
      requires Valid() && FiniteConfig(c)
      modifies this
      ensures Valid()
      ensures var merged := Merge(old(args), c);
              var fg := Coerce(merged.fixedGradients);
              && (fg.Err? ==> o == Fail(ArgumentError) && args == merged
                              && h == old(h) && x == old(x) && y == old(y) && m == old(m))
              && (fg.Ok? && !Truthy(merged.data) ==>
                    o == Pass && args == merged.(fixedGradients := Coerced(fg.value)) && h == old(h) && Dirty())
              && (fg.Ok? && Truthy(merged.data) && Canonical(merged.data).Err? ==>
                    o == Fail(ArgumentError) && args == merged.(fixedGradients := Coerced(fg.value))
                    && h == [] && Dirty())
              && (fg.Ok? && Truthy(merged.data) && Canonical(merged.data).Ok? ==>
                    o == Pass && args == merged.(fixedGradients := Coerced(fg.value), data := Nil)
                    && h == EnterAll([], Canonical(merged.data).value) && Dirty())
    {
      args := Merge(args, c);
      var fg := Coerce(args.fixedGradients);
      if fg.Err? {
        return Fail(ArgumentError);
      }
      args := args.(fixedGradients := Coerced(fg.value));
      if Truthy(args.data) {
        Clear();
        var d := Canonical(args.data);
        if d.Err? {
          return Fail(ArgumentError);
        }
        Enter(d.value);
        args := args.(data := Nil);
      }
      MarkDirty();
      o := Pass;
    }

    /** `put(data)` and `<<`: enter the knots of any accepted shape. */
    method Put(data: Value) returns (o: Outcome)
      requires Valid() && Finite(data)
      modifies this
      ensures Valid() && args == old(args)
      ensures Canonical(data).Err? ==> o == Fail(ArgumentError) && unchanged(this)
      ensures Canonical(data).Ok? ==> o == Pass && h == EnterAll(old(h), Canonical(data).value)
      ensures Canonical(data).Ok? && |Canonical(data).value| == 0 ==> unchanged(this) && Dirty() == old(Dirty())
      ensures Canonical(data).Ok? && |Canonical(data).value| > 0 ==> Dirty()
    {
      var d := Canonical(data);
      if d.Err? {
        return Fail(ArgumentError);
      }
      Enter(d.value);
      o := Pass;
    }

    /**
     * `enter(data)`: store each knot, a later x overwriting an earlier one;
     * an empty list changes nothing, not even the fitted state.
     */
    method Enter(data: seq<(real, real)>)
      requires Valid()
      modifies this
      ensures Valid() && args == old(args)
      ensures h == EnterAll(old(h), data)
      ensures |data| == 0 ==> x == old(x) && y == old(y) && m == old(m)
      ensures |data| == 0 ==> unchanged(this)
      ensures |data| > 0 ==> Dirty()
    {
      if |data| == 0 {
        return;
      }
      for i := 0 to |data|
        invariant h == EnterAll(old(h), data[..i]) && DistinctKeys(h)
        invariant args == old(args)
      {
        assert data[..i + 1][..i] == data[..i];
        StoreDistinct(h, data[i].0, data[i].1);
        h := Store(h, data[i].0, data[i].1);
      }
      assert data[..|data|] == data;
      MarkDirty();
    }

    /**
     * `recompute`: when dirty, sort the knots into x and y, fill the
     * gradients by the configured method and apply the fixed gradients.
     */
    method Recompute(sqrt: real -> real) returns (o: Outcome)
      requires Valid() && Computable() && SqrtLaw(sqrt)
      modifies this
      ensures Valid() && h == old(h) && args == old(args)
      ensures o.Pass? ==> !Dirty()
      ensures !old(Dirty()) ==> o == Pass && x == old(x) && y == old(y) && m == old(m)
      ensures old(Dirty()) && |h| == 0 ==> o == Fail(NoMethodError) && m.None?
      ensures old(Dirty()) && |h| == 1 ==> o == Fail(ArgumentError) && m.None?
      ensures old(Dirty()) && |h| >= 2 ==> x == Xs(SortByKey(h)) && y == Ys(SortByKey(h))
      ensures old(Dirty()) && |h| >= 2 && !KnownMethod(args.gradientMethod) ==> o == Fail(ArgumentError) && m.None?
      ensures old(Dirty()) && |h| >= 2 && IsMonotone(args.gradientMethod) && !Numeric(args.monotonicEpsilon) ==>
                && o == Fail(ArgumentError) && m.Some?
                && forall j :: 0 <= j < |x| ==> m.value[j] == WeightedGradient(x, y, j)
      ensures old(Dirty()) && |h| >= 2 && KnownMethod(args.gradientMethod)
              && (IsMonotone(args.gradientMethod) ==> Numeric(args.monotonicEpsilon)) ==>
                && (args.fixedGradients.Raw? ==> o == Fail(NoMethodError) && m.Some?)
                && (args.fixedGradients.Coerced? ==>
                      (o == Pass && m.Some? && GradientsHold(args, args.fixedGradients.table, x, y, m.value, sqrt)))
    {
      if !Dirty() {
        return Pass;
      }
      if |h| == 0 {
        x, y := [], [];
        return Fail(NoMethodError);
      }
      var s := SortByKey(h);
      ColumnsFit(h);
      x, y := Xs(s), Ys(s);
      if |y| < 2 {
        return Fail(ArgumentError);
      }
      o := FillGradients(sqrt);
    }

    /**
     * The rest of `recompute` once the knots are sorted: the method's
     * gradients, then the fixed-gradient overrides.
     */
    method FillGradients(sqrt: real -> real) returns (o: Outcome)
      requires Fit(x, y) && m.None? && Computable() && SqrtLaw(sqrt)
      modifies this
      ensures x == old(x) && y == old(y) && h == old(h) && args == old(args)
      ensures m.Some? ==> |m.value| == |x|
      ensures o.Pass? ==> m.Some?
      ensures !KnownMethod(args.gradientMethod) ==> o == Fail(ArgumentError) && m.None?
      ensures IsMonotone(args.gradientMethod) && !Numeric(args.monotonicEpsilon) ==>
                && o == Fail(ArgumentError) && m.Some?
                && forall j :: 0 <= j < |x| ==> m.value[j] == WeightedGradient(x, y, j)
      ensures KnownMethod(args.gradientMethod) && (IsMonotone(args.gradientMethod) ==> Numeric(args.monotonicEpsilon)) ==>
                && (args.fixedGradients.Raw? ==> o == Fail(NoMethodError) && m.Some?)
                && (args.fixedGradients.Coerced? ==>
                      (o == Pass && m.Some? && GradientsHold(args, args.fixedGradients.table, x, y, m.value, sqrt)))
    {
      var g, base := BaseGradients(x, y, args.gradientMethod, args.monotonicEpsilon, sqrt);
      if base.Fail? {
        if KnownMethod(args.gradientMethod) {
          m := Some(g[..]);
        }
        return base;
      }
      ghost var before := g[..];
      match args.fixedGradients {
        case Raw(_) =>
          m := Some(g[..]);
          return Fail(NoMethodError);
        case Coerced(fg) =>
          ApplyFixed(g, x, fg);
          m := Some(g[..]);
          OverrideHolds(args, fg, x, y, before, g[..], sqrt);
      }
      o := Pass;
    }

    /**
     * `find(x)`: the bracketing interval by bisection, and the local
     * coordinate and width. `@strict_domain` is never assigned in this class,
     * so the domain check never fires and `find` never raises.
     */
    method Find(pt: real) returns (jlo: nat, jhi: nat, t: real, hh: real)
      requires |x| >= 2 && StrictlyIncreasing(x)
      ensures jhi == jlo + 1 && jhi < |x|
      ensures jlo == Coordinate(x, pt).0 && t == Coordinate(x, pt).1 && hh == Coordinate(x, pt).2
      ensures x[0] <= pt <= x[|x| - 1] ==> x[jlo] <= pt <= x[jhi] && 0.0 <= t <= 1.0
    {
      jlo, jhi := Bracket(x, pt);
      ghost var c := Coordinate(x, pt);
      assert c.0 == jlo;
      hh := x[jhi] - x[jlo];
      assert c.2 == hh;
      t := (pt - x[jlo]) / hh;
      if x[0] <= pt <= x[|x| - 1] {
        LocateBrackets(x, pt);
        CoordinateInUnit(x, pt);
      }
    }

    /** `domain`: the first and last knot, after recomputing if dirty. */
    method Domain(sqrt: real -> real) returns (r: Result<(real, real)>)
      requires Valid() && Computable() && SqrtLaw(sqrt)
      modifies this
      ensures Valid() && h == old(h) && args == old(args)
      ensures r.Ok? ==> m.Some? && !Dirty() && r.value == (x[0], x[|x| - 1]) && r.value.0 < r.value.1
      ensures !old(Dirty()) ==> r.Ok? && x == old(x) && y == old(y) && m == old(m)
      ensures old(Dirty()) && Dispatchable(args.gradientMethod, args.monotonicEpsilon) && args.fixedGradients.Coerced? ==>
                && (r.Ok? <==> |h| >= 2)
                && (r.Ok? ==> GradientsHold(args, args.fixedGradients.table, x, y, m.value, sqrt))
    {
      var o := Recompute(sqrt);
      if o.Fail? {
        return Err(o.error);
      }
      r := Ok((x[0], x[|x| - 1]));
    }

    /**
     * What `q`, `qp` and `qpp` share: recompute if dirty, convert the
     * argument with `to_f`, then `find` its interval.
     */
    method Prepare(pt: Value, sqrt: real -> real) returns (r: Result<(nat, real, real)>)
      requires Valid() && Computable() && SqrtLaw(sqrt) && !pt.Infinity?
      modifies this
      ensures Valid() && h == old(h) && args == old(args)
      ensures r.Ok? ==> && ToF(pt).Ok? && m.Some? && Fitted(x, y, m.value)
                        && r.value == Coordinate(x, ToF(pt).value)
      ensures !old(Dirty()) && ToF(pt).Ok? ==> r.Ok?
      ensures !old(Dirty()) ==> x == old(x) && y == old(y) && m == old(m)
      ensures ToF(pt).Err? ==> r.Err?
    {
      var o := Recompute(sqrt);
      if o.Fail? {
        return Err(o.error);
      }
      var p := ToF(pt);
      if p.Err? {
        return Err(p.error);
      }
      assert Fitted(x, y, m.value);
      var jlo, jhi, t, hh := Find(p.value);
      r := Ok((jlo, t, hh));
    }

    /** `q(x)`: the spline's value at x. */
    method Q(pt: Value, sqrt: real -> real) returns (r: Result<real>)
      requires Valid() && Computable() && SqrtLaw(sqrt) && !pt.Infinity?
      modifies this
      ensures Valid() && h == old(h) && args == old(args)
      ensures r.Ok? ==> ToF(pt).Ok? && m.Some? && Fitted(x, y, m.value)
                        && r.value == QOf(x, y, m.value, ToF(pt).value)
      ensures !old(Dirty()) && ToF(pt).Ok? ==> r.Ok?
      ensures !old(Dirty()) ==> x == old(x) && y == old(y) && m == old(m)
      ensures ToF(pt).Err? ==> r.Err?
    {
      var c := Prepare(pt, sqrt);
      if c.Err? {
        return Err(c.error);
      }
      var (j, t, hh) := c.value;
      QueriesAt(x, y, m.value, ToF(pt).value, j, t, hh);
      r := Ok(Cubic(t, hh, y[j], m.value[j], y[j + 1], m.value[j + 1]));
    }

    /** `qp(x)`: the spline's slope at x. */
    method Qp(pt: Value, sqrt: real -> real) returns (r: Result<real>)
      requires Valid() && Computable() && SqrtLaw(sqrt) && !pt.Infinity?
      modifies this
      ensures Valid() && h == old(h) && args == old(args)
      ensures r.Ok? ==> ToF(pt).Ok? && m.Some? && Fitted(x, y, m.value)
                        && r.value == QpOf(x, y, m.value, ToF(pt).value)
      ensures !old(Dirty()) && ToF(pt).Ok? ==> r.Ok?
      ensures !old(Dirty()) ==> x == old(x) && y == old(y) && m == old(m)
      ensures ToF(pt).Err? ==> r.Err?
    {
      var c := Prepare(pt, sqrt);
      if c.Err? {
        return Err(c.error);
      }
      var (j, t, hh) := c.value;
      QueriesAt(x, y, m.value, ToF(pt).value, j, t, hh);
      r := Ok(CubicP(t, hh, y[j], m.value[j], y[j + 1], m.value[j + 1]));
    }

    /** `qpp(x)`: the spline's second derivative at x. */
    method Qpp(pt: Value, sqrt: real -> real) returns (r: Result<real>)
      requires Valid() && Computable() && SqrtLaw(sqrt) && !pt.Infinity?
      modifies this
      ensures Valid() && h == old(h) && args == old(args)
      ensures r.Ok? ==> ToF(pt).Ok? && m.Some? && Fitted(x, y, m.value)
                        && r.value == QppOf(x, y, m.value, ToF(pt).value)
      ensures !old(Dirty()) && ToF(pt).Ok? ==> r.Ok?
      ensures !old(Dirty()) ==> x == old(x) && y == old(y) && m == old(m)
      ensures ToF(pt).Err? ==> r.Err?
    {
      var c := Prepare(pt, sqrt);
      if c.Err? {
        return Err(c.error);
      }
      var (j, t, hh) := c.value;
      QueriesAt(x, y, m.value, ToF(pt).value, j, t, hh);
      r := Ok(CubicPP(t, hh, y[j], m.value[j], y[j + 1], m.value[j + 1]));
    }
  }
}
