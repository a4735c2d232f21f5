/**
 * lib/capricious/cubic_spline.rb: an interpolating cubic spline whose second
 * derivatives come from the tridiagonal system of section 3.3 of Numerical
 * Recipes in C (2nd ed.), with natural ends or clamped first derivatives,
 * over the same knot table and dirty/recompute lifecycle as the Hermite
 * spline.
 */
module CubicSplines {
  import opened Wrappers
  import opened Knots
  import opened Elementary

  // ------------------------------------------------------------ the pieces

  /**
   * `q` on one interval of width h, at the weights a = (x_hi - x)/h and
   * b = (x - x_lo)/h, from the knot values y0, y1 and second derivatives
   * s0, s1. The ends of the interval give back the knot values.
   */
  function Piece(h: real, y0: real, y1: real, s0: real, s1: real, a: real, b: real): (r: real)
    ensures a == 1.0 && b == 0.0 ==> r == y0
    ensures a == 0.0 && b == 1.0 ==> r == y1
  {
    a * y0 + b * y1 + ((a * a * a - a) * s0 + (b * b * b - b) * s1) * (h * h) / 6.0
  }

  /** `qp` on one interval. */
  function PieceP(h: real, y0: real, y1: real, s0: real, s1: real, a: real, b: real): real
    requires h != 0.0
  {
    (y1 - y0) / h - (3.0 * a * a - 1.0) * h * s0 / 6.0 + (3.0 * b * b - 1.0) * h * s1 / 6.0
  }

  /** `qpp` on one interval: the second derivatives blended by the weights. */
  function PiecePP(s0: real, s1: real, a: real, b: real): (r: real)
    ensures a == 1.0 && b == 0.0 ==> r == s0
    ensures a == 0.0 && b == 1.0 ==> r == s1
  {
    a * s0 + b * s1
  }

  /**
   * What `find` returns apart from the domain check: the lower index of the
   * bracketing interval, its width, and the two weights, which sum to one.
   */
  function Weights(x: seq<real>, pt: real): (r: (nat, real, real, real))
    requires |x| >= 2 && StrictlyIncreasing(x)
    ensures r.0 == Locate(x, pt) && r.1 == x[r.0 + 1] - x[r.0] && r.1 > 0.0
    ensures r.2 == (x[r.0 + 1] - pt) / r.1 && r.3 == (pt - x[r.0]) / r.1
    ensures r.2 + r.3 == 1.0
  {
    var j := Locate(x, pt);
    var h := x[j + 1] - x[j];
    SumOverWidth(x[j + 1] - pt, pt - x[j], h);
    (j, h, (x[j + 1] - pt) / h, (pt - x[j]) / h)
  }

  /** `q(pt)` on fitted second derivatives s. */
  function QOf(x: seq<real>, y: seq<real>, s: seq<real>, pt: real): real
    requires Fitted(x, y, s)
  {
    var (j, h, a, b) := Weights(x, pt);
    Piece(h, y[j], y[j + 1], s[j], s[j + 1], a, b)
  }

  /** `qp(pt)` on fitted second derivatives s. */
  function QpOf(x: seq<real>, y: seq<real>, s: seq<real>, pt: real): real
    requires Fitted(x, y, s)
  {
    var (j, h, a, b) := Weights(x, pt);
    PieceP(h, y[j], y[j + 1], s[j], s[j + 1], a, b)
  }

  /** `qpp(pt)` on fitted second derivatives s. */
  function QppOf(x: seq<real>, y: seq<real>, s: seq<real>, pt: real): real
    requires Fitted(x, y, s)
  {
    var (j, h, a, b) := Weights(x, pt);
    PiecePP(s[j], s[j + 1], a, b)
  }

  /** The slope at knot k of the piece to its left (interval k-1 at its upper end). */
  function LeftSlope(x: seq<real>, y: seq<real>, s: seq<real>, k: nat): real
    requires Fitted(x, y, s) && 0 < k < |x|
  {
    PieceP(x[k] - x[k - 1], y[k - 1], y[k], s[k - 1], s[k], 0.0, 1.0)
  }

  /** At a knot, the spline takes the knot's value and its second derivative the knot's. */
  lemma QAtKnot(x: seq<real>, y: seq<real>, s: seq<real>, k: nat)
    requires Fitted(x, y, s) && k < |x|
    ensures QOf(x, y, s, x[k]) == y[k]
    ensures QppOf(x, y, s, x[k]) == s[k]
  {
    LocateAtKnot(x, k);
    var (j, h, a, b) := Weights(x, x[k]);
    if k == |x| - 1 {
      assert a == 0.0 / h;
      assert b == 1.0 by {
        MulDiv(1.0, h);
      }
    } else {
      assert b == 0.0 / h;
      assert a == 1.0 by {
        MulDiv(1.0, h);
      }
    }
  }

  /**
   * Between knots the second derivative runs linearly from s[j] to s[j+1]:
   * it is the straight line through the two.
   */
  lemma QppLinear(x: seq<real>, y: seq<real>, s: seq<real>, pt: real)
    requires Fitted(x, y, s)
    ensures var j := Locate(x, pt);
            QppOf(x, y, s, pt) == s[j] + (pt - x[j]) * (s[j + 1] - s[j]) / (x[j + 1] - x[j])
  {
    var w := Weights(x, pt);
    var j, h, a, b := w.0, w.1, w.2, w.3;
    assert j == Locate(x, pt) && h == x[j + 1] - x[j];
    var s0, s1, p := s[j], s[j + 1], pt - x[j];
    assert QppOf(x, y, s, pt) == a * s0 + b * s1;
    Interpolate(s0, s1, a, b, p, h);
  }

  /** Weights a and b = p/h summing to one mix s0 and s1 as the line from s0 rising by p (s1 - s0)/h. */
  lemma Interpolate(s0: real, s1: real, a: real, b: real, p: real, h: real)
    requires h != 0.0 && a + b == 1.0 && b == p / h
    ensures a * s0 + b * s1 == s0 + p * (s1 - s0) / h
  {
    assert a * s0 + b * s1 == s0 + b * (s1 - s0);
    MulOverWidth(p, s1 - s0, h);
  }

  // ------------------------------------------------------ the linear system

  /**
   * Row k of the system for the second derivatives s, at an interior knot:
   * (h0/6) s[k-1] + ((h0+h1)/3) s[k] + (h1/6) s[k+1] = d[k] - d[k-1], with
   * h0, h1 the widths and d[k-1], d[k] the secants on either side.
   */
  predicate Row(x: seq<real>, y: seq<real>, s: seq<real>, k: nat)
    requires Fitted(x, y, s) && 0 < k < |x| - 1
  {
    var h0 := x[k] - x[k - 1];
    var h1 := x[k + 1] - x[k];
    h0 / 6.0 * s[k - 1] + (h0 + h1) / 3.0 * s[k] + h1 / 6.0 * s[k + 1] == Secant(x, y, k) - Secant(x, y, k - 1)
  }

  /** The lower end: a natural spline (s[0] = 0), or the first derivative clamped to ypl. */
  predicate LowerEnd(x: seq<real>, y: seq<real>, s: seq<real>, ypl: Option<real>)
    requires Fitted(x, y, s)
  {
    var h := x[1] - x[0];
    if ypl.None? then s[0] == 0.0
    else h / 3.0 * s[0] + h / 6.0 * s[1] == Secant(x, y, 0) - ypl.value
  }

  /** The upper end: a natural spline (s[n-1] = 0), or the first derivative clamped to ypu. */
  predicate UpperEnd(x: seq<real>, y: seq<real>, s: seq<real>, ypu: Option<real>)
    requires Fitted(x, y, s)
  {
    var n := |x|;
    var h := x[n - 1] - x[n - 2];
    if ypu.None? then s[n - 1] == 0.0
    else h / 6.0 * s[n - 2] + h / 3.0 * s[n - 1] == ypu.value - Secant(x, y, n - 2)
  }

  /** Equation k of the system: the lower end condition, an interior row, or the upper end condition. */
  predicate Equation(x: seq<real>, y: seq<real>, ypl: Option<real>, ypu: Option<real>, s: seq<real>, k: nat)
    requires Fitted(x, y, s) && k < |x|
  {
    if k == 0 then LowerEnd(x, y, s, ypl)
    else if k == |x| - 1 then UpperEnd(x, y, s, ypu)
    else Row(x, y, s, k)
  }

  /** s solves the whole system: one second derivative per knot, and every equation holds. */
  predicate Solves(x: seq<real>, y: seq<real>, ypl: Option<real>, ypu: Option<real>, s: seq<real>)
  {
    Fitted(x, y, s) && forall k :: 0 <= k < |x| ==> Equation(x, y, ypl, ypu, s, k)
  }

  /**
   * What an interior row means: the piece on the right of knot k leaves it
   * with the slope the piece on the left arrives with.
   */
  lemma RowIsSmoothSlope(x: seq<real>, y: seq<real>, s: seq<real>, k: nat)
    requires Fitted(x, y, s) && 0 < k < |x| - 1
    ensures Row(x, y, s, k) <==> QpOf(x, y, s, x[k]) == LeftSlope(x, y, s, k)
  {
    LocateAtKnot(x, k);
    var (j, h, a, b) := Weights(x, x[k]);
    assert j == k;
    assert b == 0.0 / h;
    assert a == 1.0 by {
      MulDiv(1.0, h);
    }
    var h0 := x[k] - x[k - 1];
    assert QpOf(x, y, s, x[k]) == Secant(x, y, k) - h / 3.0 * s[k] - h / 6.0 * s[k + 1];
    assert LeftSlope(x, y, s, k) == Secant(x, y, k - 1) + h0 / 6.0 * s[k - 1] + h0 / 3.0 * s[k];
  }

  /** With a clamped lower end, the condition is exactly that `qp(x[0])` is ypl. */
  lemma LowerEndIsSlope(x: seq<real>, y: seq<real>, s: seq<real>, ypl: real)
    requires Fitted(x, y, s)
    ensures LowerEnd(x, y, s, Some(ypl)) <==> QpOf(x, y, s, x[0]) == ypl
  {
    LocateAtKnot(x, 0);
    var (j, h, a, b) := Weights(x, x[0]);
    assert j == 0;
    assert b == 0.0 / h;
    assert a == 1.0 by {
      MulDiv(1.0, h);
    }
    assert QpOf(x, y, s, x[0]) == Secant(x, y, 0) - h / 3.0 * s[0] - h / 6.0 * s[1];
  }

  /** With a clamped upper end, the condition is exactly that `qp(x[n-1])` is ypu. */
  lemma UpperEndIsSlope(x: seq<real>, y: seq<real>, s: seq<real>, ypu: real)
    requires Fitted(x, y, s)
    ensures UpperEnd(x, y, s, Some(ypu)) <==> QpOf(x, y, s, x[|x| - 1]) == ypu
  {
    var n := |x|;
    LocateAtKnot(x, n - 1);
    var (j, h, a, b) := Weights(x, x[n - 1]);
    assert j == n - 2;
    assert a == 0.0 / h;
    assert b == 1.0 by {
      MulDiv(1.0, h);
    }
    assert QpOf(x, y, s, x[n - 1]) == Secant(x, y, n - 2) + h / 6.0 * s[n - 2] + h / 3.0 * s[n - 1];
  }

  // ------------------------------------------------------------ compute_ypp

  /** sig = (x[j]-x[j-1]) / (x[j+1]-x[j-1]), the share of the left interval in the pair. */
  function Share(x: seq<real>, j: nat): (sig: real)
    requires |x| >= 2 && StrictlyIncreasing(x) && 0 < j < |x| - 1
    ensures 0.0 < sig < 1.0
  {
    var sig := (x[j] - x[j - 1]) / (x[j + 1] - x[j - 1]);
    ShareBounds(x[j] - x[j - 1], x[j + 1] - x[j - 1]);
    sig
  }

  /** The coefficients of one row after elimination: s[j] = c s[j+1] + u. */
  datatype Coeffs = Coeffs(c: real, u: real)

  /**
   * cs and us hold what the forward sweep leaves in `@ypp` and `u` below
   * index n-1: the first row from the lower end, then each row eliminated
   * with the one before. Every c stays within [-1/2, 0], so no pivot vanishes.
   */
  predicate Swept(x: seq<real>, y: seq<real>, ypl: Option<real>, cs: seq<real>, us: seq<real>)
    requires Fit(x, y)
  {
    && |cs| == |us| == |x|
    && Coeffs(cs[0], us[0]) == Start(x, y, ypl)
    && (forall i :: 0 <= i < |x| - 1 ==> -0.5 <= cs[i] <= 0.0)
    && (forall i :: 0 < i < |x| - 1 ==> SweptRow(x, y, cs, us, i))
  }

  /** Row i of the sweep: its coefficients come from eliminating with row i-1. */
  predicate SweptRow(x: seq<real>, y: seq<real>, cs: seq<real>, us: seq<real>, i: nat)
    requires Fit(x, y) && |cs| == |us| == |x| && 0 < i < |x| - 1 && -0.5 <= cs[i - 1] <= 0.0
  {
    Coeffs(cs[i], us[i]) == Eliminate(Share(x, i), cs[i - 1], us[i - 1], Rhs(x, y, i))
  }

  /** Back-substitution at index i: s[i] = c[i] s[i+1] + u[i]. */
  predicate BackRow(cs: seq<real>, us: seq<real>, s: seq<real>, i: nat)
    requires |cs| == |us| == |s| && i + 1 < |s|
  {
    s[i] == cs[i] * s[i + 1] + us[i]
  }

  /** The first row: nothing for a natural end, the clamped-slope row otherwise. */
  function Start(x: seq<real>, y: seq<real>, ypl: Option<real>): (r: Coeffs)
    requires Fit(x, y)
    ensures r.c == if ypl.None? then 0.0 else -0.5
  {
    if ypl.None? then Coeffs(0.0, 0.0)
    else Coeffs(-0.5, 3.0 / (x[1] - x[0]) * (Secant(x, y, 0) - ypl.value))
  }

  /** 6 (d[j] - d[j-1]) / (x[j+1] - x[j-1]), the right-hand side of row j scaled as the sweep uses it. */
  function Rhs(x: seq<real>, y: seq<real>, j: nat): real
    requires Fit(x, y) && 0 < j < |x| - 1
  {
    6.0 * (Secant(x, y, j) - Secant(x, y, j - 1)) / (x[j + 1] - x[j - 1])
  }

  /** One elimination step: divide the row, with the previous coefficients substituted, by its pivot. */
  function Eliminate(sig: real, c: real, u: real, r: real): (next: Coeffs)
    requires 0.0 < sig < 1.0 && -0.5 <= c <= 0.0
    ensures -0.5 <= next.c <= 0.0
  {
    Pivot(sig, c);
    var p := sig * c + 2.0;
    Coeffs((sig - 1.0) / p, (r - sig * u) / p)
  }

  /** The pivot sig*c + 2 is at least 3/2, and the next coefficient stays in [-1/2, 0]. */
  lemma Pivot(sig: real, c: real)
    requires 0.0 < sig < 1.0 && -0.5 <= c <= 0.0
    ensures sig * c + 2.0 >= 1.5
    ensures -0.5 <= (sig - 1.0) / (sig * c + 2.0) <= 0.0
  {
    var p := sig * c + 2.0;
    MulMonotone(-0.5, c, sig);
    DivBounds(sig - 1.0, p, -0.5, 0.0);
  }

  /**
   * `compute_ypp`: the forward sweep of the tridiagonal decomposition, then
   * back-substitution. The result solves the system: the end conditions
   * chosen by ypl/ypu and every interior row.
   */
  method ComputeYpp(x: seq<real>, y: seq<real>, ypl: Option<real>, ypu: Option<real>) returns (s: seq<real>)
    requires Fit(x, y)
    ensures Solves(x, y, ypl, ypu, s)
  {
    var n := |y|;
    var ypp := new real[n](_ => 0.0);
    var u := new real[n](_ => 0.0);
    ForwardSweep(x, y, ypl, ypp, u);
    ghost var cs, us := ypp[..], u[..];
    var yppn := 0.0;
    if ypu.Some? {
      yppn := 0.5;
      u[n - 1] := (3.0 / (x[n - 1] - x[n - 2])) * (ypu.value - (y[n - 1] - y[n - 2]) / (x[n - 1] - x[n - 2]));
    }
    ypp[n - 1] := Closing(u[n - 1], yppn, u[n - 2], ypp[n - 2]);
    SweptLast(x, y, ypl, cs, us, ypp[n - 1], u[n - 1]);
    cs, us := cs[n - 1 := ypp[n - 1]], us[n - 1 := u[n - 1]];
    BackSubstitute(ypp, u, cs, us);
    s := ypp[..];
    BackSubstituted(x, y, ypl, ypu, cs, us, s);
  }

  /** The sweep does not look at the last coefficients, which the upper end sets. */
  lemma SweptLast(x: seq<real>, y: seq<real>, ypl: Option<real>, cs: seq<real>, us: seq<real>, c: real, u: real)
    requires Fit(x, y) && Swept(x, y, ypl, cs, us)
    ensures Swept(x, y, ypl, cs[|x| - 1 := c], us[|x| - 1 := u])
  {
    var n := |x|;
    var cs', us' := cs[n - 1 := c], us[n - 1 := u];
    forall i | 0 < i < n - 1
      ensures -0.5 <= cs'[i - 1] <= 0.0 && SweptRow(x, y, cs', us', i)
    {
      assert SweptRow(x, y, cs, us, i);
      assert cs'[i - 1] == cs[i - 1] && us'[i - 1] == us[i - 1] && cs'[i] == cs[i] && us'[i] == us[i];
    }
  }

  /**
   * The forward sweep of `compute_ypp`: the first row from the lower end,
   * then each row eliminated with the one before; u[n-1] is left at 0.
   */
  method ForwardSweep(x: seq<real>, y: seq<real>, ypl: Option<real>, ypp: array<real>, u: array<real>)
    requires Fit(x, y) && ypp != u && ypp.Length == u.Length == |x|
    requires forall i :: 0 <= i < |x| ==> ypp[i] == 0.0 && u[i] == 0.0
    modifies ypp, u
    ensures Swept(x, y, ypl, ypp[..], u[..]) && u[|x| - 1] == 0.0
  {
    var n := |x|;
    if ypl.Some? {
      ypp[0] := -0.5;
      u[0] := (3.0 / (x[1] - x[0])) * ((y[1] - y[0]) / (x[1] - x[0]) - ypl.value);
    }
    for j := 1 to n - 1
      invariant SweptTo(x, y, ypl, ypp[..], u[..], j)
      invariant u[n - 1] == 0.0
    {
      ghost var cs, us := ypp[..], u[..];
      ypp[j], u[j] := ForwardStep(x, y, j, ypp[j - 1], u[j - 1]);
      SweptStep(x, y, ypl, cs, us, j, ypp[j], u[j]);
      assert ypp[..] == cs[j := ypp[j]] && u[..] == us[j := u[j]];
    }
  }

  /** Swept up to row k: the first k rows of the sweep are in place. */
  predicate SweptTo(x: seq<real>, y: seq<real>, ypl: Option<real>, cs: seq<real>, us: seq<real>, k: nat)
    requires Fit(x, y)
  {
    && |cs| == |us| == |x| && 1 <= k <= |x| - 1
    && Coeffs(cs[0], us[0]) == Start(x, y, ypl)
    && (forall i :: 0 <= i < k ==> -0.5 <= cs[i] <= 0.0)
    && (forall i :: 0 < i < k ==> SweptRow(x, y, cs, us, i))
  }

  /** Eliminating row k with row k-1 extends a sweep up to row k by one row. */
  lemma SweptStep(x: seq<real>, y: seq<real>, ypl: Option<real>, cs: seq<real>, us: seq<real>, k: nat,
                  c: real, v: real)
    requires Fit(x, y) && SweptTo(x, y, ypl, cs, us, k) && k < |x| - 1
    requires Coeffs(c, v) == Eliminate(Share(x, k), cs[k - 1], us[k - 1], Rhs(x, y, k))
    ensures SweptTo(x, y, ypl, cs[k := c], us[k := v], k + 1)
  {
    var cs', us' := cs[k := c], us[k := v];
    forall i | 0 < i < k + 1 ensures SweptRow(x, y, cs', us', i) {
      if i < k {
        assert SweptRow(x, y, cs, us, i);
      }
    }
  }

  /** The back-substitution loop of `compute_ypp`: ypp[j] = ypp[j] ypp[j+1] + u[j], from j = n-2 down to 0. */
  method BackSubstitute(ypp: array<real>, u: array<real>, ghost cs: seq<real>, ghost us: seq<real>)
    requires ypp != u && 1 <= ypp.Length == u.Length && ypp[..] == cs && u[..] == us
    modifies ypp
    ensures ypp[ypp.Length - 1] == cs[ypp.Length - 1]
    ensures forall i :: 0 <= i < ypp.Length - 1 ==> BackRow(cs, us, ypp[..], i)
  {
    var n := ypp.Length;
    var j := n - 1;
    while j > 0
      invariant 0 <= j <= n - 1
      invariant forall i :: 0 <= i < j ==> ypp[i] == cs[i]
      invariant ypp[n - 1] == cs[n - 1]
      invariant forall i :: j <= i < n - 1 ==> BackRow(cs, us, ypp[..], i)
    {
      j := j - 1;
      ghost var before := ypp[..];
      assert ypp[j] == cs[j] && u[j] == us[j];
      ypp[j] := ypp[j] * ypp[j + 1] + u[j];
      forall i | j <= i < n - 1
        ensures BackRow(cs, us, ypp[..], i)
      {
        if i > j {
          BackRowFrame(cs, us, before, ypp[..], i);
        }
      }
    }
  }

  /** BackRow at i only looks at s[i] and s[i+1]. */
  lemma BackRowFrame(cs: seq<real>, us: seq<real>, s: seq<real>, t: seq<real>, i: nat)
    requires |cs| == |us| == |s| == |t| && i + 1 < |s|
    requires BackRow(cs, us, s, i) && s[i] == t[i] && s[i + 1] == t[i + 1]
    ensures BackRow(cs, us, t, i)
  {
  }

  /**
   * The last second derivative: (u[n-1] - yppn u[n-2]) / (yppn ypp[n-2] + 1),
   * with yppn 0 for a natural upper end and 1/2 for a clamped one.
   */
  function Closing(un: real, yppn: real, u: real, c: real): real
    requires yppn == 0.0 || yppn == 0.5
    requires -0.5 <= c <= 0.0
  {
    (un - yppn * u) / (yppn * c + 1.0)
  }

  /** One step of the forward sweep, as the loop body of `compute_ypp` writes it. */
  method ForwardStep(x: seq<real>, y: seq<real>, j: nat, c: real, u: real) returns (cj: real, uj: real)
    requires Fit(x, y) && 0 < j < |x| - 1 && -0.5 <= c <= 0.0
    ensures Coeffs(cj, uj) == Eliminate(Share(x, j), c, u, Rhs(x, y, j))
  {
    var sig := (x[j] - x[j - 1]) / (x[j + 1] - x[j - 1]);
    assert sig == Share(x, j);
    Pivot(sig, c);
    var p := sig * c + 2.0;
    cj := (sig - 1.0) / p;
    var t := (y[j + 1] - y[j]) / (x[j + 1] - x[j]) - (y[j] - y[j - 1]) / (x[j] - x[j - 1]);
    uj := (6.0 * t / (x[j + 1] - x[j - 1]) - sig * u) / p;
    assert 6.0 * t / (x[j + 1] - x[j - 1]) == Rhs(x, y, j);
  }

  /**
   * Back-substitution solves the system: the swept coefficients c, u, the
   * last value from the upper end, and every other s[i] = c[i] s[i+1] + u[i].
   */
  lemma BackSubstituted(x: seq<real>, y: seq<real>, ypl: Option<real>, ypu: Option<real>,
                        cs: seq<real>, us: seq<real>, s: seq<real>)
    requires Fitted(x, y, s) && Swept(x, y, ypl, cs, us)
    requires us[|x| - 1] == if ypu.None? then 0.0
                            else 3.0 / (x[|x| - 1] - x[|x| - 2]) * (ypu.value - Secant(x, y, |x| - 2))
    requires s[|x| - 1] == Closing(us[|x| - 1], if ypu.None? then 0.0 else 0.5, us[|x| - 2], cs[|x| - 2])
    requires forall i :: 0 <= i < |x| - 1 ==> BackRow(cs, us, s, i)
    ensures Solves(x, y, ypl, ypu, s)
  {
    var n := |x|;
    forall k | 0 <= k < n
      ensures Equation(x, y, ypl, ypu, s, k)
    {
      if k == 0 {
        LowerSolved(x, y, ypl, cs, us, s);
      } else if k == n - 1 {
        UpperSolved(x, y, ypu, cs, us, s);
      } else {
        assert SweptRow(x, y, cs, us, k) && BackRow(cs, us, s, k - 1) && BackRow(cs, us, s, k);
        RowSolved(x, y, cs, us, s, k);
      }
    }
  }

  /** The lower end condition holds once the first row is back-substituted. */
  lemma LowerSolved(x: seq<real>, y: seq<real>, ypl: Option<real>, cs: seq<real>, us: seq<real>, s: seq<real>)
    requires Fitted(x, y, s) && |cs| == |us| == |x|
    requires Coeffs(cs[0], us[0]) == Start(x, y, ypl) && BackRow(cs, us, s, 0)
    ensures LowerEnd(x, y, s, ypl)
  {
    if ypl.Some? {
      ClampedLower(x[1] - x[0], s[0], s[1], Secant(x, y, 0) - ypl.value);
    }
  }

  /** The upper end condition holds for the closing value and the last back-substituted row. */
  lemma UpperSolved(x: seq<real>, y: seq<real>, ypu: Option<real>, cs: seq<real>, us: seq<real>, s: seq<real>)
    requires Fitted(x, y, s) && |cs| == |us| == |x| && -0.5 <= cs[|x| - 2] <= 0.0
    requires us[|x| - 1] == if ypu.None? then 0.0
                            else 3.0 / (x[|x| - 1] - x[|x| - 2]) * (ypu.value - Secant(x, y, |x| - 2))
    requires s[|x| - 1] == Closing(us[|x| - 1], if ypu.None? then 0.0 else 0.5, us[|x| - 2], cs[|x| - 2])
    requires BackRow(cs, us, s, |x| - 2)
    ensures UpperEnd(x, y, s, ypu)
  {
    var n := |x|;
    if ypu.Some? {
      ClampedUpper(x[n - 1] - x[n - 2], cs[n - 2], us[n - 2], us[n - 1], s[n - 2], s[n - 1],
                   ypu.value - Secant(x, y, n - 2));
    }
  }

  /** An interior row holds once its sweep step and its own and its left neighbour's back-substitution hold. */
  lemma RowSolved(x: seq<real>, y: seq<real>, cs: seq<real>, us: seq<real>, s: seq<real>, k: nat)
    requires Fitted(x, y, s) && |cs| == |us| == |x| && 0 < k < |x| - 1 && -0.5 <= cs[k - 1] <= 0.0
    requires SweptRow(x, y, cs, us, k) && BackRow(cs, us, s, k - 1) && BackRow(cs, us, s, k)
    ensures Row(x, y, s, k)
  {
    RowFromSweep(x, y, s, k, cs[k - 1], us[k - 1], cs[k], us[k]);
  }

  /** The same, for one row, from the two coefficient pairs involved. */
  lemma RowFromSweep(x: seq<real>, y: seq<real>, s: seq<real>, k: nat, c0: real, u0: real, c: real, u: real)
    requires Fitted(x, y, s) && 0 < k < |x| - 1 && -0.5 <= c0 <= 0.0
    requires Coeffs(c, u) == Eliminate(Share(x, k), c0, u0, Rhs(x, y, k))
    requires s[k - 1] == c0 * s[k] + u0 && s[k] == c * s[k + 1] + u
    ensures Row(x, y, s, k)
  {
    assert x[k + 1] - x[k - 1] == (x[k] - x[k - 1]) + (x[k + 1] - x[k]);
    Eliminated(Share(x, k), c0, u0, c, u, Rhs(x, y, k), s[k - 1], s[k], s[k + 1]);
    Scaled(x[k] - x[k - 1], x[k + 1] - x[k], Secant(x, y, k) - Secant(x, y, k - 1), Share(x, k), Rhs(x, y, k),
           s[k - 1], s[k], s[k + 1]);
  }

  /** Substituting s[k-1] = c0 s[k] + u0 into the pivoted row k gives back the row, scaled. */
  lemma Eliminated(sig: real, c0: real, u0: real, c: real, u: real, r: real, a: real, b: real, d: real)
    requires 0.0 < sig < 1.0 && -0.5 <= c0 <= 0.0
    requires Coeffs(c, u) == Eliminate(sig, c0, u0, r)
    requires a == c0 * b + u0 && b == c * d + u
    ensures sig * a + 2.0 * b + (1.0 - sig) * d == r
  {
    Pivot(sig, c0);
    var p := sig * c0 + 2.0;
    assert c == (sig - 1.0) / p && u == (r - sig * u0) / p;
    assert b * p == (sig - 1.0) * d + (r - sig * u0) by {
      assert c * p == sig - 1.0;
      assert u * p == r - sig * u0;
      assert b * p == c * p * d + u * p;
    }
    assert sig * a == sig * c0 * b + sig * u0;
  }

  /** The row divided by (h0+h1)/6 is the row: sig = h0/(h0+h1) and r = 6t/(h0+h1). */
  lemma Scaled(h0: real, h1: real, t: real, sig: real, r: real, a: real, b: real, d: real)
    requires h0 > 0.0 && h1 > 0.0 && sig == h0 / (h0 + h1) && r == 6.0 * t / (h0 + h1)
    requires sig * a + 2.0 * b + (1.0 - sig) * d == r
    ensures h0 / 6.0 * a + (h0 + h1) / 3.0 * b + h1 / 6.0 * d == t
  {
    var w := h0 + h1;
    assert sig * w == h0;
    assert (1.0 - sig) * w == h1;
    assert r * w == 6.0 * t;
    assert (sig * a + 2.0 * b + (1.0 - sig) * d) * w == h0 * a + 2.0 * w * b + h1 * d;
  }

  /** The clamped lower end: s0 = -s1/2 + (3/h) r gives (h/3) s0 + (h/6) s1 = r. */
  lemma ClampedLower(h: real, s0: real, s1: real, r: real)
    requires h > 0.0 && s0 == -0.5 * s1 + 3.0 / h * r
    ensures h / 3.0 * s0 + h / 6.0 * s1 == r
  {
    assert h / 3.0 * (3.0 / h * r) == r by {
      assert h / 3.0 * (3.0 / h) == 1.0;
    }
  }

  /**
   * The clamped upper end: the last value (un - u/2)/(c/2 + 1) together with
   * s[n-2] = c s[n-1] + u gives (h/6) s[n-2] + (h/3) s[n-1] = r when un = (3/h) r.
   */
  lemma ClampedUpper(h: real, c: real, u: real, un: real, a: real, b: real, r: real)
    requires h > 0.0 && -0.5 <= c <= 0.0
    requires un == 3.0 / h * r
    requires b == (un - 0.5 * u) / (0.5 * c + 1.0) && a == c * b + u
    ensures h / 6.0 * a + h / 3.0 * b == r
  {
    var q := 0.5 * c + 1.0;
    assert b * q == un - 0.5 * u;
    assert 0.5 * a + b == un;
    assert h / 3.0 * (3.0 / h * r) == r by {
      assert h / 3.0 * (3.0 / h) == 1.0;
    }
  }

  // ------------------------------------------------------- real arithmetic

  /** A part of a positive whole is a share strictly between 0 and 1. */
  lemma ShareBounds(v: real, w: real)
    requires 0.0 < v < w
    ensures 0.0 < v / w < 1.0
  {
    var q := v / w;
    assert q * w == v;
    PositiveFactor(q, w);
    assert (1.0 - q) * w == w - v;
    PositiveFactor(1.0 - q, w);
  }

  /** Two parts of the width h, each over h, add up to one. */
  lemma SumOverWidth(p: real, q: real, h: real)
    requires h > 0.0 && p + q == h
    ensures p / h + q / h == 1.0
  {
    assert p / h + q / h == (p + q) / h;
  }

  /** Dividing by the width before or after multiplying by d is the same. */
  lemma MulOverWidth(p: real, d: real, h: real)
    requires h != 0.0
    ensures p / h * d == p * d / h
  {
  }

  // --------------------------------------------------------- what it solves

  // A solution of the system is the interpolating spline the class promises:
  // it passes through every knot, the pieces meeting at an interior knot share
  // their slope there, a clamped end has the requested slope, and a natural
  // end has no curvature.

  /** The spline through fitted second derivatives passes through every knot. */
  lemma Interpolates(x: seq<real>, y: seq<real>, s: seq<real>)
    requires Fitted(x, y, s)
    ensures forall k :: 0 <= k < |x| ==> QOf(x, y, s, x[k]) == y[k]
  {
    forall k | 0 <= k < |x|
      ensures QOf(x, y, s, x[k]) == y[k]
    {
      QAtKnot(x, y, s, k);
    }
  }

  /** A solution's pieces meet with a common slope at every interior knot. */
  lemma SmoothInside(x: seq<real>, y: seq<real>, ypl: Option<real>, ypu: Option<real>, s: seq<real>)
    requires Solves(x, y, ypl, ypu, s)
    ensures forall k :: 0 < k < |x| - 1 ==> QpOf(x, y, s, x[k]) == LeftSlope(x, y, s, k)
  {
    forall k | 0 < k < |x| - 1
      ensures QpOf(x, y, s, x[k]) == LeftSlope(x, y, s, k)
    {
      assert Equation(x, y, ypl, ypu, s, k);
      RowIsSmoothSlope(x, y, s, k);
    }
  }

  /** A solution meets its lower end condition: slope ypl when clamped, no curvature when natural. */
  lemma LowerEndMet(x: seq<real>, y: seq<real>, ypl: Option<real>, ypu: Option<real>, s: seq<real>)
    requires Solves(x, y, ypl, ypu, s)
    ensures ypl.Some? ==> QpOf(x, y, s, x[0]) == ypl.value
    ensures ypl.None? ==> QppOf(x, y, s, x[0]) == 0.0
  {
    assert Equation(x, y, ypl, ypu, s, 0);
    if ypl.Some? {
      LowerEndIsSlope(x, y, s, ypl.value);
    } else {
      QAtKnot(x, y, s, 0);
    }
  }

  /** A solution meets its upper end condition: slope ypu when clamped, no curvature when natural. */
  lemma UpperEndMet(x: seq<real>, y: seq<real>, ypl: Option<real>, ypu: Option<real>, s: seq<real>)
    requires Solves(x, y, ypl, ypu, s)
    ensures ypu.Some? ==> QpOf(x, y, s, x[|x| - 1]) == ypu.value
    ensures ypu.None? ==> QppOf(x, y, s, x[|x| - 1]) == 0.0
  {
    assert Equation(x, y, ypl, ypu, s, |x| - 1);
    if ypu.Some? {
      UpperEndIsSlope(x, y, s, ypu.value);
    } else {
      QAtKnot(x, y, s, |x| - 1);
    }
  }

  /** Inside the domain, the bracketing interval holds the point and both weights lie in [0, 1]. */
  lemma WeightsInUnit(x: seq<real>, pt: real)
    requires |x| >= 2 && StrictlyIncreasing(x) && x[0] <= pt <= x[|x| - 1]
    ensures var (j, h, a, b) := Weights(x, pt);
            x[j] <= pt <= x[j + 1] && 0.0 <= a <= 1.0 && 0.0 <= b <= 1.0
  {
    LocateBrackets(x, pt);
    var (j, h, a, b) := Weights(x, pt);
    DivBounds(x[j + 1] - pt, h, 0.0, 1.0);
    DivBounds(pt - x[j], h, 0.0, 1.0);
  }

  /** `q`, `qp` and `qpp` on the interval `find` returns are the spline's values there. */
  lemma PiecesAt(x: seq<real>, y: seq<real>, s: seq<real>, pt: real, iv: Interval)
    requires Fitted(x, y, s) && iv.hi == iv.lo + 1
    requires && iv.lo == Weights(x, pt).0 && iv.width == Weights(x, pt).1
             && iv.a == Weights(x, pt).2 && iv.b == Weights(x, pt).3
    ensures iv.hi < |x| && iv.width != 0.0
    ensures QOf(x, y, s, pt) == Piece(iv.width, y[iv.lo], y[iv.hi], s[iv.lo], s[iv.hi], iv.a, iv.b)
    ensures QpOf(x, y, s, pt) == PieceP(iv.width, y[iv.lo], y[iv.hi], s[iv.lo], s[iv.hi], iv.a, iv.b)
    ensures QppOf(x, y, s, pt) == PiecePP(s[iv.lo], s[iv.hi], iv.a, iv.b)
  {
  }

  // ------------------------------------------------------------ arguments

  /** `@args` */
  datatype Args = Args(data: Value, ypLower: Value, ypUpper: Value, strictDomain: Value)

  /** The argument Hash given to `configure`: each key present or absent. */
  datatype Config = Config(data: Option<Value>, ypLower: Option<Value>, ypUpper: Option<Value>,
                           strictDomain: Option<Value>)

  /** The arguments `reset` installs. */
  function Defaults(): Args
  {
    Args(Nil, Nil, Nil, Bool(true))
  }

  /** `@args.merge!(args)`: every key given replaces the stored one. */
  function Merge(a: Args, c: Config): (r: Args)
    ensures c.data.None? ==> r.data == a.data
    ensures c.data.Some? ==> r.data == c.data.value
    ensures c.ypLower.None? ==> r.ypLower == a.ypLower
    ensures c.ypLower.Some? ==> r.ypLower == c.ypLower.value
    ensures c.ypUpper.None? ==> r.ypUpper == a.ypUpper
    ensures c.ypUpper.Some? ==> r.ypUpper == c.ypUpper.value
    ensures c.strictDomain.None? ==> r.strictDomain == a.strictDomain
    ensures c.strictDomain.Some? ==> r.strictDomain == c.strictDomain.value
  {
    Args(if c.data.Some? then c.data.value else a.data,
         if c.ypLower.Some? then c.ypLower.value else a.ypLower,
         if c.ypUpper.Some? then c.ypUpper.value else a.ypUpper,
         if c.strictDomain.Some? then c.strictDomain.value else a.strictDomain)
  }

  /** Arguments the model can hold: the data has no infinite Float, and neither slope is one. */
  predicate FiniteArgs(a: Args)
  {
    Finite(a.data) && !a.ypLower.Infinity? && !a.ypUpper.Infinity?
  }

  /** Values given in a configuration hold no infinite Float. */
  predicate FiniteConfig(c: Config)
  {
    && (c.data.Some? ==> Finite(c.data.value))
    && (c.ypLower.Some? ==> !c.ypLower.value.Infinity?)
    && (c.ypUpper.Some? ==> !c.ypUpper.value.Infinity?)
  }

  /**
   * An end-slope argument as `configure` reads it: nothing when falsy, its
   * `to_f` otherwise, and ArgumentError when `to_f` fails.
   */
  function EndSlope(v: Value): (r: Result<Option<real>>)
    requires !v.Infinity?
    ensures !Truthy(v) ==> r == Ok(None)
    ensures Truthy(v) && ToF(v).Ok? ==> r == Ok(Some(ToF(v).value))
    ensures Truthy(v) && ToF(v).Err? ==> r == Err(ArgumentError)
  {
    if !Truthy(v) then Ok(None)
    else match ToF(v)
      case Ok(f) => Ok(Some(f))
      case Err(_) => Err(ArgumentError)
  }

  /** What `find` returns: the bracketing indices, the width and the two weights. */
  datatype Interval = Interval(lo: nat, hi: nat, width: real, a: real, b: real)

  /** The domain check of `find`: a strict spline refuses a point outside [x[0], x[n-1]]. */
  predicate Refused(strictDomain: Value, x: seq<real>, pt: real)
    requires |x| >= 2
  {
    Truthy(strictDomain) && (pt < x[0] || pt > x[|x| - 1])
  }

  // ---------------------------------------------------------------- the class

  class CubicSpline {
    var args: Args
    /** `@ypl`, `@ypu`: the end slopes read by the last `configure`; None for nil */
    var ypl: Option<real>
    var ypu: Option<real>
    /** `@strict_domain` */
    var strictDomain: Value
    /** `@h`, the knot table in insertion order */
    var h: seq<(real, real)>
    /** `@x`, `@y`: the sorted knot columns, empty for nil */
    var x: seq<real>
    var y: seq<real>
    /** `@ypp`, the second derivatives; None for nil */
    var ypp: Option<seq<real>>
    /** The end slopes `@ypp` was computed for, which a failed `configure` can leave behind `ypl`, `ypu`. */
    ghost var ends: (Option<real>, Option<real>)

    ghost predicate Valid()
      reads this
    {
      && DistinctKeys(h)
      && FiniteArgs(args)
      && (ypp.Some? ==> && |h| >= 2 && x == Xs(SortByKey(h)) && y == Ys(SortByKey(h))
                        && Solves(x, y, ends.0, ends.1, ypp.value))
    }

    /** `dirty?` */
    predicate Dirty()
      reads this
    {
      ypp.None? || |ypp.value| != |h|
    }

    /** `initialize({})`: `reset`, then `configure({})`, which reads nil end slopes and a strict domain. */
    constructor ()
      ensures Valid() && Dirty()
      ensures args == Defaults() && h == []
      ensures ypl.None? && ypu.None? && strictDomain == Bool(true)
    {
      args := Defaults();
      h := [];
      x, y, ypp := [], [], None;
      ypl, ypu := None, None;
      strictDomain := Bool(true);
    }

    /**
     * `reset`: default arguments, then `clear`. The end slopes and the domain
     * flag already read keep their values until the next `configure`.
     */
    method Reset()
      modifies this
      ensures Valid() && Dirty()
      ensures args == Defaults() && h == []
      ensures ypl == old(ypl) && ypu == old(ypu) && strictDomain == old(strictDomain)
    {
      args := Defaults();
      Clear();
    }

    /** `clear`: forget every knot, keep the arguments. */
    method Clear()
      modifies this
      ensures Dirty() && h == [] && args == old(args)
      ensures ypl == old(ypl) && ypu == old(ypu) && strictDomain == old(strictDomain)
      ensures FiniteArgs(args) ==> Valid()
    {
      h := [];
      MarkDirty();
    }

    /** `dirty!` */
    method MarkDirty()
      modifies this
      ensures x == [] && y == [] && ypp.None?
      ensures h == old(h) && args == old(args)
      ensures ypl == old(ypl) && ypu == old(ypu) && strictDomain == old(strictDomain)
    {
      x, y, ypp := [], [], None;
    }

    /**
     * `configure(args)`: merge the arguments, read the end slopes (a failure
     * raises ArgumentError with the lower slope possibly already replaced and
     * nothing marked dirty), copy the domain flag, replace the knots when data
     * is given, and mark the spline dirty.
     */
    method Configure(c: Config) returns (o: Outcome)
      requires Valid() && FiniteConfig(c)
      modifies this
      ensures Valid() && args.ypLower == Merge(old(args), c).ypLower && args.ypUpper == Merge(old(args), c).ypUpper
      ensures var merged := Merge(old(args), c);
              var lo := EndSlope(merged.ypLower);
              var hi := EndSlope(merged.ypUpper);
              && (lo.Err? ==> && o == Fail(ArgumentError) && args == merged && ypl.None? && ypu.None?
                              && strictDomain == old(strictDomain) && h == old(h) && ypp == old(ypp))
              && (lo.Ok? && hi.Err? ==> && o == Fail(ArgumentError) && args == merged && ypl == lo.value && ypu.None?
                                        && strictDomain == old(strictDomain) && h == old(h) && ypp == old(ypp))
              && (lo.Ok? && hi.Ok? ==> && ypl == lo.value && ypu == hi.value && strictDomain == merged.strictDomain
                                       && Dirty())
              && (lo.Ok? && hi.Ok? && !Truthy(merged.data) ==> o == Pass && args == merged && h == old(h))
              && (lo.Ok? && hi.Ok? && Truthy(merged.data) && Canonical(merged.data).Err? ==>
                    o == Fail(ArgumentError) && args == merged && h == [])
              && (lo.Ok? && hi.Ok? && Truthy(merged.data) && Canonical(merged.data).Ok? ==>
                    o == Pass && args == merged.(data := Nil) && h == EnterAll([], Canonical(merged.data).value))
    {
      args := Merge(args, c);
      o := ReadSlopes();
      if o.Fail? {
        return;
      }
      strictDomain := args.strictDomain;
      o := Reload();
    }

    /**
     * The `begin ... rescue` block of `configure`: both slopes to nil, then
     * each truthy one through `to_f`, ArgumentError at the first failure.
     */
    method ReadSlopes() returns (o: Outcome)
      requires Valid()
      modifies this
      ensures Valid() && args == old(args) && h == old(h) && strictDomain == old(strictDomain)
      ensures x == old(x) && y == old(y) && ypp == old(ypp) && ends == old(ends)
      ensures EndSlope(args.ypLower).Err? ==> o == Fail(ArgumentError) && ypl.None? && ypu.None?
      ensures EndSlope(args.ypLower).Ok? && EndSlope(args.ypUpper).Err? ==>
                o == Fail(ArgumentError) && ypl == EndSlope(args.ypLower).value && ypu.None?
      ensures EndSlope(args.ypLower).Ok? && EndSlope(args.ypUpper).Ok? ==>
                o == Pass && ypl == EndSlope(args.ypLower).value && ypu == EndSlope(args.ypUpper).value
    {
      ypl, ypu := None, None;
      var lo := EndSlope(args.ypLower);
      if lo.Err? {
        return Fail(ArgumentError);
      }
      ypl := lo.value;
      var hi := EndSlope(args.ypUpper);
      if hi.Err? {
        return Fail(ArgumentError);
      }
      ypu := hi.value;
      o := Pass;
    }

    /**
     * The rest of `configure`: replace the knots with truthy `:data` (cleared
     * first, so a malformed value leaves no knots), forget the data argument,
     * and mark the spline dirty.
     */
    method Reload() returns (o: Outcome)
      requires Valid()
      modifies this
      ensures Valid() && Dirty() && ypl == old(ypl) && ypu == old(ypu) && strictDomain == old(strictDomain)
      ensures !Truthy(old(args).data) ==> o == Pass && args == old(args) && h == old(h)
      ensures Truthy(old(args).data) && Canonical(old(args).data).Err? ==>
                o == Fail(ArgumentError) && args == old(args) && h == []
      ensures Truthy(old(args).data) && Canonical(old(args).data).Ok? ==>
                o == Pass && args == old(args).(data := Nil) && h == EnterAll([], Canonical(old(args).data).value)
    {
      if Truthy(args.data) {
        Clear();
        var d := Canonical(args.data);
        if d.Err? {
          return Fail(ArgumentError);
        }
        Enter(d.value);
        args := args.(data := Nil);
      }
      MarkDirty();
      o := Pass;
    }

    /** `put(data)` and `<<`: enter the knots of any accepted shape. */
    method Put(data: Value) returns (o: Outcome)
      requires Valid() && Finite(data)
      modifies this
      ensures Valid() && args == old(args) && ypl == old(ypl) && ypu == old(ypu)
      ensures strictDomain == old(strictDomain)
      ensures Canonical(data).Err? ==> o == Fail(ArgumentError) && unchanged(this)
      ensures Canonical(data).Ok? ==> o == Pass && h == EnterAll(old(h), Canonical(data).value)
      ensures Canonical(data).Ok? && |Canonical(data).value| == 0 ==> unchanged(this) && Dirty() == old(Dirty())
      ensures Canonical(data).Ok? && |Canonical(data).value| > 0 ==> Dirty()
    {
      var d := Canonical(data);
      if d.Err? {
        return Fail(ArgumentError);
      }
      Enter(d.value);
      o := Pass;
    }

    /**
     * `enter(data)`: store each knot, a later x overwriting an earlier one;
     * an empty list changes nothing, not even the fitted state.
     */
    method Enter(data: seq<(real, real)>)
      requires Valid()
      modifies this
      ensures Valid() && args == old(args) && ypl == old(ypl) && ypu == old(ypu)
      ensures strictDomain == old(strictDomain)
      ensures h == EnterAll(old(h), data)
      ensures |data| == 0 ==> x == old(x) && y == old(y) && ypp == old(ypp)
      ensures |data| == 0 ==> unchanged(this)
      ensures |data| > 0 ==> Dirty()
    {
      if |data| == 0 {
        return;
      }
      for i := 0 to |data|
        invariant h == EnterAll(old(h), data[..i]) && DistinctKeys(h)
        invariant args == old(args) && ypl == old(ypl) && ypu == old(ypu) && strictDomain == old(strictDomain)
      {
        assert data[..i + 1][..i] == data[..i];
        StoreDistinct(h, data[i].0, data[i].1);
        h := Store(h, data[i].0, data[i].1);
      }
      assert data[..|data|] == data;
      MarkDirty();
    }

    /**
     * `recompute`: when dirty, sort the knots into x and y and solve for the
     * second derivatives with the current end slopes.
     */
    method Recompute() returns (o: Outcome)
      requires Valid()
      modifies this
      ensures Valid() && h == old(h) && args == old(args)
      ensures ypl == old(ypl) && ypu == old(ypu) && strictDomain == old(strictDomain)
      ensures o.Pass? <==> ypp.Some?
      ensures o.Pass? ==> !Dirty()
      ensures !old(Dirty()) ==> o == Pass && x == old(x) && y == old(y) && ypp == old(ypp) && ends == old(ends)
      ensures old(Dirty()) && |h| == 0 ==> o == Fail(NoMethodError)
      ensures old(Dirty()) && |h| == 1 ==> o == Fail(ArgumentError)
      ensures old(Dirty()) && |h| >= 2 ==> && o == Pass && x == Xs(SortByKey(h)) && y == Ys(SortByKey(h))
                                           && ends == (ypl, ypu)
    {
      if !Dirty() {
        return Pass;
      }
      if |h| == 0 {
        x, y, ypp := [], [], None;
        return Fail(NoMethodError);
      }
      SortKnots();
      if |y| < 2 {
        return Fail(ArgumentError);
      }
      Solve();
      o := Pass;
    }

    /** The last step of `recompute`: `compute_ypp` on the sorted knots with the current end slopes. */
    method Solve()
      requires Valid() && |h| >= 2 && x == Xs(SortByKey(h)) && y == Ys(SortByKey(h)) && Fit(x, y)
      modifies this
      ensures Valid() && ypp.Some? && !Dirty() && ends == (ypl, ypu)
      ensures h == old(h) && args == old(args) && x == old(x) && y == old(y)
      ensures ypl == old(ypl) && ypu == old(ypu) && strictDomain == old(strictDomain)
    {
      var v := ComputeYpp(x, y, ypl, ypu);
      ypp := Some(v);
      ends := (ypl, ypu);
    }

    /** The first step of `recompute`: `@x, @y = @h.to_a.sort.transpose` for a non-empty table. */
    method SortKnots()
      requires Valid() && |h| >= 1
      modifies this
      ensures Valid() && ypp.None? && h == old(h) && args == old(args)
      ensures ypl == old(ypl) && ypu == old(ypu) && strictDomain == old(strictDomain)
      ensures x == Xs(SortByKey(h)) && y == Ys(SortByKey(h)) && |y| == |h|
      ensures |h| >= 2 ==> Fit(x, y)
    {
      var s := SortByKey(h);
      ColumnsFit(h);
      x, y, ypp := Xs(s), Ys(s), None;
    }

    /**
     * `find(x)`: ArgumentError for a point outside the knots when the domain
     * is strict; otherwise the interval found by bisection, its width and
     * the weights of its two ends, which sum to one.
     */
    method Find(pt: real) returns (r: Result<Interval>)
      requires |x| >= 2 && StrictlyIncreasing(x)
      ensures r.Err? <==> Refused(strictDomain, x, pt)
      ensures r.Err? ==> r.error == ArgumentError
      ensures r.Ok? ==> && r.value.hi == r.value.lo + 1
                        && r.value.lo == Weights(x, pt).0 && r.value.width == Weights(x, pt).1
                        && r.value.a == Weights(x, pt).2 && r.value.b == Weights(x, pt).3
                        && r.value.a + r.value.b == 1.0
    {
      if Truthy(strictDomain) && (pt < x[0] || pt > x[|x| - 1]) {
        return Err(ArgumentError);
      }
      var jlo, jhi := Bracket(x, pt);
      var hh := x[jhi] - x[jlo];
      r := Ok(Interval(jlo, jhi, hh, (x[jhi] - pt) / hh, (pt - x[jlo]) / hh));
    }

    /** `domain`: the first and last knot, after recomputing if dirty. */
    method Domain() returns (r: Result<(real, real)>)
      requires Valid()
      modifies this
      ensures Valid() && h == old(h) && args == old(args)
      ensures r.Ok? <==> ypp.Some?
      ensures r.Ok? ==> r.value == (x[0], x[|x| - 1]) && r.value.0 < r.value.1
      ensures !old(Dirty()) ==> r.Ok?
    {
      var o := Recompute();
      if o.Fail? {
        return Err(o.error);
      }
      r := Ok((x[0], x[|x| - 1]));
    }

    /**
     * What `q`, `qp` and `qpp` share: recompute if dirty, convert the
     * argument with `to_f`, then `find` its interval.
     */
    method Prepare(pt: Value) returns (r: Result<Interval>)
      requires Valid() && !pt.Infinity?
      modifies this
      ensures Valid() && h == old(h) && args == old(args)
      ensures ypl == old(ypl) && ypu == old(ypu) && strictDomain == old(strictDomain)
      ensures !old(Dirty()) ==> ypp.Some?
      ensures ypp.None? || ToF(pt).Err? ==> r.Err?
      ensures ypp.Some? && ToF(pt).Ok? ==> (r.Err? <==> Refused(strictDomain, x, ToF(pt).value))
      ensures r.Ok? ==> && ToF(pt).Ok? && ypp.Some? && Fitted(x, y, ypp.value) && r.value.hi == r.value.lo + 1
                        && r.value.lo == Weights(x, ToF(pt).value).0 && r.value.width == Weights(x, ToF(pt).value).1
                        && r.value.a == Weights(x, ToF(pt).value).2 && r.value.b == Weights(x, ToF(pt).value).3
    {
      var o := Recompute();
      if o.Fail? {
        return Err(o.error);
      }
      var p := ToF(pt);
      if p.Err? {
        return Err(p.error);
      }
      r := Find(p.value);
    }

    /** `q(x)`: the spline's value at x. */
    method Q(pt: Value) returns (r: Result<real>)
      requires Valid() && !pt.Infinity?
      modifies this
      ensures Valid() && h == old(h) && args == old(args)
      ensures !old(Dirty()) ==> ypp.Some?
      ensures ypp.None? || ToF(pt).Err? ==> r.Err?
      ensures ypp.Some? && ToF(pt).Ok? ==> (r.Err? <==> Refused(strictDomain, x, ToF(pt).value))
      ensures r.Ok? ==> && ToF(pt).Ok? && ypp.Some? && Solves(x, y, ends.0, ends.1, ypp.value)
                        && r.value == QOf(x, y, ypp.value, ToF(pt).value)
    {
      var c := Prepare(pt);
      if c.Err? {
        return Err(c.error);
      }
      var iv := c.value;
      var s := ypp.value;
      PiecesAt(x, y, s, ToF(pt).value, iv);
      r := Ok(Piece(iv.width, y[iv.lo], y[iv.hi], s[iv.lo], s[iv.hi], iv.a, iv.b));
    }

    /** `qp(x)`: the spline's slope at x. */
    method Qp(pt: Value) returns (r: Result<real>)
      requires Valid() && !pt.Infinity?
      modifies this
      ensures Valid() && h == old(h) && args == old(args)
      ensures !old(Dirty()) ==> ypp.Some?
      ensures ypp.None? || ToF(pt).Err? ==> r.Err?
      ensures ypp.Some? && ToF(pt).Ok? ==> (r.Err? <==> Refused(strictDomain, x, ToF(pt).value))
      ensures r.Ok? ==> && ToF(pt).Ok? && ypp.Some? && Solves(x, y, ends.0, ends.1, ypp.value)
                        && r.value == QpOf(x, y, ypp.value, ToF(pt).value)
    {
      var c := Prepare(pt);
      if c.Err? {
        return Err(c.error);
      }
      var iv := c.value;
      var s := ypp.value;
      PiecesAt(x, y, s, ToF(pt).value, iv);
      r := Ok(PieceP(iv.width, y[iv.lo], y[iv.hi], s[iv.lo], s[iv.hi], iv.a, iv.b));
    }

    /** `qpp(x)`: the spline's second derivative at x. */
    method Qpp(pt: Value) returns (r: Result<real>)
      requires Valid() && !pt.Infinity?
      modifies this
      ensures Valid() && h == old(h) && args == old(args)
      ensures !old(Dirty()) ==> ypp.Some?
      ensures ypp.None? || ToF(pt).Err? ==> r.Err?
      ensures ypp.Some? && ToF(pt).Ok? ==> (r.Err? <==> Refused(strictDomain, x, ToF(pt).value))
      ensures r.Ok? ==> && ToF(pt).Ok? && ypp.Some? && Solves(x, y, ends.0, ends.1, ypp.value)
                        && r.value == QppOf(x, y, ypp.value, ToF(pt).value)
    {
      var c := Prepare(pt);
      if c.Err? {
        return Err(c.error);
      }
      var iv := c.value;
      var s := ypp.value;
      PiecesAt(x, y, s, ToF(pt).value, iv);
      r := Ok(PiecePP(s[iv.lo], s[iv.hi], iv.a, iv.b));
    }
  }
}
