/**
 * lib/capricious/spline_distribution.rb: a distribution estimated from
 * samples. The sampled cdf is fitted with a monotonic cubic Hermite spline,
 * closed at each end by a bound knot, one more fitted knot (SPLINE) or an
 * exponential tail (INFINITE); the pdf is the spline's slope, and the mean
 * and variance are integrals over the pieces and tails.
 */
module Distributions {
  import opened Wrappers
  import opened Knots
  import opened Elementary
  import opened Hermite
  import opened Samples

  // ---------------------------------------------------------------- the tails

  /**
   * The SPLINE lower tail of `recompute`: the knot b where the tangent at
   * the first knot (x, y) with slope yp reaches 0. RuntimeError unless the
   * slope is positive and b lies left of x, which is exactly when y > 0.
   */
  function LowerTailKnot(x: real, y: real, yp: real): (r: Result<real>)
    ensures r.Ok? <==> yp > 0.0 && y > 0.0
    ensures r.Err? ==> r.error == RuntimeError
    ensures r.Ok? ==> r.value < x && y + yp * (r.value - x) == 0.0
  {
    if yp <= 0.0 then Err(RuntimeError)
    else
      var b := (x * yp - y) / yp;
      TangentRoot(x, y, yp, 0.0, b);
      if b >= x then Err(RuntimeError) else Ok(b)
  }

  /**
   * The SPLINE upper tail: the knot b where the tangent at the last knot
   * (x, y) reaches 1. RuntimeError unless the slope is positive and b lies
   * right of x, which is exactly when y < 1.
   */
  function UpperTailKnot(x: real, y: real, yp: real): (r: Result<real>)
    ensures r.Ok? <==> yp > 0.0 && y < 1.0
    ensures r.Err? ==> r.error == RuntimeError
    ensures r.Ok? ==> r.value > x && y + yp * (r.value - x) == 1.0
  {
    if yp <= 0.0 then Err(RuntimeError)
    else
      var b := (1.0 + x * yp - y) / yp;
      TangentRoot(x, y, yp, 1.0, b);
      if b <= x then Err(RuntimeError) else Ok(b)
  }

  /** The tangent at (x, y) with slope yp > 0 reaches level v at b = (v + x yp - y)/yp, right of x iff y < v. */
  lemma TangentRoot(x: real, y: real, yp: real, v: real, b: real)
    requires yp > 0.0 && b == (v + x * yp - y) / yp
    ensures y + yp * (b - x) == v
    ensures b - x == (v - y) / yp
    ensures (b < x <==> y > v) && (b > x <==> y < v)
  {
    assert b * yp == v + x * yp - y;
    assert (b - x) * yp == v - y;
    if b < x {
      assert (b - x) * yp < 0.0;
    }
    if b > x {
      assert (b - x) * yp > 0.0;
    }
    if y > v {
      PositiveFactor(x - b, yp);
    }
    if y < v {
      PositiveFactor(b - x, yp);
    }
  }

  /** The INFINITE lower tail's cdf exp(a t + c) at t. */
  function LowerTail(a: real, c: real, t: real, exp: real -> real): real
  {
    exp(t * a + c)
  }

  /** The INFINITE upper tail's cdf 1 - exp(c - a t) at t. */
  function UpperTail(a: real, c: real, t: real, exp: real -> real): real
  {
    1.0 - exp(c - t * a)
  }

  /** The lower tail's density a exp(a t + c), the derivative of LowerTail. */
  function LowerTailDensity(a: real, c: real, t: real, exp: real -> real): real
  {
    a * exp(t * a + c)
  }

  /** The upper tail's density a exp(c - a t), the derivative of UpperTail. */
  function UpperTailDensity(a: real, c: real, t: real, exp: real -> real): real
  {
    a * exp(c - t * a)
  }

  /**
   * The INFINITE lower tail: cdf(x) = exp(a x + b) below the first knot,
   * with a = yp/y and b = log(y) - yp x/y. RuntimeError unless y > 0 and
   * a > 0.
   */
  function LowerExp(x: real, y: real, yp: real, log: real -> real): (r: Result<(real, real)>)
    ensures r.Ok? <==> y > 0.0 && yp > 0.0
    ensures r.Err? ==> r.error == RuntimeError
    ensures r.Ok? ==> r.value.0 > 0.0 && r.value.0 * y == yp && x * r.value.0 + r.value.1 == log(y)
  {
    if y <= 0.0 then Err(RuntimeError)
    else
      var a := yp / y;
      if a <= 0.0 then Err(RuntimeError)
      else
        Ratio(yp, y, x);
        Ok((a, log(y) - yp * x / y))
  }

  /**
   * The INFINITE upper tail: cdf(x) = 1 - exp(b - a x) above the last knot,
   * with a = yp/(1-y) and b = log(1-y) + yp x/(1-y). RuntimeError unless
   * y < 1 and a > 0.
   */
  function UpperExp(x: real, y: real, yp: real, log: real -> real): (r: Result<(real, real)>)
    ensures r.Ok? <==> y < 1.0 && yp > 0.0
    ensures r.Err? ==> r.error == RuntimeError
    ensures r.Ok? ==> r.value.0 > 0.0 && r.value.0 * (1.0 - y) == yp && r.value.1 - x * r.value.0 == log(1.0 - y)
  {
    if y >= 1.0 then Err(RuntimeError)
    else
      var a := yp / (1.0 - y);
      if a <= 0.0 then Err(RuntimeError)
      else
        Ratio(yp, 1.0 - y, x);
        Ok((a, log(1.0 - y) + yp * x / (1.0 - y)))
  }

  /** a = p/s for s > 0: a s = p, a > 0 exactly when p > 0, and x a = p x/s. */
  lemma Ratio(p: real, s: real, x: real)
    requires s > 0.0
    ensures p / s * s == p
    ensures p / s > 0.0 <==> p > 0.0
    ensures x * (p / s) == p * x / s
  {
    if p / s > 0.0 {
      assert p / s * s > 0.0;
    }
    if p > 0.0 {
      PositiveFactor(p / s, s);
    }
  }

  /**
   * The lower tail meets the spline where it was fitted: at x the tail cdf
   * is y and the tail pdf is yp, so cdf and pdf are continuous there.
   */
  lemma LowerExpMeets(x: real, y: real, yp: real, exp: real -> real, log: real -> real)
    requires ExpLogLaw(exp, log) && LowerExp(x, y, yp, log).Ok?
    ensures var a, b := LowerExp(x, y, yp, log).value.0, LowerExp(x, y, yp, log).value.1;
            LowerTail(a, b, x, exp) == y && LowerTailDensity(a, b, x, exp) == yp
  {
    var a, b := LowerExp(x, y, yp, log).value.0, LowerExp(x, y, yp, log).value.1;
    assert y > 0.0 && a * y == yp && x * a + b == log(y);
    ExpAt(exp, log, y, x * a + b);
    LowerTailAt(a, b, x, exp, y);
  }

  /** The upper tail meets the spline where it was fitted: 1 - exp(b - a x) is y there, its slope yp. */
  lemma UpperExpMeets(x: real, y: real, yp: real, exp: real -> real, log: real -> real)
    requires ExpLogLaw(exp, log) && UpperExp(x, y, yp, log).Ok?
    ensures var a, b := UpperExp(x, y, yp, log).value.0, UpperExp(x, y, yp, log).value.1;
            UpperTail(a, b, x, exp) == y && UpperTailDensity(a, b, x, exp) == yp
  {
    var a, b := UpperExp(x, y, yp, log).value.0, UpperExp(x, y, yp, log).value.1;
    assert a * (1.0 - y) == yp && b - x * a == log(1.0 - y);
    ExpAt(exp, log, 1.0 - y, b - x * a);
    UpperTailAt(a, b, x, exp, 1.0 - y);
  }

  /** The lower tail at t, once exp(a t + c) is known to be e. */
  lemma LowerTailAt(a: real, c: real, t: real, exp: real -> real, e: real)
    requires exp(t * a + c) == e
    ensures LowerTail(a, c, t, exp) == e && LowerTailDensity(a, c, t, exp) == a * e
  {
  }

  /** The upper tail at t, once exp(c - a t) is known to be e. */
  lemma UpperTailAt(a: real, c: real, t: real, exp: real -> real, e: real)
    requires exp(c - t * a) == e
    ensures UpperTail(a, c, t, exp) == 1.0 - e && UpperTailDensity(a, c, t, exp) == a * e
  {
  }

  /** exp at the log of a positive y is y. */
  lemma ExpAt(exp: real -> real, log: real -> real, y: real, u: real)
    requires ExpLogLaw(exp, log) && y > 0.0 && u == log(y)
    ensures exp(u) == y
  {
  }

  // ---------------------------------------------------------------- the moments

  /**
   * The slope of the Hermite piece, as the quadratic a t^2 + b t + c in the
   * local coordinate t that `compute_moments` integrates.
   */
  function PdfCoefficients(h: real, y0: real, m0: real, y1: real, m1: real): (real, real, real)
    requires h != 0.0
  {
    ((6.0 * y0 + 3.0 * h * m0 - 6.0 * y1 + 3.0 * h * m1) / h,
     (-6.0 * y0 - 4.0 * h * m0 + 6.0 * y1 - 2.0 * h * m1) / h,
     1.0 * h * m0 / h)
  }

  /** The pdf of the piece is the Hermite slope: CubicP is exactly a t^2 + b t + c. */
  lemma PdfIsQuadratic(t: real, h: real, y0: real, m0: real, y1: real, m1: real)
    requires h != 0.0
    ensures var (a, b, c) := PdfCoefficients(h, y0, m0, y1, m1);
            CubicP(t, h, y0, m0, y1, m1) == a * t * t + b * t + c && c == m0
  {
    var (a, b, c) := PdfCoefficients(h, y0, m0, y1, m1);
    var na := 6.0 * y0 + 3.0 * h * m0 - 6.0 * y1 + 3.0 * h * m1;
    var nb := -6.0 * y0 - 4.0 * h * m0 + 6.0 * y1 - 2.0 * h * m1;
    var n := (6.0 * t * t - 6.0 * t) * y0 + (3.0 * t * t - 4.0 * t + 1.0) * h * m0
             + (6.0 * t - 6.0 * t * t) * y1 + (3.0 * t * t - 2.0 * t) * h * m1;
    assert n == na * t * t + nb * t + h * m0;
    assert CubicP(t, h, y0, m0, y1, m1) == n / h;
    DivSum(na, nb, h * m0, t, h);
    MulDiv(m0, h);
  }

  /** (p t^2 + q t + r)/h splits term by term. */
  lemma DivSum(p: real, q: real, r: real, t: real, h: real)
    requires h != 0.0
    ensures (p * t * t + q * t + r) / h == p / h * t * t + q / h * t + r / h
  {
  }

  /** The polynomial with coefficients p (lowest degree first) at t. */
  function Poly(p: seq<real>, t: real): real
  {
    if |p| == 0 then 0.0 else Poly(p[..|p| - 1], t) + p[|p| - 1] * Power(t, |p| - 1)
  }

  function Power(t: real, k: nat): real
  {
    if k == 0 then 1.0 else t * Power(t, k - 1)
  }

  /** The integral over [0, 1] of the polynomial with coefficients p: the sum of p[k]/(k+1). */
  function Integral(p: seq<real>): real
  {
    if |p| == 0 then 0.0 else Integral(p[..|p| - 1]) + p[|p| - 1] / (|p| as real)
  }

  /** x pdf(x) on the piece from g of width h, as a polynomial in t: (g + h t)(c + b t + a t^2). */
  function FirstMomentIntegrand(g: real, h: real, a: real, b: real, c: real): seq<real>
  {
    [c * g, b * g + c * h, a * g + b * h, a * h]
  }

  /** x^2 pdf(x) on the piece, as a polynomial in t: (g + h t)^2 (c + b t + a t^2). */
  function SecondMomentIntegrand(g: real, h: real, a: real, b: real, c: real): seq<real>
  {
    [c * g * g, 2.0 * c * g * h + b * g * g, c * h * h + 2.0 * b * g * h + a * g * g,
     b * h * h + 2.0 * a * g * h, a * h * h]
  }

  /** The integrands are those products, at every t. */
  lemma IntegrandsExpand(g: real, h: real, a: real, b: real, c: real, t: real)
    ensures Poly(FirstMomentIntegrand(g, h, a, b, c), t) == (g + h * t) * (a * t * t + b * t + c)
    ensures Poly(SecondMomentIntegrand(g, h, a, b, c), t) == (g + h * t) * (g + h * t) * (a * t * t + b * t + c)
  {
    FirstIntegrandTerms(g, h, a, b, c, t);
    LineTimesQuadratic(g, h, a, b, c, t);
    SecondIntegrandTerms(g, h, a, b, c, t);
    SquareTimesQuadratic(g, h, a, b, c, t);
  }

  /** The first-moment integrand's value, term by term. */
  lemma FirstIntegrandTerms(g: real, h: real, a: real, b: real, c: real, t: real)
    ensures Poly(FirstMomentIntegrand(g, h, a, b, c), t)
         == c * g + (b * g + c * h) * t + (a * g + b * h) * (t * t) + a * h * (t * t * t)
  {
    Powers(t);
    PolyOf4(c * g, b * g + c * h, a * g + b * h, a * h, t);
  }

  /** The second-moment integrand's value, term by term. */
  lemma SecondIntegrandTerms(g: real, h: real, a: real, b: real, c: real, t: real)
    ensures Poly(SecondMomentIntegrand(g, h, a, b, c), t)
         == c * g * g + (2.0 * c * g * h + b * g * g) * t + (c * h * h + 2.0 * b * g * h + a * g * g) * (t * t)
            + (b * h * h + 2.0 * a * g * h) * (t * t * t) + a * h * h * (t * t * t * t)
  {
    Powers(t);
    PolyOf5(c * g * g, 2.0 * c * g * h + b * g * g, c * h * h + 2.0 * b * g * h + a * g * g,
            b * h * h + 2.0 * a * g * h, a * h * h, t);
  }

  /** (g + h t)(a t^2 + b t + c), collected by powers of t. */
  lemma LineTimesQuadratic(g: real, h: real, a: real, b: real, c: real, t: real)
    ensures (g + h * t) * (a * t * t + b * t + c)
         == c * g + (b * g + c * h) * t + (a * g + b * h) * (t * t) + a * h * (t * t * t)
  {
    var x := a * t * t + b * t + c;
    assert (g + h * t) * x == g * x + h * t * x;
    assert g * x == a * g * (t * t) + b * g * t + c * g;
    assert h * t * x == a * h * (t * t * t) + b * h * (t * t) + c * h * t;
  }

  /** (g + h t)^2 (a t^2 + b t + c), collected by powers of t. */
  lemma SquareTimesQuadratic(g: real, h: real, a: real, b: real, c: real, t: real)
    ensures (g + h * t) * (g + h * t) * (a * t * t + b * t + c)
         == c * g * g + (2.0 * c * g * h + b * g * g) * t + (c * h * h + 2.0 * b * g * h + a * g * g) * (t * t)
            + (b * h * h + 2.0 * a * g * h) * (t * t * t) + a * h * h * (t * t * t * t)
  {
    var x := a * t * t + b * t + c;
    assert (g + h * t) * (g + h * t) * x == g * g * x + 2.0 * g * h * t * x + h * h * (t * t) * x;
    assert g * g * x == a * g * g * (t * t) + b * g * g * t + c * g * g;
    assert 2.0 * g * h * t * x == 2.0 * a * g * h * (t * t * t) + 2.0 * b * g * h * (t * t) + 2.0 * c * g * h * t;
    assert h * h * (t * t) * x == a * h * h * (t * t * t * t) + b * h * h * (t * t * t) + c * h * h * (t * t);
  }

  lemma Powers(t: real)
    ensures Power(t, 1) == t && Power(t, 2) == t * t && Power(t, 3) == t * t * t && Power(t, 4) == t * t * t * t
  {
    assert Power(t, 0) == 1.0;
    assert Power(t, 1) == t;
    assert Power(t, 2) == t * t;
    assert Power(t, 3) == t * (t * t);
  }

  /** A cubic's value, term by term. */
  lemma PolyOf4(p0: real, p1: real, p2: real, p3: real, t: real)
    ensures Poly([p0, p1, p2, p3], t) == p0 + p1 * Power(t, 1) + p2 * Power(t, 2) + p3 * Power(t, 3)
  {
    assert Poly([p0], t) == p0 * Power(t, 0) by {
      assert [p0][..0] == [];
    }
    assert Power(t, 0) == 1.0;
    assert Poly([p0, p1], t) == Poly([p0], t) + p1 * Power(t, 1) by {
      assert [p0, p1][..1] == [p0];
    }
    assert Poly([p0, p1, p2], t) == Poly([p0, p1], t) + p2 * Power(t, 2) by {
      assert [p0, p1, p2][..2] == [p0, p1];
    }
    assert Poly([p0, p1, p2, p3], t) == Poly([p0, p1, p2], t) + p3 * Power(t, 3) by {
      assert [p0, p1, p2, p3][..3] == [p0, p1, p2];
    }
  }

  /** A quartic's value, term by term. */
  lemma PolyOf5(p0: real, p1: real, p2: real, p3: real, p4: real, t: real)
    ensures Poly([p0, p1, p2, p3, p4], t)
         == p0 + p1 * Power(t, 1) + p2 * Power(t, 2) + p3 * Power(t, 3) + p4 * Power(t, 4)
  {
    PolyOf4(p0, p1, p2, p3, t);
    assert [p0, p1, p2, p3, p4][..4] == [p0, p1, p2, p3];
  }

  /** The integral of a cubic, term by term. */
  lemma IntegralOf4(p0: real, p1: real, p2: real, p3: real)
    ensures Integral([p0, p1, p2, p3]) == p0 + p1 / 2.0 + p2 / 3.0 + p3 / 4.0
  {
    assert Integral([p0]) == p0 by {
      assert [p0][..0] == [];
    }
    assert Integral([p0, p1]) == Integral([p0]) + p1 / 2.0 by {
      assert [p0, p1][..1] == [p0];
    }
    assert Integral([p0, p1, p2]) == Integral([p0, p1]) + p2 / 3.0 by {
      assert [p0, p1, p2][..2] == [p0, p1];
    }
    assert Integral([p0, p1, p2, p3]) == Integral([p0, p1, p2]) + p3 / 4.0 by {
      assert [p0, p1, p2, p3][..3] == [p0, p1, p2];
    }
  }

  /** The integral of a quartic, term by term. */
  lemma IntegralOf5(p0: real, p1: real, p2: real, p3: real, p4: real)
    ensures Integral([p0, p1, p2, p3, p4]) == p0 + p1 / 2.0 + p2 / 3.0 + p3 / 4.0 + p4 / 5.0
  {
    IntegralOf4(p0, p1, p2, p3);
    assert [p0, p1, p2, p3, p4][..4] == [p0, p1, p2, p3];
  }

  /** The `ex` increment of one piece, as `compute_moments` accumulates it. */
  function FirstMomentPiece(g: real, h: real, a: real, b: real, c: real): real
  {
    h * (a * h / 4.0 + (a * g + b * h) / 3.0 + (b * g + c * h) / 2.0 + c * g)
  }

  /** The `ex` increment is h times the integral of (g + h t) pdf(t) over t in [0, 1]. */
  lemma FirstMomentPieceIntegrates(g: real, h: real, a: real, b: real, c: real)
    ensures FirstMomentPiece(g, h, a, b, c) == h * Integral(FirstMomentIntegrand(g, h, a, b, c))
  {
    IntegralOf4(c * g, b * g + c * h, a * g + b * h, a * h);
  }

  /** The `ex2` increment of one piece, as `compute_moments` accumulates it. */
  function SecondMomentPiece(g: real, h: real, a: real, b: real, c: real): real
  {
    var h2 := h * h;
    var g2 := g * g;
    h * (a * h2 / 5.0 + (b * h2 + 2.0 * a * g * h) / 4.0 + (c * h2 + 2.0 * b * g * h + a * g2) / 3.0
         + (2.0 * c * g * h + b * g2) / 2.0 + c * g2)
  }

  /** The `ex2` increment is h times the integral of (g + h t)^2 pdf(t) over t in [0, 1]. */
  lemma SecondMomentPieceIntegrates(g: real, h: real, a: real, b: real, c: real)
    ensures SecondMomentPiece(g, h, a, b, c) == h * Integral(SecondMomentIntegrand(g, h, a, b, c))
  {
    var p0, p1, p2 := c * g * g, 2.0 * c * g * h + b * g * g, c * h * h + 2.0 * b * g * h + a * g * g;
    var p3, p4 := b * h * h + 2.0 * a * g * h, a * h * h;
    IntegralOf5(p0, p1, p2, p3, p4);
    var i := Integral(SecondMomentIntegrand(g, h, a, b, c));
    assert i == p0 + p1 / 2.0 + p2 / 3.0 + p3 / 4.0 + p4 / 5.0;
    ScaleBoth(h, p4 / 5.0 + p3 / 4.0 + p2 / 3.0 + p1 / 2.0 + p0, i);
  }

  /** Equal reals stay equal when both are scaled by the same factor. */
  lemma ScaleBoth(h: real, u: real, v: real)
    requires u == v
    ensures h * u == h * v
  {
  }

  /** A share of E[X] and E[X^2]. */
  datatype Moment = Moment(ex: real, ex2: real)

  /** The pieces' contributions to E[X] and E[X^2] over the first k intervals. */
  function PieceMoments(x: seq<real>, y: seq<real>, m: seq<real>, k: nat): Moment
    requires Fitted(x, y, m) && k < |x|
  {
    if k == 0 then Moment(0.0, 0.0)
    else
      var sum := PieceMoments(x, y, m, k - 1);
      var j := k - 1;
      var h := x[j + 1] - x[j];
      var (a, b, c) := PdfCoefficients(h, y[j], m[j], y[j + 1], m[j + 1]);
      Moment(sum.ex + FirstMomentPiece(x[j], h, a, b, c), sum.ex2 + SecondMomentPiece(x[j], h, a, b, c))
  }

  /** The INFINITE lower tail's share of E[X] and E[X^2] below xl, for cdf exp(a x + b). */
  function LowerTailMoments(xl: real, a: real, b: real, exp: real -> real): Moment
    requires a != 0.0
  {
    Moment((xl - 1.0 / a) * exp(a * xl + b),
           (xl * xl - 2.0 * xl / a + 2.0 / (a * a)) * exp(a * xl + b))
  }

  /** The INFINITE upper tail's share above xu, for cdf 1 - exp(b - a x). */
  function UpperTailMoments(xu: real, a: real, b: real, exp: real -> real): Moment
    requires a != 0.0
  {
    Moment((xu + 1.0 / a) * exp(b - a * xu),
           (xu * xu + 2.0 * xu / a + 2.0 / (a * a)) * exp(b - a * xu))
  }

  /** E[X] and E[X^2]: the pieces, plus each INFINITE tail given. */
  function Moments(x: seq<real>, y: seq<real>, m: seq<real>, lower: Option<(real, real)>,
                   upper: Option<(real, real)>, exp: real -> real): Moment
    requires Fitted(x, y, m)
    requires lower.Some? ==> lower.value.0 != 0.0
    requires upper.Some? ==> upper.value.0 != 0.0
  {
    Total(PieceMoments(x, y, m, |x| - 1), LowerShare(x[0], lower, exp), UpperShare(x[|x| - 1], upper, exp))
  }

  /** The lower tail's share when it is INFINITE with parameters `lower`, else none. */
  function LowerShare(xl: real, lower: Option<(real, real)>, exp: real -> real): Moment
    requires lower.Some? ==> lower.value.0 != 0.0
  {
    if lower.Some? then LowerTailMoments(xl, lower.value.0, lower.value.1, exp) else Moment(0.0, 0.0)
  }

  /** The upper tail's share when it is INFINITE with parameters `upper`, else none. */
  function UpperShare(xu: real, upper: Option<(real, real)>, exp: real -> real): Moment
    requires upper.Some? ==> upper.value.0 != 0.0
  {
    if upper.Some? then UpperTailMoments(xu, upper.value.0, upper.value.1, exp) else Moment(0.0, 0.0)
  }

  function Total(p: Moment, l: Moment, u: Moment): Moment
  {
    Moment(p.ex + l.ex + u.ex, p.ex2 + l.ex2 + u.ex2)
  }

  /** Var[X] = E[X^2] - E[X]^2, set to 0 where rounding drives it negative. */
  function Variance(ex: real, ex2: real): (v: real)
    ensures v >= 0.0
    ensures ex2 - ex * ex >= 0.0 ==> v == ex2 - ex * ex
  {
    var v := ex2 - ex * ex;
    if v < 0.0 then 0.0 else v
  }

  /** The loop of compute_moments over the spline's intervals. */
  method SumPieces(x: seq<real>, y: seq<real>, m: seq<real>) returns (ex: real, ex2: real)
    requires Fitted(x, y, m)
    ensures Moment(ex, ex2) == PieceMoments(x, y, m, |x| - 1)
  {
    ex, ex2 := 0.0, 0.0;
    for j := 0 to |x| - 1
      invariant Moment(ex, ex2) == PieceMoments(x, y, m, j)
    {
      var h := x[j + 1] - x[j];
      var g := x[j];
      var (a, b, c) := PdfCoefficients(h, y[j], m[j], y[j + 1], m[j + 1]);
      ex := ex + FirstMomentPiece(g, h, a, b, c);
      ex2 := ex2 + SecondMomentPiece(g, h, a, b, c);
    }
  }

  /**
   * `compute_moments`: accumulate the pieces' integrals over the spline's
   * intervals, add the INFINITE tails, and derive the mean and variance.
   */
  method ComputeMoments(x: seq<real>, y: seq<real>, m: seq<real>, lower: Option<(real, real)>,
                        upper: Option<(real, real)>, exp: real -> real) returns (mean: real, variance: real)
    requires Fitted(x, y, m)
    requires lower.Some? ==> lower.value.0 != 0.0
    requires upper.Some? ==> upper.value.0 != 0.0
    ensures mean == Moments(x, y, m, lower, upper, exp).ex
    ensures variance == Variance(mean, Moments(x, y, m, lower, upper, exp).ex2)
  {
    var ex, ex2 := SumPieces(x, y, m);
    var n := |x|;
    var l := Moment(0.0, 0.0);
    if lower.Some? {
      l := LowerTailMoments(x[0], lower.value.0, lower.value.1, exp);
    }
    var u := Moment(0.0, 0.0);
    if upper.Some? {
      u := UpperTailMoments(x[n - 1], upper.value.0, upper.value.1, exp);
    }
    ex, ex2 := ex + l.ex + u.ex, ex2 + l.ex2 + u.ex2;
    assert Moment(ex, ex2) == Total(PieceMoments(x, y, m, n - 1), l, u);
    mean := ex;
    variance := Variance(ex, ex2);
  }

  // ------------------------------------------------------ the fitted spline

  /** The sampled cdf as `sampled_cdf` returns it: an Array of [x, q] Float pairs. */
  function PairsValue(ps: seq<(real, real)>): (v: Value)
    ensures Finite(v) && Canonical(v) == Ok(ps)
  {
    CanonicalOfPairs(ps);
    var es := seq(|ps|, i requires 0 <= i < |ps| => Arr([Float(ps[i].0), Float(ps[i].1)]));
    assert forall i :: 0 <= i < |es| ==> Finite(es[i].elems[0]) && Finite(es[i].elems[1]);
    Arr(es)
  }

  /**
   * The spline `recompute` works with: MONOTONIC gradients with the default
   * epsilon, its data already entered, its fixed gradients coerced.
   */
  ghost predicate Monotonic(s: CubicHermiteSpline)
    reads s
  {
    && s.Valid() && s.args.data == Nil && s.args.gradientMethod == Str(MonotonicMethod)
    && s.args.monotonicEpsilon == Defaults().monotonicEpsilon && s.args.fixedGradients.Coerced?
  }

  /** The knot with the least x of a table. */
  ghost function FirstKnot(h: seq<(real, real)>): (real, real)
    requires DistinctKeys(h) && |h| > 0
  {
    SortByKey(h)[0]
  }

  /** The knot with the greatest x of a table. */
  ghost function LastKnot(h: seq<(real, real)>): (real, real)
    requires DistinctKeys(h) && |h| > 0
  {
    SortByKey(h)[|h| - 1]
  }

  /** A fitted spline's columns start at the first knot and end at the last. */
  lemma Ends(s: CubicHermiteSpline)
    requires s.Valid() && s.m.Some?
    ensures |s.h| >= 2 && |s.x| == |s.h| && Fitted(s.x, s.y, s.m.value)
    ensures s.x[0] == FirstKnot(s.h).0 && s.y[0] == FirstKnot(s.h).1
    ensures s.x[|s.x| - 1] == LastKnot(s.h).0 && s.y[|s.x| - 1] == LastKnot(s.h).1
  {
  }

  /** A key left of the first knot is below every key and not yet stored. */
  lemma BeforeFirst(h: seq<(real, real)>, b: real)
    requires DistinctKeys(h) && |h| > 0 && b < FirstKnot(h).0
    ensures LowerBound(h, b) && Lookup(h, b).None?
  {
    FirstIsLeast(h);
  }

  /** A key right of the last knot is above every key and not yet stored. */
  lemma AfterLast(h: seq<(real, real)>, b: real)
    requires DistinctKeys(h) && |h| > 0 && b > LastKnot(h).0
    ensures UpperBound(h, b) && Lookup(h, b).None?
  {
    LastIsGreatest(h);
  }

  // ------------------------------------------- the fits, as functions of the knots

  /**
   * `@m` of the MONOTONIC spline (default epsilon) through the knot table h,
   * with the fixed gradients fg overriding the knots they name.
   */
  ghost function FitGradients(h: seq<(real, real)>, fg: seq<(real, real)>, sqrt: real -> real): (m: seq<real>)
    requires DistinctKeys(h) && |h| >= 2 && SqrtLaw(sqrt)
    ensures |m| == |h|
  {
    ColumnsFit(h);
    var x, y := Xs(SortByKey(h)), Ys(SortByKey(h));
    var g := MonotoneGradients(x, y, EpsReal(Defaults().monotonicEpsilon), false, sqrt);
    seq(|x|, j requires 0 <= j < |x| => FixedOr(fg, x[j], g[j]))
  }

  /** Two tables of fixed gradients that name the same knots with the same gradients. */
  ghost predicate SameTable(t: seq<(real, real)>, g: seq<(real, real)>)
  {
    forall k :: Lookup(t, k) == Lookup(g, k)
  }

  /** The fit depends on the fixed gradients only through what they name. */
  lemma FitGradientsSame(h: seq<(real, real)>, t: seq<(real, real)>, g: seq<(real, real)>, sqrt: real -> real)
    requires DistinctKeys(h) && |h| >= 2 && SqrtLaw(sqrt) && SameTable(t, g)
    ensures FitGradients(h, t, sqrt) == FitGradients(h, g, sqrt)
  {
    var x := Xs(SortByKey(h));
    assert forall j :: 0 <= j < |x| ==> Lookup(t, x[j]) == Lookup(g, x[j]);
  }

  /** The SPLINE lower end on the fit through h: where the tangent at the first knot reaches 0. */
  ghost function LowerTangent(h: seq<(real, real)>, fg: seq<(real, real)>, sqrt: real -> real): Result<real>
    requires DistinctKeys(h) && |h| >= 2 && SqrtLaw(sqrt)
  {
    LowerTailKnot(FirstKnot(h).0, FirstKnot(h).1, FitGradients(h, fg, sqrt)[0])
  }

  /** The SPLINE upper end on the fit through h: where the tangent at the last knot reaches 1. */
  ghost function UpperTangent(h: seq<(real, real)>, fg: seq<(real, real)>, sqrt: real -> real): Result<real>
    requires DistinctKeys(h) && |h| >= 2 && SqrtLaw(sqrt)
  {
    UpperTailKnot(LastKnot(h).0, LastKnot(h).1, FitGradients(h, fg, sqrt)[|h| - 1])
  }

  /** The knots once the lower end is closed: a SPLINE end whose check passes adds its knot at 0. */
  ghost function LowerKnots(h: seq<(real, real)>, fg: seq<(real, real)>, lb: Bound, sqrt: real -> real)
    : (r: seq<(real, real)>)
    requires DistinctKeys(h) && |h| >= 2 && SqrtLaw(sqrt)
    ensures DistinctKeys(r) && |r| >= 2
  {
    if lb.SplineTail? && LowerTangent(h, fg, sqrt).Ok? then
      StoreDistinct(h, LowerTangent(h, fg, sqrt).value, 0.0);
      Store(h, LowerTangent(h, fg, sqrt).value, 0.0)
    else h
  }

  /** The knots once the upper end is closed: a SPLINE end whose check passes adds its knot at 1. */
  ghost function UpperKnots(h: seq<(real, real)>, fg: seq<(real, real)>, ub: Bound, sqrt: real -> real)
    : (r: seq<(real, real)>)
    requires DistinctKeys(h) && |h| >= 2 && SqrtLaw(sqrt)
    ensures DistinctKeys(r) && |r| >= 2
  {
    if ub.SplineTail? && UpperTangent(h, fg, sqrt).Ok? then
      StoreDistinct(h, UpperTangent(h, fg, sqrt).value, 1.0);
      Store(h, UpperTangent(h, fg, sqrt).value, 1.0)
    else h
  }

  /**
   * The knots of the final spline from those of the first fit h: the lower
   * end is closed on the fit through h, and the upper end on the fit through
   * the knots that leaves, both with the first fixed gradients fg.
   */
  ghost function FinalKnots(h: seq<(real, real)>, fg: seq<(real, real)>, lb: Bound, ub: Bound, sqrt: real -> real)
    : (r: seq<(real, real)>)
    requires DistinctKeys(h) && |h| >= 2 && SqrtLaw(sqrt)
    ensures DistinctKeys(r) && |r| >= 2
  {
    UpperKnots(LowerKnots(h, fg, lb, sqrt), fg, ub, sqrt)
  }

  /** `gfix[b] = 0.0 if @cdf_smooth_lb` after a SPLINE lower end on the fit through h. */
  ghost function LowerFixed(gfix: seq<(real, real)>, h: seq<(real, real)>, fg: seq<(real, real)>, lb: Bound,
                            smooth: Value, sqrt: real -> real): seq<(real, real)>
    requires DistinctKeys(h) && |h| >= 2 && SqrtLaw(sqrt)
  {
    if lb.SplineTail? && Truthy(smooth) && LowerTangent(h, fg, sqrt).Ok? then Store(gfix, LowerTangent(h, fg, sqrt).value, 0.0)
    else gfix
  }

  /** `gfix[b] = 0.0 if @cdf_smooth_ub` after a SPLINE upper end on the fit through h. */
  ghost function UpperFixed(gfix: seq<(real, real)>, h: seq<(real, real)>, fg: seq<(real, real)>, ub: Bound,
                            smooth: Value, sqrt: real -> real): seq<(real, real)>
    requires DistinctKeys(h) && |h| >= 2 && SqrtLaw(sqrt)
  {
    if ub.SplineTail? && Truthy(smooth) && UpperTangent(h, fg, sqrt).Ok? then Store(gfix, UpperTangent(h, fg, sqrt).value, 0.0)
    else gfix
  }

  /** The fixed gradients of the respline: gfix0 with the smoothed SPLINE ends' knots added. */
  ghost function FinalFixed(gfix0: seq<(real, real)>, h: seq<(real, real)>, fg: seq<(real, real)>, lb: Bound,
                            ub: Bound, smoothLb: Value, smoothUb: Value, sqrt: real -> real): seq<(real, real)>
    requires DistinctKeys(h) && |h| >= 2 && SqrtLaw(sqrt)
  {
    UpperFixed(LowerFixed(gfix0, h, fg, lb, smoothLb, sqrt), LowerKnots(h, fg, lb, sqrt), fg, ub, smoothUb, sqrt)
  }

  /** The fixed gradients of the first fit: zero at each smoothed Float bound. */
  function FirstFixed(lb: Bound, ub: Bound, smoothLb: Value, smoothUb: Value): (g: seq<(real, real)>)
    ensures DistinctKeys(g)
    ensures forall k :: Lookup(g, k).Some? <==>
              (lb.At? && Truthy(smoothLb) && k == lb.v) || (ub.At? && Truthy(smoothUb) && k == ub.v)
    ensures forall k :: Lookup(g, k).Some? ==> Lookup(g, k) == Some(0.0)
  {
    var g1: seq<(real, real)> := if lb.At? && Truthy(smoothLb) then [(lb.v, 0.0)] else [];
    if ub.At? && Truthy(smoothUb) then StoreDistinct(g1, ub.v, 0.0); Store(g1, ub.v, 0.0) else g1
  }

  /** The fit's own fixed-gradient table. */
  ghost function TableOf(s: CubicHermiteSpline): seq<(real, real)>
    reads s
    requires s.args.fixedGradients.Coerced?
  {
    s.args.fixedGradients.table
  }

  /**
   * A monotonic spline whose gradients, whenever it is clean, are those of
   * the fit through its knots with its own fixed gradients.
   */
  ghost predicate Tracks(s: CubicHermiteSpline, sqrt: real -> real)
    reads s
  {
    && Monotonic(s) && SqrtLaw(sqrt)
    && (!s.Dirty() ==> s.m.value == FitGradients(s.h, TableOf(s), sqrt))
  }

  /** What `recompute` promises of a MONOTONIC spline is that it tracks its knots. */
  lemma HoldsTracks(s: CubicHermiteSpline, sqrt: real -> real)
    requires Monotonic(s) && SqrtLaw(sqrt) && s.m.Some? && !s.Dirty()
    requires GradientsHold(s.args, TableOf(s), s.x, s.y, s.m.value, sqrt)
    ensures Tracks(s, sqrt)
  {
    var x, y, m := s.x, s.y, s.m.value;
    assert s.args.gradientMethod != Str(FiniteDifferenceMethod);
    var g := MonotoneGradients(x, y, EpsReal(Defaults().monotonicEpsilon), false, sqrt);
    assert MethodGradients(s.args.gradientMethod, s.args.monotonicEpsilon, x, y, sqrt) == g;
    assert m == FitGradients(s.h, TableOf(s), sqrt);
  }

  /**
   * The spline `recompute` leaves, from the sampled cdf scdf: its knots are
   * those of the first fit (scdf and the Float bounds) with the SPLINE ends'
   * knots added, and it is fitted through them with the respline's fixed
   * gradients.
   */
  ghost predicate FitFrom(s: CubicHermiteSpline, scdf: seq<(real, real)>, lb: Bound, ub: Bound,
                          smoothLb: Value, smoothUb: Value, sqrt: real -> real)
    reads s
  {
    var h1 := WithBounds(EnterAll([], scdf), lb, ub);
    var fg1 := FirstFixed(lb, ub, smoothLb, smoothUb);
    && SqrtLaw(sqrt) && DistinctKeys(h1) && |h1| >= 2
    && s.h == FinalKnots(h1, fg1, lb, ub, sqrt)
    && var gfix := FinalFixed(fg1, h1, fg1, lb, ub, smoothLb, smoothUb, sqrt);
       && s.args.fixedGradients.Coerced? && s.m.Some? && !s.Dirty() && SameTable(TableOf(s), gfix)
       && s.m.value == FitGradients(s.h, gfix, sqrt)
  }

  /** `Capricious::CubicHermiteSpline.new(:data => knots, :gradient_method => MONOTONIC)` */
  method NewSpline(knots: seq<(real, real)>) returns (s: CubicHermiteSpline)
    ensures fresh(s) && Monotonic(s) && s.Dirty()
    ensures s.h == EnterAll([], knots)
  {
    s := new CubicHermiteSpline();
    var o := s.Configure(Config(Some(PairsValue(knots)), Some(Str(MonotonicMethod)), None, None, None));
  }

  /** `spline << [k, v]`: one more knot, stored as the spline's table stores it. */
  method PutKnot(s: CubicHermiteSpline, k: real, v: real)
    requires Monotonic(s)
    modifies s
    ensures Monotonic(s) && s.Dirty() && s.args == old(s.args)
    ensures s.h == Store(old(s.h), k, v)
  {
    CanonicalOfPair(k, v);
    var o := s.Put(Arr([Float(k), Float(v)]));
    assert [(k, v)][..0] == [];
  }

  /**
   * `spline.configure(:fixed_gradients => gfix)`: the spline's fixed
   * gradients become the last gradient gfix gives each knot, and it is dirty.
   */
  method FixGradients(s: CubicHermiteSpline, gfix: seq<(real, real)>)
    requires Monotonic(s)
    modifies s
    ensures Monotonic(s) && s.Dirty() && s.h == old(s.h)
    ensures forall k :: Lookup(TableOf(s), k) == LastFor(gfix, k)
    ensures DistinctKeys(gfix) ==> SameTable(TableOf(s), gfix)
  {
    CoerceFloatHash(gfix, 0.0);
    var o := s.Configure(Config(None, None, None, None, Some(FloatHash(gfix))));
    forall k ensures Lookup(TableOf(s), k) == LastFor(gfix, k) {
      CoerceFloatHash(gfix, k);
    }
    if DistinctKeys(gfix) {
      forall k ensures Lookup(TableOf(s), k) == Lookup(gfix, k) {
        LastForLookup(gfix, k);
      }
    }
  }

  /**
   * The respline of `recompute` when a SPLINE end added a knot
   * (`configure(:fixed_gradients => gfix)` and `recompute`), then
   * `spline.domain`: the final spline's first and last knot. It never fails:
   * the spline is fitted through its knots with gfix as its fixed gradients.
   */
  method Refit(s: CubicHermiteSpline, gfix: seq<(real, real)>, respline: bool, sqrt: real -> real)
    returns (o: Outcome, d: (real, real))
    requires Tracks(s, sqrt) && |s.h| >= 2 && DistinctKeys(gfix)
    requires !respline ==> !s.Dirty() && SameTable(TableOf(s), gfix)
    modifies s
    ensures Tracks(s, sqrt) && s.h == old(s.h)
    ensures o == Pass && !s.Dirty() && SameTable(TableOf(s), gfix)
    ensures !respline ==> s.x == old(s.x) && s.y == old(s.y) && s.m == old(s.m)
    ensures && d.0 == s.x[0] && d.1 == s.x[|s.x| - 1]
            && s.x[0] == FirstKnot(s.h).0 && s.y[0] == FirstKnot(s.h).1
            && s.x[|s.x| - 1] == LastKnot(s.h).0 && s.y[|s.x| - 1] == LastKnot(s.h).1
  {
    if respline {
      o := Respline(s, gfix, sqrt);
    }
    var r := s.Domain(sqrt);
    Ends(s);
    d := r.value;
    o := Pass;
  }

  /**
   * `spline.configure(:fixed_gradients => gfix); spline.recompute`: it
   * fails only on fewer than two knots, and otherwise fits the spline through
   * its knots with gfix as its fixed gradients.
   */
  method Respline(s: CubicHermiteSpline, gfix: seq<(real, real)>, sqrt: real -> real) returns (o: Outcome)
    requires Monotonic(s) && SqrtLaw(sqrt) && DistinctKeys(gfix)
    modifies s
    ensures Tracks(s, sqrt) && s.h == old(s.h) && SameTable(TableOf(s), gfix)
    ensures o.Pass? <==> |s.h| >= 2
    ensures |s.h| == 0 ==> o == Fail(NoMethodError)
    ensures |s.h| == 1 ==> o == Fail(ArgumentError)
    ensures o.Pass? ==> s.m.Some? && !s.Dirty()
  {
    FixGradients(s, gfix);
    o := s.Recompute(sqrt);
    if o.Pass? {
      HoldsTracks(s, sqrt);
    }
  }

  /**
   * `x, u = spline.domain; y = spline.q(x); yp = spline.qp(x)` at the lower
   * end, or the same at the upper end: the end knot and the slope there,
   * after recomputing the spline if it is dirty, which fails only on fewer
   * than two knots.
   */
  method EndQuery(s: CubicHermiteSpline, lower: bool, sqrt: real -> real) returns (r: Result<(real, real, real)>)
    requires Tracks(s, sqrt)
    modifies s
    ensures Tracks(s, sqrt) && s.h == old(s.h) && s.args == old(s.args)
    ensures r.Ok? <==> |s.h| >= 2
    ensures r.Ok? ==> && !s.Dirty() && s.m.Some? && Fitted(s.x, s.y, s.m.value)
                      && var k := if lower then 0 else |s.x| - 1;
                         r.value == (s.x[k], s.y[k], s.m.value[k])
    ensures !old(s.Dirty()) ==> r.Ok? && s.x == old(s.x) && s.y == old(s.y) && s.m == old(s.m)
  {
    var d := Refresh(s, sqrt);
    if d.Err? {
      return Err(d.error);
    }
    var pt := if lower then d.value.0 else d.value.1;
    var k := if lower then 0 else |s.x| - 1;
    var q, qp := Probe(s, k, pt, sqrt);
    r := Ok((pt, q, qp));
  }

  /** `y = spline.q(x); yp = spline.qp(x)` at knot k of a clean spline, which changes nothing. */
  method Probe(s: CubicHermiteSpline, k: nat, pt: real, sqrt: real -> real) returns (q: real, qp: real)
    requires Monotonic(s) && SqrtLaw(sqrt) && !s.Dirty() && k < |s.x| && pt == s.x[k]
    modifies s
    ensures s.h == old(s.h) && s.args == old(s.args) && s.x == old(s.x) && s.y == old(s.y) && s.m == old(s.m)
    ensures q == s.y[k] && qp == s.m.value[k]
  {
    var rq := s.Q(Float(pt), sqrt);
    var rqp := s.Qp(Float(pt), sqrt);
    QAtKnot(s.x, s.y, s.m.value, k);
    q, qp := rq.value, rqp.value;
  }

  /** `spline.domain` on a tracking spline: recompute if dirty, which keeps it tracking. */
  method Refresh(s: CubicHermiteSpline, sqrt: real -> real) returns (d: Result<(real, real)>)
    requires Tracks(s, sqrt)
    modifies s
    ensures Tracks(s, sqrt) && s.h == old(s.h) && s.args == old(s.args)
    ensures d.Ok? <==> |s.h| >= 2
    ensures d.Ok? ==> s.m.Some? && !s.Dirty() && d.value == (s.x[0], s.x[|s.x| - 1])
    ensures !old(s.Dirty()) ==> d.Ok? && s.x == old(s.x) && s.y == old(s.y) && s.m == old(s.m)
  {
    d := s.Domain(sqrt);
    if d.Ok? && old(s.Dirty()) {
      HoldsTracks(s, sqrt);
    }
  }

  /** Every sample `select!` keeps, and so every sorted one, lies strictly inside the Float bounds. */
  lemma SelectedInside(raw: seq<real>, lb: Bound, ub: Bound)
    ensures var d := SortReals(Select(Select(raw, lb, true), ub, false));
            forall i :: 0 <= i < |d| ==> Inside(d[i], lb, true) && Inside(d[i], ub, false)
  {
    var s1 := Select(raw, lb, true);
    var s2 := Select(s1, ub, false);
    var d := SortReals(s2);
    forall i | 0 <= i < |d| ensures Inside(d[i], lb, true) && Inside(d[i], ub, false) {
      assert d[i] in multiset(d);
      assert multiset(s2)[d[i]] > 0;
      assert multiset(s1)[d[i]] > 0;
    }
  }

  /** The knots of the sampled cdf sit at kept samples, so inside the bounds as well. */
  lemma SampledInside(r: seq<(real, real)>, data: seq<real>, w: real, lb: Bound, ub: Bound)
    requires w > 0.0 && |data| > 0 && SampledFrom(r, data, w)
    requires forall i :: 0 <= i < |data| ==> Inside(data[i], lb, true) && Inside(data[i], ub, false)
    ensures forall i :: 0 <= i < |r| ==> Inside(r[i].0, lb, true) && Inside(r[i].0, ub, false)
  {
    forall i | 0 <= i < |r| ensures Inside(r[i].0, lb, true) && Inside(r[i].0, ub, false) {
      assert Knot(r[i], data);
      var ro := Trimmed(|data|);
      var j :| 0 <= j < |Kept(data)| && Kept(data)[j] == r[i].0;
      assert data[ro + j] == r[i].0;
    }
  }

  /** The last knot stored for x in a list is one of the list's knots. */
  lemma {:induction false} LastForIn(ps: seq<(real, real)>, x: real)
    requires LastFor(ps, x).Some?
    ensures exists i :: 0 <= i < |ps| && ps[i].0 == x
  {
    if ps[|ps| - 1].0 != x {
      LastForIn(ps[..|ps| - 1], x);
      var i :| 0 <= i < |ps| - 1 && ps[..|ps| - 1][i].0 == x;
      assert ps[i].0 == x;
    }
  }

  /** The knots the sampled cdf and the Float bounds give the first fit. */
  ghost function WithBounds(h: seq<(real, real)>, lb: Bound, ub: Bound): seq<(real, real)>
  {
    var h1 := if lb.At? then Store(h, lb.v, 0.0) else h;
    if ub.At? then Store(h1, ub.v, 1.0) else h1
  }

  /**
   * A Float lower bound becomes the first knot, at probability 0, and a
   * Float upper bound the last, at probability 1, when every sampled knot
   * lies strictly between them.
   */
  lemma BoundsAtEnds(ps: seq<(real, real)>, lb: Bound, ub: Bound)
    requires |ps| > 0 && forall i :: 0 <= i < |ps| ==> Inside(ps[i].0, lb, true) && Inside(ps[i].0, ub, false)
    ensures var h := WithBounds(EnterAll([], ps), lb, ub);
            && DistinctKeys(h) && |h| > 0
            && (lb.At? ==> FirstKnot(h) == (lb.v, 0.0))
            && (ub.At? ==> LastKnot(h) == (ub.v, 1.0))
  {
    KnotsInside(ps, lb, ub);
    var h := EnterAll([], ps);
    LowerAtStart(h, lb, ub);
    UpperAtEnd(if lb.At? then Store(h, lb.v, 0.0) else h, lb, ub);
  }

  /**
   * A Float upper bound stored into a table whose keys all lie below it
   * becomes its last knot and leaves the first knot where it was.
   */
  lemma UpperAtEnd(h1: seq<(real, real)>, lb: Bound, ub: Bound)
    requires DistinctKeys(h1) && |h1| > 0 && (lb.At? ==> FirstKnot(h1) == (lb.v, 0.0))
    requires forall k :: Lookup(h1, k).Some? ==> Inside(k, ub, false)
    ensures var h2 := if ub.At? then Store(h1, ub.v, 1.0) else h1;
            && DistinctKeys(h2) && |h2| > 0
            && (lb.At? ==> FirstKnot(h2) == (lb.v, 0.0))
            && (ub.At? ==> LastKnot(h2) == (ub.v, 1.0))
  {
    if ub.At? {
      assert Lookup(h1, ub.v).None?;
      StoreAbove(h1, ub.v, 1.0);
    }
  }

  /** The table the sampled cdf enters holds only knots inside both bounds, and at least one. */
  lemma KnotsInside(ps: seq<(real, real)>, lb: Bound, ub: Bound)
    requires |ps| > 0 && forall i :: 0 <= i < |ps| ==> Inside(ps[i].0, lb, true) && Inside(ps[i].0, ub, false)
    ensures var h := EnterAll([], ps);
            && DistinctKeys(h) && |h| > 0
            && forall k :: Lookup(h, k).Some? ==> Inside(k, lb, true) && Inside(k, ub, false)
  {
    var h := EnterAll([], ps);
    EnterAllDistinct([], ps);
    forall k | Lookup(h, k).Some? ensures Inside(k, lb, true) && Inside(k, ub, false) {
      EnterAllLookup([], ps, k);
      LastForIn(ps, k);
    }
    EnterAllLookup([], ps, ps[0].0);
    assert LastFor(ps, ps[0].0).Some? by {
      LastForHas(ps, 0);
    }
  }

  /**
   * A Float lower bound stored into a table of knots inside both bounds
   * becomes its first knot, and every key stays inside the upper bound.
   */
  lemma LowerAtStart(h: seq<(real, real)>, lb: Bound, ub: Bound)
    requires DistinctKeys(h) && |h| > 0
    requires forall k :: Lookup(h, k).Some? ==> Inside(k, lb, true) && Inside(k, ub, false)
    ensures var h1 := if lb.At? then Store(h, lb.v, 0.0) else h;
            && DistinctKeys(h1) && |h1| > 0
            && (lb.At? ==> FirstKnot(h1) == (lb.v, 0.0))
            && (forall k :: Lookup(h1, k).Some? ==> Inside(k, ub, false))
  {
    if lb.At? {
      assert Lookup(h, lb.v).None?;
      StoreBelow(h, lb.v, 0.0);
      assert Lookup(h, h[0].0).Some?;
      assert Inside(h[0].0, lb, true) && Inside(h[0].0, ub, false);
    }
  }

  /** A list holding a knot for x has a last knot for x. */
  lemma {:induction false} LastForHas(ps: seq<(real, real)>, i: nat)
    requires i < |ps|
    ensures LastFor(ps, ps[i].0).Some?
  {
    if i < |ps| - 1 && ps[|ps| - 1].0 != ps[i].0 {
      LastForHas(ps[..|ps| - 1], i);
    }
  }

  /**
   * The first fit of `recompute`: a MONOTONIC spline through the sampled
   * cdf, a knot at each Float bound (probability 0 below, 1 above) with a
   * zero gradient fixed there when that side is smoothed.
   */
  method FirstFit(scdf: seq<(real, real)>, lb: Bound, ub: Bound, smoothLb: Value, smoothUb: Value,
                  sqrt: real -> real) returns (s: CubicHermiteSpline, o: Outcome, gfix: seq<(real, real)>)
    requires SqrtLaw(sqrt) && |scdf| > 0
    requires forall i :: 0 <= i < |scdf| ==> Inside(scdf[i].0, lb, true) && Inside(scdf[i].0, ub, false)
    ensures fresh(s) && Tracks(s, sqrt) && |s.h| > 0
    ensures s.h == WithBounds(EnterAll([], scdf), lb, ub)
    ensures gfix == FirstFixed(lb, ub, smoothLb, smoothUb) && SameTable(TableOf(s), gfix)
    ensures o.Pass? <==> |s.h| >= 2
    ensures o.Fail? ==> o == Fail(ArgumentError)
    ensures o.Pass? ==> !s.Dirty()
    ensures lb.At? ==> FirstKnot(s.h) == (lb.v, 0.0)
    ensures ub.At? ==> LastKnot(s.h) == (ub.v, 1.0)
  {
    BoundsAtEnds(scdf, lb, ub);
    s := NewSpline(scdf);
    PlaceBounds(s, lb, ub);
    gfix := FirstFixed(lb, ub, smoothLb, smoothUb);
    o := Respline(s, gfix, sqrt);
  }

  /** `spline << [lb, 0.0]` for a Float lower bound, then `spline << [ub, 1.0]` for a Float upper bound. */
  method PlaceBounds(s: CubicHermiteSpline, lb: Bound, ub: Bound)
    requires Monotonic(s) && s.Dirty()
    modifies s
    ensures Monotonic(s) && s.Dirty() && s.args == old(s.args)
    ensures s.h == WithBounds(old(s.h), lb, ub)
  {
    if lb.At? {
      PutKnot(s, lb.v, 0.0);
    }
    if ub.At? {
      PutKnot(s, ub.v, 1.0);
    }
  }

  // ------------------------------------------------------------ the model's ends

  /**
   * How the fitted cdf meets its lower tail at the first knot (x0, y0): a
   * Float bound is that knot at probability 0, SPLINE closes at
   * probability 0, and the INFINITE tail exp(a x + b) passes through it.
   */
  ghost predicate LowerFits(b: Bound, x0: real, y0: real, a: Option<real>, c: Option<real>, exp: real -> real)
  {
    match b
    case At(v) => x0 == v && y0 == 0.0
    case SplineTail => y0 == 0.0
    case InfiniteTail => a.Some? && c.Some? && a.value > 0.0 && LowerTail(a.value, c.value, x0, exp) == y0
    case Beyond(_) => false
  }

  /** The same at the last knot (xn, yn), with probability 1 and the tail 1 - exp(b - a x). */
  ghost predicate UpperFits(b: Bound, xn: real, yn: real, a: Option<real>, c: Option<real>, exp: real -> real)
  {
    match b
    case At(v) => xn == v && yn == 1.0
    case SplineTail => yn == 1.0
    case InfiniteTail => a.Some? && c.Some? && a.value > 0.0 && UpperTail(a.value, c.value, xn, exp) == yn
    case Beyond(_) => false
  }

  /** An INFINITE lower tail's density a exp(a x + b) equals the spline's slope m0 at x0. */
  ghost predicate LowerSlope(b: Bound, x0: real, m0: real, a: Option<real>, c: Option<real>, exp: real -> real)
  {
    b.InfiniteTail? && a.Some? && c.Some? ==> LowerTailDensity(a.value, c.value, x0, exp) == m0
  }

  /** An INFINITE upper tail's density a exp(b - a x) equals the spline's slope mn at xn. */
  ghost predicate UpperSlope(b: Bound, xn: real, mn: real, a: Option<real>, c: Option<real>, exp: real -> real)
  {
    b.InfiniteTail? && a.Some? && c.Some? ==> UpperTailDensity(a.value, c.value, xn, exp) == mn
  }

  /**
   * Both ends of the fitted columns meet their tails; where no later
   * respline moved the gradients, an INFINITE tail's density also meets the
   * spline's slope.
   */
  ghost predicate EndsMeet(lb: Bound, ub: Bound, x: seq<real>, y: seq<real>, m: seq<real>,
                           la: Option<real>, lc: Option<real>, ua: Option<real>, uc: Option<real>, exp: real -> real)
    requires Fitted(x, y, m)
  {
    var n := |x| - 1;
    && LowerFits(lb, x[0], y[0], la, lc, exp)
    && UpperFits(ub, x[n], y[n], ua, uc, exp)
    && (!ub.SplineTail? ==> LowerSlope(lb, x[0], m[0], la, lc, exp))
    && (!lb.SplineTail? ==> UpperSlope(ub, x[n], m[n], ua, uc, exp))
  }

  /** An INFINITE tail's parameters (a, b), as `compute_moments` reads them; None for any other end. */
  function TailParams(b: Bound, a: Option<real>, c: Option<real>): (r: Option<(real, real)>)
    ensures r.Some? ==> r.value.0 != 0.0
  {
    if b.InfiniteTail? && a.Some? && c.Some? && a.value != 0.0 then Some((a.value, c.value)) else None
  }

  /**
   * What `recompute` caches about fitted columns: the domain is their first
   * and last x, the ends meet their tails, and the mean and variance are the
   * moments of the pieces and INFINITE tails.
   */
  ghost predicate ModelOf(lb: Bound, ub: Bound, x: seq<real>, y: seq<real>, m: seq<real>,
                          la: Option<real>, lc: Option<real>, ua: Option<real>, uc: Option<real>,
                          smin: Option<real>, smax: Option<real>, mean: Option<real>, variance: Option<real>,
                          exp: real -> real)
    requires Fitted(x, y, m)
  {
    && smin == Some(x[0]) && smax == Some(x[|x| - 1])
    && EndsMeet(lb, ub, x, y, m, la, lc, ua, uc, exp)
    && var mo := Moments(x, y, m, TailParams(lb, la, lc), TailParams(ub, ua, uc), exp);
       mean == Some(mo.ex) && variance == Some(Variance(mo.ex, mo.ex2))
  }

  /** `compute_moments` on fitted columns whose ends meet their tails: the model `recompute` caches. */
  method ModelMoments(lb: Bound, ub: Bound, x: seq<real>, y: seq<real>, m: seq<real>,
                      la: Option<real>, lc: Option<real>, ua: Option<real>, uc: Option<real>, exp: real -> real)
    returns (mean: real, variance: real)
    requires Fitted(x, y, m) && EndsMeet(lb, ub, x, y, m, la, lc, ua, uc, exp)
    ensures ModelOf(lb, ub, x, y, m, la, lc, ua, uc, Some(x[0]), Some(x[|x| - 1]), Some(mean), Some(variance), exp)
  {
    mean, variance := ComputeMoments(x, y, m, TailParams(lb, la, lc), TailParams(ub, ua, uc), exp);
  }

  /** The cdf below the first knot: the INFINITE tail, or 0. */
  function CdfBelow(b: Bound, a: Option<real>, c: Option<real>, t: real, exp: real -> real): real
    requires b.InfiniteTail? ==> a.Some? && c.Some?
  {
    if b.InfiniteTail? then LowerTail(a.value, c.value, t, exp) else 0.0
  }

  /** The cdf above the last knot: the INFINITE tail, or 1. */
  function CdfAbove(b: Bound, a: Option<real>, c: Option<real>, t: real, exp: real -> real): real
    requires b.InfiniteTail? ==> a.Some? && c.Some?
  {
    if b.InfiniteTail? then UpperTail(a.value, c.value, t, exp) else 1.0
  }

  /** The pdf below the first knot: the INFINITE tail's density, or 0. */
  function PdfBelow(b: Bound, a: Option<real>, c: Option<real>, t: real, exp: real -> real): real
    requires b.InfiniteTail? ==> a.Some? && c.Some?
  {
    if b.InfiniteTail? then LowerTailDensity(a.value, c.value, t, exp) else 0.0
  }

  /** The pdf above the last knot: the INFINITE tail's density, or 0. */
  function PdfAbove(b: Bound, a: Option<real>, c: Option<real>, t: real, exp: real -> real): real
    requires b.InfiniteTail? ==> a.Some? && c.Some?
  {
    if b.InfiniteTail? then UpperTailDensity(a.value, c.value, t, exp) else 0.0
  }

  /**
   * The model's cdf on fitted columns: the lower tail before the first
   * knot, the upper tail after the last, the spline in between.
   */
  function ModelCdf(lb: Bound, ub: Bound, x: seq<real>, y: seq<real>, m: seq<real>, la: Option<real>,
                    lc: Option<real>, ua: Option<real>, uc: Option<real>, t: real, exp: real -> real): real
    requires Fitted(x, y, m)
    requires lb.InfiniteTail? ==> la.Some? && lc.Some?
    requires ub.InfiniteTail? ==> ua.Some? && uc.Some?
  {
    if t < x[0] then CdfBelow(lb, la, lc, t, exp)
    else if t > x[|x| - 1] then CdfAbove(ub, ua, uc, t, exp)
    else QOf(x, y, m, t)
  }

  /** The model's pdf on fitted columns: the tails' densities outside, the spline's slope inside. */
  function ModelPdf(lb: Bound, ub: Bound, x: seq<real>, y: seq<real>, m: seq<real>, la: Option<real>,
                    lc: Option<real>, ua: Option<real>, uc: Option<real>, t: real, exp: real -> real): real
    requires Fitted(x, y, m)
    requires lb.InfiniteTail? ==> la.Some? && lc.Some?
    requires ub.InfiniteTail? ==> ua.Some? && uc.Some?
  {
    if t < x[0] then PdfBelow(lb, la, lc, t, exp)
    else if t > x[|x| - 1] then PdfAbove(ub, ua, uc, t, exp)
    else QpOf(x, y, m, t)
  }

  /**
   * Where the fitted ends meet their tails, the model's cdf is continuous:
   * each tail reaches the spline's value at the knot it closes.
   */
  lemma ModelCdfContinuous(lb: Bound, ub: Bound, x: seq<real>, y: seq<real>, m: seq<real>, la: Option<real>,
                           lc: Option<real>, ua: Option<real>, uc: Option<real>, exp: real -> real)
    requires Fitted(x, y, m)
    requires LowerFits(lb, x[0], y[0], la, lc, exp) && UpperFits(ub, x[|x| - 1], y[|x| - 1], ua, uc, exp)
    ensures CdfBelow(lb, la, lc, x[0], exp) == ModelCdf(lb, ub, x, y, m, la, lc, ua, uc, x[0], exp) == y[0]
    ensures CdfAbove(ub, ua, uc, x[|x| - 1], exp)
            == ModelCdf(lb, ub, x, y, m, la, lc, ua, uc, x[|x| - 1], exp) == y[|x| - 1]
  {
    QAtKnot(x, y, m, 0);
    QAtKnot(x, y, m, |x| - 1);
  }

  /**
   * Where an INFINITE tail's slope was matched and no respline moved it, the
   * model's pdf is continuous at that end too.
   */
  lemma ModelPdfContinuous(lb: Bound, ub: Bound, x: seq<real>, y: seq<real>, m: seq<real>, la: Option<real>,
                           lc: Option<real>, ua: Option<real>, uc: Option<real>, exp: real -> real)
    requires Fitted(x, y, m) && EndsMeet(lb, ub, x, y, m, la, lc, ua, uc, exp)
    ensures !ub.SplineTail? && lb.InfiniteTail? ==>
              PdfBelow(lb, la, lc, x[0], exp) == ModelPdf(lb, ub, x, y, m, la, lc, ua, uc, x[0], exp) == m[0]
    ensures !lb.SplineTail? && ub.InfiniteTail? ==>
              PdfAbove(ub, ua, uc, x[|x| - 1], exp)
              == ModelPdf(lb, ub, x, y, m, la, lc, ua, uc, x[|x| - 1], exp) == m[|x| - 1]
  {
    QAtKnot(x, y, m, 0);
    QAtKnot(x, y, m, |x| - 1);
  }

  /**
   * Outside a finite end of the support the model is certain: the cdf is 0
   * up to a lower end that is a Float bound or a SPLINE knot, and 1 from
   * such an upper end on.
   */
  lemma CertainOutsideSupport(lb: Bound, ub: Bound, x: seq<real>, y: seq<real>, m: seq<real>, la: Option<real>,
                              lc: Option<real>, ua: Option<real>, uc: Option<real>, t: real, exp: real -> real)
    requires Fitted(x, y, m)
    requires LowerFits(lb, x[0], y[0], la, lc, exp) && UpperFits(ub, x[|x| - 1], y[|x| - 1], ua, uc, exp)
    ensures !lb.InfiniteTail? && t <= x[0] ==> ModelCdf(lb, ub, x, y, m, la, lc, ua, uc, t, exp) == 0.0
    ensures !ub.InfiniteTail? && t >= x[|x| - 1] ==> ModelCdf(lb, ub, x, y, m, la, lc, ua, uc, t, exp) == 1.0
  {
    QAtKnot(x, y, m, 0);
    QAtKnot(x, y, m, |x| - 1);
  }

  /** An INFINITE tail has a positive density everywhere. */
  lemma TailDensityPositive(lb: Bound, ub: Bound, x0: real, y0: real, xn: real, yn: real, la: Option<real>,
                            lc: Option<real>, ua: Option<real>, uc: Option<real>, t: real, exp: real -> real,
                            log: real -> real)
    requires ExpLogLaw(exp, log)
    requires LowerFits(lb, x0, y0, la, lc, exp) && UpperFits(ub, xn, yn, ua, uc, exp)
    ensures lb.InfiniteTail? ==> PdfBelow(lb, la, lc, t, exp) > 0.0
    ensures ub.InfiniteTail? ==> PdfAbove(ub, ua, uc, t, exp) > 0.0
  {
    if lb.InfiniteTail? {
      assert exp(t * la.value + lc.value) > 0.0;
    }
    if ub.InfiniteTail? {
      assert exp(uc.value - t * ua.value) > 0.0;
    }
  }

  /** Where `cdf` and `pdf` find their answer: fixed by the domain and the tails, or the spline's. */
  datatype Dispatch = Decided(r: Result<real>) | AskSpline

  /**
   * The comparisons of `cdf(t)` with `@smin` and `@smax` and its tails;
   * comparing with a nil end is ArgumentError, a nil tail parameter in the
   * arithmetic is TypeError.
   */
  function CdfDispatch(lb: Bound, ub: Bound, c: Cache, t: real, exp: real -> real): Dispatch
  {
    if c.smin.None? then Decided(Err(ArgumentError))
    else if t < c.smin.value then
      Decided(if lb.InfiniteTail? && (c.expLbA.None? || c.expLbB.None?) then Err(TypeError)
              else Ok(CdfBelow(lb, c.expLbA, c.expLbB, t, exp)))
    else if c.smax.None? then Decided(Err(ArgumentError))
    else if t > c.smax.value then
      Decided(if ub.InfiniteTail? && (c.expUbA.None? || c.expUbB.None?) then Err(TypeError)
              else Ok(CdfAbove(ub, c.expUbA, c.expUbB, t, exp)))
    else AskSpline
  }

  /** The same for `pdf(t)`, with the tails' densities and 0 outside a finite end. */
  function PdfDispatch(lb: Bound, ub: Bound, c: Cache, t: real, exp: real -> real): Dispatch
  {
    if c.smin.None? then Decided(Err(ArgumentError))
    else if t < c.smin.value then
      Decided(if lb.InfiniteTail? && (c.expLbA.None? || c.expLbB.None?) then Err(TypeError)
              else Ok(PdfBelow(lb, c.expLbA, c.expLbB, t, exp)))
    else if c.smax.None? then Decided(Err(ArgumentError))
    else if t > c.smax.value then
      Decided(if ub.InfiniteTail? && (c.expUbA.None? || c.expUbB.None?) then Err(TypeError)
              else Ok(PdfAbove(ub, c.expUbA, c.expUbB, t, exp)))
    else AskSpline
  }

  /**
   * On a computed model the dispatch never fails, and it answers with the
   * model's cdf and pdf: directly outside the domain, through the spline's
   * q and qp inside it.
   */
  lemma DispatchOfModel(lb: Bound, ub: Bound, x: seq<real>, y: seq<real>, m: seq<real>, c: Cache, t: real,
                        exp: real -> real)
    requires Fitted(x, y, m)
    requires ModelOf(lb, ub, x, y, m, c.expLbA, c.expLbB, c.expUbA, c.expUbB, c.smin, c.smax, c.mean,
                     c.variance, exp)
    ensures lb.InfiniteTail? ==> c.expLbA.Some? && c.expLbB.Some?
    ensures ub.InfiniteTail? ==> c.expUbA.Some? && c.expUbB.Some?
    ensures var d := CdfDispatch(lb, ub, c, t, exp);
            && (d.Decided? ==> d.r == Ok(ModelCdf(lb, ub, x, y, m, c.expLbA, c.expLbB, c.expUbA, c.expUbB, t, exp)))
            && (d.AskSpline? ==> && x[0] <= t <= x[|x| - 1]
                                 && QOf(x, y, m, t)
                                    == ModelCdf(lb, ub, x, y, m, c.expLbA, c.expLbB, c.expUbA, c.expUbB, t, exp))
    ensures var d := PdfDispatch(lb, ub, c, t, exp);
            && (d.Decided? ==> d.r == Ok(ModelPdf(lb, ub, x, y, m, c.expLbA, c.expLbB, c.expUbA, c.expUbB, t, exp)))
            && (d.AskSpline? ==> && x[0] <= t <= x[|x| - 1]
                                 && QpOf(x, y, m, t)
                                    == ModelPdf(lb, ub, x, y, m, c.expLbA, c.expLbB, c.expUbA, c.expUbB, t, exp))
  {
    assert LowerFits(lb, x[0], y[0], c.expLbA, c.expLbB, exp);
    assert UpperFits(ub, x[|x| - 1], y[|x| - 1], c.expUbA, c.expUbB, exp);
  }

  /**
   * `support` on the domain (lo, hi) of the spline: an INFINITE end becomes
   * minus or plus infinity, any other end stays the knot.
   */
  function SupportOf(lb: Bound, ub: Bound, lo: real, hi: real): (Value, Value)
  {
    (if lb.InfiniteTail? then Infinity(true) else Float(lo), if ub.InfiniteTail? then Infinity(false) else Float(hi))
  }

  /**
   * On a computed model a Float bound is the support's end itself, and
   * every end of the support is a point where the model's cdf is 0 or 1 or
   * an infinity.
   */
  lemma SupportOfModel(lb: Bound, ub: Bound, x: seq<real>, y: seq<real>, m: seq<real>, la: Option<real>,
                       lc: Option<real>, ua: Option<real>, uc: Option<real>, exp: real -> real)
    requires Fitted(x, y, m)
    requires LowerFits(lb, x[0], y[0], la, lc, exp) && UpperFits(ub, x[|x| - 1], y[|x| - 1], ua, uc, exp)
    ensures var (lo, hi) := SupportOf(lb, ub, x[0], x[|x| - 1]);
            && (lb.At? ==> lo == Float(lb.v)) && (ub.At? ==> hi == Float(ub.v))
            && (lo.Float? ==> ModelCdf(lb, ub, x, y, m, la, lc, ua, uc, lo.f, exp) == 0.0)
            && (hi.Float? ==> ModelCdf(lb, ub, x, y, m, la, lc, ua, uc, hi.f, exp) == 1.0)
            && (lo.Infinity? <==> lb.InfiniteTail?) && (hi.Infinity? <==> ub.InfiniteTail?)
  {
    CertainOutsideSupport(lb, ub, x, y, m, la, lc, ua, uc, x[0], exp);
    CertainOutsideSupport(lb, ub, x, y, m, la, lc, ua, uc, x[|x| - 1], exp);
  }

  /** The INFINITE lower tail fitted at (x0, y0) with slope yp passes through that knot with that slope. */
  lemma LowerExpFits(x0: real, y0: real, yp: real, exp: real -> real, log: real -> real)
    requires ExpLogLaw(exp, log) && LowerExp(x0, y0, yp, log).Ok?
    ensures var t := LowerExp(x0, y0, yp, log).value;
            && LowerFits(InfiniteTail, x0, y0, Some(t.0), Some(t.1), exp)
            && LowerSlope(InfiniteTail, x0, yp, Some(t.0), Some(t.1), exp)
  {
    LowerExpMeets(x0, y0, yp, exp, log);
  }

  /** The INFINITE upper tail fitted at (xn, yn) with slope yp passes through that knot with that slope. */
  lemma UpperExpFits(xn: real, yn: real, yp: real, exp: real -> real, log: real -> real)
    requires ExpLogLaw(exp, log) && UpperExp(xn, yn, yp, log).Ok?
    ensures var t := UpperExp(xn, yn, yp, log).value;
            && UpperFits(InfiniteTail, xn, yn, Some(t.0), Some(t.1), exp)
            && UpperSlope(InfiniteTail, xn, yp, Some(t.0), Some(t.1), exp)
  {
    UpperExpMeets(xn, yn, yp, exp, log);
  }

  /**
   * The SPLINE lower end on a fitted spline: the knot b where the tangent at
   * the first knot reaches 0, put into the spline as its new first knot.
   */
  method LowerSplineEnd(s: CubicHermiteSpline, sqrt: real -> real) returns (r: Result<real>)
    requires Tracks(s, sqrt) && !s.Dirty()
    modifies s
    ensures Tracks(s, sqrt) && |s.h| >= 2 && s.args == old(s.args)
    ensures r == LowerTangent(old(s.h), TableOf(s), sqrt)
    ensures r.Err? ==> r.error == RuntimeError && s.h == old(s.h)
    ensures r.Ok? ==> && s.h == Store(old(s.h), r.value, 0.0)
                      && FirstKnot(s.h) == (r.value, 0.0) && LastKnot(s.h) == old(LastKnot(s.h))
  {
    var e := EndQuery(s, true, sqrt);
    Ends(s);
    var (x0, y0, yp) := e.value;
    assert x0 == FirstKnot(s.h).0 && y0 == FirstKnot(s.h).1 && yp == FitGradients(s.h, TableOf(s), sqrt)[0];
    r := LowerTailKnot(x0, y0, yp);
    if r.Err? {
      return;
    }
    StoreBeforeFirst(s.h, r.value, 0.0);
    PutKnot(s, r.value, 0.0);
  }

  /** A key below the first knot, stored, becomes the new first knot; the last knot stays. */
  lemma StoreBeforeFirst(h: seq<(real, real)>, b: real, w: real)
    requires DistinctKeys(h) && |h| > 0 && b < FirstKnot(h).0
    ensures var r := Store(h, b, w);
            && DistinctKeys(r) && |r| >= 2 && FirstKnot(r) == (b, w) && LastKnot(r) == LastKnot(h)
  {
    BeforeFirst(h, b);
    StoreBelow(h, b, w);
  }

  /** A key above the last knot, stored, becomes the new last knot; the first knot stays. */
  lemma StoreAfterLast(h: seq<(real, real)>, b: real, w: real)
    requires DistinctKeys(h) && |h| > 0 && b > LastKnot(h).0
    ensures var r := Store(h, b, w);
            && DistinctKeys(r) && |r| >= 2 && LastKnot(r) == (b, w) && FirstKnot(r) == FirstKnot(h)
  {
    AfterLast(h, b);
    StoreAbove(h, b, w);
  }

  /** The SPLINE upper end: the knot where the tangent at the last knot reaches 1, put in as the new last knot. */
  method UpperSplineEnd(s: CubicHermiteSpline, sqrt: real -> real) returns (r: Result<real>)
    requires Tracks(s, sqrt) && |s.h| >= 2
    modifies s
    ensures Tracks(s, sqrt) && |s.h| >= 2 && s.args == old(s.args)
    ensures r == UpperTangent(old(s.h), TableOf(s), sqrt)
    ensures r.Err? ==> r.error == RuntimeError && s.h == old(s.h)
    ensures r.Ok? ==> && s.h == Store(old(s.h), r.value, 1.0)
                      && LastKnot(s.h) == (r.value, 1.0) && FirstKnot(s.h) == old(FirstKnot(s.h))
  {
    var e := EndQuery(s, false, sqrt);
    Ends(s);
    var (xn, yn, yp) := e.value;
    assert xn == LastKnot(s.h).0 && yn == LastKnot(s.h).1 && yp == FitGradients(s.h, TableOf(s), sqrt)[|s.h| - 1];
    r := UpperTailKnot(xn, yn, yp);
    if r.Err? {
      return;
    }
    StoreAfterLast(s.h, r.value, 1.0);
    PutKnot(s, r.value, 1.0);
  }

  /**
   * The INFINITE lower end on a fitted spline: (a, b) of exp(a x + b)
   * through the first knot with the spline's slope there. On failure,
   * `bad` is the a that `recompute` stores before its check rejects it.
   */
  method LowerExpEnd(s: CubicHermiteSpline, sqrt: real -> real, exp: real -> real, log: real -> real)
    returns (t: Result<(real, real)>, bad: Option<real>)
    requires Tracks(s, sqrt) && !s.Dirty() && ExpLogLaw(exp, log)
    modifies s
    ensures Tracks(s, sqrt) && s.h == old(s.h) && s.args == old(s.args)
    ensures s.x == old(s.x) && s.y == old(s.y) && s.m == old(s.m)
    ensures t == LowerExp(FirstKnot(s.h).0, FirstKnot(s.h).1, FitGradients(s.h, TableOf(s), sqrt)[0], log)
    ensures t.Err? ==> t.error == RuntimeError
    ensures t.Ok? ==> && s.m.Some? && Fitted(s.x, s.y, s.m.value)
                      && var a, b := Some(t.value.0), Some(t.value.1);
                         && LowerFits(InfiniteTail, s.x[0], s.y[0], a, b, exp)
                         && LowerSlope(InfiniteTail, s.x[0], s.m.value[0], a, b, exp)
  {
    var e := EndQuery(s, true, sqrt);
    Ends(s);
    var (x0, y0, yp) := e.value;
    t := LowerExp(x0, y0, yp, log);
    bad := None;
    if t.Err? {
      if y0 > 0.0 {
        bad := Some(yp / y0);
      }
      return;
    }
    LowerExpFits(x0, y0, yp, exp, log);
  }

  /**
   * The INFINITE upper end: (a, b) of 1 - exp(b - a x) through the last
   * knot with the spline's slope there, after recomputing a dirty spline.
   */
  method UpperExpEnd(s: CubicHermiteSpline, sqrt: real -> real, exp: real -> real, log: real -> real)
    returns (t: Result<(real, real)>, bad: Option<real>)
    requires Tracks(s, sqrt) && |s.h| >= 2 && ExpLogLaw(exp, log)
    modifies s
    ensures Tracks(s, sqrt) && s.h == old(s.h) && s.args == old(s.args) && s.m.Some? && !s.Dirty()
    ensures !old(s.Dirty()) ==> s.x == old(s.x) && s.y == old(s.y) && s.m == old(s.m)
    ensures t == UpperExp(LastKnot(s.h).0, LastKnot(s.h).1, FitGradients(s.h, TableOf(s), sqrt)[|s.h| - 1], log)
    ensures t.Err? ==> t.error == RuntimeError
    ensures t.Ok? ==> && Fitted(s.x, s.y, s.m.value)
                      && var a, b, n := Some(t.value.0), Some(t.value.1), |s.x| - 1;
                         && UpperFits(InfiniteTail, s.x[n], s.y[n], a, b, exp)
                         && UpperSlope(InfiniteTail, s.x[n], s.m.value[n], a, b, exp)
  {
    var e := EndQuery(s, false, sqrt);
    Ends(s);
    bad := None;
    var (xn, yn, yp) := e.value;
    t := UpperExp(xn, yn, yp, log);
    if t.Err? {
      if yn < 1.0 {
        bad := Some(yp / (1.0 - yn));
      }
      return;
    }
    UpperExpFits(xn, yn, yp, exp, log);
  }

  /** The check of the lower end passes on the fit through h: SPLINE's tangent knot, INFINITE's exponential. */
  ghost predicate LowerPasses(h: seq<(real, real)>, fg: seq<(real, real)>, lb: Bound, sqrt: real -> real,
                              log: real -> real)
    requires DistinctKeys(h) && |h| >= 2 && SqrtLaw(sqrt)
  {
    && (lb.SplineTail? ==> LowerTangent(h, fg, sqrt).Ok?)
    && (lb.InfiniteTail? ==> LowerExp(FirstKnot(h).0, FirstKnot(h).1, FitGradients(h, fg, sqrt)[0], log).Ok?)
  }

  /** The check of the upper end passes on the fit through h. */
  ghost predicate UpperPasses(h: seq<(real, real)>, fg: seq<(real, real)>, ub: Bound, sqrt: real -> real,
                              log: real -> real)
    requires DistinctKeys(h) && |h| >= 2 && SqrtLaw(sqrt)
  {
    && (ub.SplineTail? ==> UpperTangent(h, fg, sqrt).Ok?)
    && (ub.InfiniteTail? ==>
          UpperExp(LastKnot(h).0, LastKnot(h).1, FitGradients(h, fg, sqrt)[|h| - 1], log).Ok?)
  }

  /** Both checks pass: the lower one on the first fit, the upper one after the lower end is closed. */
  ghost predicate EndsPass(h: seq<(real, real)>, fg: seq<(real, real)>, lb: Bound, ub: Bound, sqrt: real -> real,
                           log: real -> real)
    requires DistinctKeys(h) && |h| >= 2 && SqrtLaw(sqrt)
  {
    LowerPasses(h, fg, lb, sqrt, log) && UpperPasses(LowerKnots(h, fg, lb, sqrt), fg, ub, sqrt, log)
  }

  /**
   * The lower-tail step of `recompute` on the first fit: SPLINE adds the
   * knot where the tangent at the first knot reaches 0 (and fixes its
   * gradient at 0 when smoothed); INFINITE fits exp(a x + b) through the
   * first knot with the slope there; a Float bound is already the first
   * knot. (a0, c0) are `@exp_lb_a`, `@exp_lb_b` before and (a, c) after; a
   * failed check is RuntimeError.
   */
  method LowerEnd(s: CubicHermiteSpline, lb: Bound, smooth: Value, gfix: seq<(real, real)>, a0: Option<real>,
                  c0: Option<real>, sqrt: real -> real, exp: real -> real, log: real -> real,
                  ghost t: seq<(real, real)>, ghost h: seq<(real, real)>)
    returns (o: Outcome, gfix': seq<(real, real)>, a: Option<real>, c: Option<real>)
    requires Tracks(s, sqrt) && !s.Dirty() && |s.h| >= 2 && ExpLogLaw(exp, log) && DistinctKeys(gfix)
    requires TableOf(s) == t && s.h == h
    requires lb.At? ==> FirstKnot(s.h) == (lb.v, 0.0)
    requires !lb.Beyond?
    modifies s
    ensures Tracks(s, sqrt) && |s.h| >= 2 && s.args == old(s.args) && DistinctKeys(gfix')
    ensures o.Pass? <==> LowerPasses(h, t, lb, sqrt, log)
    ensures o.Fail? ==> o.error == RuntimeError && c == c0
    ensures !lb.InfiniteTail? ==> a == a0 && c == c0
    ensures o.Pass? ==> && s.h == LowerKnots(h, t, lb, sqrt)
                        && gfix' == LowerFixed(gfix, h, t, lb, smooth, sqrt)
                        && LastKnot(s.h) == LastKnot(h)
                        && LowerFits(lb, FirstKnot(s.h).0, FirstKnot(s.h).1, a, c, exp)
    ensures o.Pass? && !lb.SplineTail? ==> s.h == h && s.x == old(s.x) && s.y == old(s.y) && s.m == old(s.m)
    ensures o.Pass? && lb.InfiniteTail? ==> LowerSlope(lb, s.x[0], s.m.value[0], a, c, exp)
  {
    gfix', a, c := gfix, a0, c0;
    Ends(s);
    if lb.SplineTail? {
      var b := LowerSplineEnd(s, sqrt);
      if b.Err? {
        return Fail(b.error), gfix', a, c;
      }
      if Truthy(smooth) {
        StoreDistinct(gfix', b.value, 0.0);
        gfix' := Store(gfix', b.value, 0.0);
      }
    } else if lb.InfiniteTail? {
      var e, bad := LowerExpEnd(s, sqrt, exp, log);
      if e.Err? {
        if bad.Some? {
          a := bad;
        }
        return Fail(e.error), gfix', a, c;
      }
      a, c := Some(e.value.0), Some(e.value.1);
    }
    o := Pass;
  }

  /**
   * The upper-tail step: the same at the last knot, for probability 1 and
   * the tail 1 - exp(b - a x). The spline is recomputed first if the lower
   * step added a knot. The lower step left the first knot fitted to lb's
   * tail (la, lc), and that fit is kept.
   */
  method UpperEnd(s: CubicHermiteSpline, ub: Bound, smooth: Value, gfix: seq<(real, real)>, a0: Option<real>,
                  c0: Option<real>, sqrt: real -> real, exp: real -> real, log: real -> real,
                  ghost t: seq<(real, real)>, ghost h: seq<(real, real)>,
                  ghost lb: Bound, ghost la: Option<real>, ghost lc: Option<real>)
    returns (o: Outcome, gfix': seq<(real, real)>, a: Option<real>, c: Option<real>)
    requires Tracks(s, sqrt) && |s.h| >= 2 && ExpLogLaw(exp, log) && DistinctKeys(gfix)
    requires TableOf(s) == t && s.h == h
    requires ub.At? ==> LastKnot(s.h) == (ub.v, 1.0)
    requires !ub.Beyond?
    requires LowerFits(lb, FirstKnot(h).0, FirstKnot(h).1, la, lc, exp)
    requires !lb.SplineTail? ==> !s.Dirty() && LowerSlope(lb, s.x[0], s.m.value[0], la, lc, exp)
    modifies s
    ensures Tracks(s, sqrt) && |s.h| >= 2 && s.args == old(s.args) && DistinctKeys(gfix')
    ensures o.Pass? <==> UpperPasses(h, t, ub, sqrt, log)
    ensures o.Fail? ==> o.error == RuntimeError && c == c0
    ensures !ub.InfiniteTail? ==> a == a0 && c == c0
    ensures o.Pass? ==> && s.h == UpperKnots(h, t, ub, sqrt)
                        && gfix' == UpperFixed(gfix, h, t, ub, smooth, sqrt)
                        && EndsFitted(s, lb, ub, lb.SplineTail? || ub.SplineTail?, la, lc, a, c, exp)
  {
    gfix', a, c := gfix, a0, c0;
    o := Pass;
    if ub.SplineTail? {
      var b := UpperSplineEnd(s, sqrt);
      UpperSplineCase(h, t, ub, gfix, smooth, sqrt, log, b);
      if b.Err? {
        o := Fail(b.error);
      } else if Truthy(smooth) {
        StoreDistinct(gfix', b.value, 0.0);
        gfix' := Store(gfix', b.value, 0.0);
      }
    } else {
      UpperOtherCase(h, t, ub, gfix, smooth, sqrt, log);
      if ub.InfiniteTail? {
        var e, bad := UpperExpEnd(s, sqrt, exp, log);
        if e.Err? {
          if bad.Some? {
            a := bad;
          }
          o := Fail(e.error);
        } else {
          a, c := Some(e.value.0), Some(e.value.1);
          Ends(s);
        }
      }
    }
  }

  /** A SPLINE upper end: its check is the tangent knot b, which is added at 1 (and fixed at 0 when smoothed). */
  lemma UpperSplineCase(h: seq<(real, real)>, t: seq<(real, real)>, ub: Bound, gfix: seq<(real, real)>,
                        smooth: Value, sqrt: real -> real, log: real -> real, b: Result<real>)
    requires DistinctKeys(h) && |h| >= 2 && SqrtLaw(sqrt) && ub.SplineTail? && b == UpperTangent(h, t, sqrt)
    ensures UpperPasses(h, t, ub, sqrt, log) == b.Ok?
    ensures b.Ok? ==> && UpperKnots(h, t, ub, sqrt) == Store(h, b.value, 1.0)
                      && UpperFixed(gfix, h, t, ub, smooth, sqrt)
                         == if Truthy(smooth) then Store(gfix, b.value, 0.0) else gfix
  {
  }

  /** Any other upper end adds no knot and no fixed gradient; only INFINITE has a check. */
  lemma UpperOtherCase(h: seq<(real, real)>, t: seq<(real, real)>, ub: Bound, gfix: seq<(real, real)>,
                       smooth: Value, sqrt: real -> real, log: real -> real)
    requires DistinctKeys(h) && |h| >= 2 && SqrtLaw(sqrt) && !ub.SplineTail?
    ensures UpperKnots(h, t, ub, sqrt) == h && UpperFixed(gfix, h, t, ub, smooth, sqrt) == gfix
    ensures UpperPasses(h, t, ub, sqrt, log) <==>
              (ub.InfiniteTail? ==> UpperExp(LastKnot(h).0, LastKnot(h).1, FitGradients(h, t, sqrt)[|h| - 1], log).Ok?)
  {
  }

  /**
   * A computed model on the spline `s`: it is fitted, and the cache's domain,
   * tails and moments are those of its columns.
   */
  ghost predicate SplineModels(s: CubicHermiteSpline, lb: Bound, ub: Bound, c: Cache, exp: real -> real)
    reads s
  {
    && s.m.Some? && !s.Dirty() && Fitted(s.x, s.y, s.m.value)
    && ModelOf(lb, ub, s.x, s.y, s.m.value, c.expLbA, c.expLbB, c.expUbA, c.expUbB,
               c.smin, c.smax, c.mean, c.variance, exp)
  }

  /**
   * The fitting part of `recompute` succeeds on the sampled cdf scdf: the
   * first fit has two knots and both end checks pass.
   */
  ghost predicate FitPasses(scdf: seq<(real, real)>, lb: Bound, ub: Bound, smoothLb: Value, smoothUb: Value,
                            sqrt: real -> real, log: real -> real)
    requires SqrtLaw(sqrt)
  {
    var h1 := WithBounds(EnterAll([], scdf), lb, ub);
    DistinctKeys(h1) && |h1| >= 2 && EndsPass(h1, FirstFixed(lb, ub, smoothLb, smoothUb), lb, ub, sqrt, log)
  }

  /** The lower end's knots, fixed gradients and check depend on the fixed gradients only through the fit. */
  lemma LowerSame(h: seq<(real, real)>, t: seq<(real, real)>, g: seq<(real, real)>, lb: Bound,
                  gfix: seq<(real, real)>, smooth: Value, sqrt: real -> real, log: real -> real)
    requires DistinctKeys(h) && |h| >= 2 && SqrtLaw(sqrt) && FitGradients(h, t, sqrt) == FitGradients(h, g, sqrt)
    ensures LowerKnots(h, t, lb, sqrt) == LowerKnots(h, g, lb, sqrt)
    ensures LowerFixed(gfix, h, t, lb, smooth, sqrt) == LowerFixed(gfix, h, g, lb, smooth, sqrt)
    ensures LowerPasses(h, t, lb, sqrt, log) == LowerPasses(h, g, lb, sqrt, log)
  {
  }

  /** The upper end's likewise. */
  lemma UpperSame(h: seq<(real, real)>, t: seq<(real, real)>, g: seq<(real, real)>, ub: Bound,
                  gfix: seq<(real, real)>, smooth: Value, sqrt: real -> real, log: real -> real)
    requires DistinctKeys(h) && |h| >= 2 && SqrtLaw(sqrt) && FitGradients(h, t, sqrt) == FitGradients(h, g, sqrt)
    ensures UpperKnots(h, t, ub, sqrt) == UpperKnots(h, g, ub, sqrt)
    ensures UpperFixed(gfix, h, t, ub, smooth, sqrt) == UpperFixed(gfix, h, g, ub, smooth, sqrt)
    ensures UpperPasses(h, t, ub, sqrt, log) == UpperPasses(h, g, ub, sqrt, log)
  {
  }

  /** The closed ends depend on the fixed gradients only through what they name. */
  lemma EndsSame(h: seq<(real, real)>, t: seq<(real, real)>, g: seq<(real, real)>, lb: Bound, ub: Bound,
                 gfix0: seq<(real, real)>, smoothLb: Value, smoothUb: Value, sqrt: real -> real, log: real -> real)
    requires DistinctKeys(h) && |h| >= 2 && SqrtLaw(sqrt) && SameTable(t, g)
    ensures FinalKnots(h, t, lb, ub, sqrt) == FinalKnots(h, g, lb, ub, sqrt)
    ensures FinalFixed(gfix0, h, t, lb, ub, smoothLb, smoothUb, sqrt)
            == FinalFixed(gfix0, h, g, lb, ub, smoothLb, smoothUb, sqrt)
    ensures EndsPass(h, t, lb, ub, sqrt, log) == EndsPass(h, g, lb, ub, sqrt, log)
  {
    FitGradientsSame(h, t, g, sqrt);
    LowerSame(h, t, g, lb, gfix0, smoothLb, sqrt, log);
    var h' := LowerKnots(h, g, lb, sqrt);
    FitGradientsSame(h', t, g, sqrt);
    UpperSame(h', t, g, ub, LowerFixed(gfix0, h, g, lb, smoothLb, sqrt), smoothUb, sqrt, log);
  }

  /**
   * The fitting part of `recompute` on the sampled cdf, from the derived
   * fields c0 it finds: the first fit, each end by its policy, the respline
   * with the fixed gradients if a SPLINE end added a knot, then
   * `@smin, @smax = @spline.domain` and `compute_moments`. It fails exactly
   * when the first fit has fewer than two knots or an end check fails, and
   * then leaves the cached domain and moments alone (a failed INFINITE check
   * may have stored its a).
   */
  method FitModel(scdf: seq<(real, real)>, lb: Bound, ub: Bound, smoothLb: Value, smoothUb: Value, c0: Cache,
                  sqrt: real -> real, exp: real -> real, log: real -> real)
    returns (s: CubicHermiteSpline, o: Outcome, c: Cache)
    requires SqrtLaw(sqrt) && ExpLogLaw(exp, log) && |scdf| > 0
    requires forall i :: 0 <= i < |scdf| ==> Inside(scdf[i].0, lb, true) && Inside(scdf[i].0, ub, false)
    requires (lb.Beyond? ==> !lb.negative) && (ub.Beyond? ==> ub.negative)
    ensures fresh(s) && Monotonic(s)
    ensures o.Pass? <==> FitPasses(scdf, lb, ub, smoothLb, smoothUb, sqrt, log)
    ensures o.Fail? ==>
              o.error == (if |WithBounds(EnterAll([], scdf), lb, ub)| < 2 then ArgumentError else RuntimeError)
    ensures o.Fail? ==> c.smin == c0.smin && c.smax == c0.smax && c.mean == c0.mean && c.variance == c0.variance
    ensures o.Pass? ==> SplineModels(s, lb, ub, c, exp) && FitFrom(s, scdf, lb, ub, smoothLb, smoothUb, sqrt)
  {
    assert !lb.Beyond? && !ub.Beyond? by {
      assert Inside(scdf[0].0, lb, true) && Inside(scdf[0].0, ub, false);
    }
    var gfix;
    c := c0;
    s, o, gfix := FirstFit(scdf, lb, ub, smoothLb, smoothUb, sqrt);
    FitPassesOf(scdf, lb, ub, smoothLb, smoothUb, sqrt, log);
    if o.Fail? {
      return;
    }
    o, c := FitTails(s, lb, ub, smoothLb, smoothUb, gfix, c0, sqrt, exp, log);
  }

  /** The fitting part passes exactly when the first fit has two knots and both end checks pass on it. */
  lemma FitPassesOf(scdf: seq<(real, real)>, lb: Bound, ub: Bound, smoothLb: Value, smoothUb: Value,
                    sqrt: real -> real, log: real -> real)
    requires SqrtLaw(sqrt) && DistinctKeys(WithBounds(EnterAll([], scdf), lb, ub))
    ensures var h1 := WithBounds(EnterAll([], scdf), lb, ub);
            FitPasses(scdf, lb, ub, smoothLb, smoothUb, sqrt, log) <==>
              |h1| >= 2 && EndsPass(h1, FirstFixed(lb, ub, smoothLb, smoothUb), lb, ub, sqrt, log)
  {
  }

  /**
   * The rest of the fitting part of `recompute` on the first fit s with its
   * fixed gradients gfix0: both ends, then the respline and the moments.
   */
  method FitTails(s: CubicHermiteSpline, lb: Bound, ub: Bound, smoothLb: Value, smoothUb: Value,
                  gfix0: seq<(real, real)>, c0: Cache, sqrt: real -> real, exp: real -> real, log: real -> real)
    returns (o: Outcome, c: Cache)
    requires Tracks(s, sqrt) && !s.Dirty() && |s.h| >= 2 && ExpLogLaw(exp, log)
    requires DistinctKeys(gfix0) && SameTable(TableOf(s), gfix0)
    requires !lb.Beyond? && !ub.Beyond?
    requires lb.At? ==> FirstKnot(s.h) == (lb.v, 0.0)
    requires ub.At? ==> LastKnot(s.h) == (ub.v, 1.0)
    modifies s
    ensures Monotonic(s)
    ensures o.Pass? <==> EndsPass(old(s.h), gfix0, lb, ub, sqrt, log)
    ensures o.Fail? ==> o.error == RuntimeError
    ensures o.Fail? ==> c.smin == c0.smin && c.smax == c0.smax && c.mean == c0.mean && c.variance == c0.variance
    ensures o.Pass? ==> && SplineModels(s, lb, ub, c, exp)
                        && s.h == FinalKnots(old(s.h), gfix0, lb, ub, sqrt)
                        && var gfix := FinalFixed(gfix0, old(s.h), gfix0, lb, ub, smoothLb, smoothUb, sqrt);
                           SameTable(TableOf(s), gfix) && s.m.value == FitGradients(s.h, gfix, sqrt)
  {
    var gfix, respline, la, lc, ua, uc;
    ghost var h1, t := s.h, TableOf(s);
    EndsSame(h1, t, gfix0, lb, ub, gfix0, smoothLb, smoothUb, sqrt, log);
    o, gfix, respline, la, lc, ua, uc :=
      FitEnds(s, lb, ub, smoothLb, smoothUb, gfix0, c0.expLbA, c0.expLbB, c0.expUbA, c0.expUbB, sqrt, exp, log, t, h1);
    c := c0.(expLbA := la, expLbB := lc, expUbA := ua, expUbB := uc);
    if o.Fail? {
      return;
    }
    o, c := Close(s, lb, ub, gfix, respline, c, sqrt, exp);
    FitGradientsSame(s.h, TableOf(s), gfix, sqrt);
  }

  /**
   * Both ends are closed on the monotonic spline s: each end knot meets its
   * tail, `respline` says whether a SPLINE end added a knot, and when none
   * did the spline is still fitted with each INFINITE tail's slope matching.
   */
  ghost predicate EndsFitted(s: CubicHermiteSpline, lb: Bound, ub: Bound, respline: bool, la: Option<real>,
                             lc: Option<real>, ua: Option<real>, uc: Option<real>, exp: real -> real)
    reads s
  {
    && Monotonic(s) && |s.h| >= 2
    && LowerFits(lb, FirstKnot(s.h).0, FirstKnot(s.h).1, la, lc, exp)
    && UpperFits(ub, LastKnot(s.h).0, LastKnot(s.h).1, ua, uc, exp)
    && respline == (lb.SplineTail? || ub.SplineTail?)
    && (!respline ==> && s.m.Some? && !s.Dirty() && Fitted(s.x, s.y, s.m.value)
                      && LowerSlope(lb, s.x[0], s.m.value[0], la, lc, exp)
                      && UpperSlope(ub, s.x[|s.x| - 1], s.m.value[|s.x| - 1], ua, uc, exp))
  }

  /**
   * Both ends of the first fit, from the tail parameters (la0, lc0) and
   * (ua0, uc0) it finds to (la, lc) and (ua, uc); `respline` tells whether a
   * SPLINE end added a knot. It passes exactly when both end checks do, and
   * then leaves the knots and fixed gradients of the final spline.
   */
  method FitEnds(s: CubicHermiteSpline, lb: Bound, ub: Bound, smoothLb: Value, smoothUb: Value,
                 gfix0: seq<(real, real)>, la0: Option<real>, lc0: Option<real>, ua0: Option<real>,
                 uc0: Option<real>, sqrt: real -> real, exp: real -> real, log: real -> real,
                 ghost t: seq<(real, real)>, ghost h: seq<(real, real)>)
    returns (o: Outcome, gfix: seq<(real, real)>, respline: bool,
             la: Option<real>, lc: Option<real>, ua: Option<real>, uc: Option<real>)
    requires Tracks(s, sqrt) && !s.Dirty() && |s.h| >= 2 && ExpLogLaw(exp, log) && DistinctKeys(gfix0)
    requires TableOf(s) == t && s.h == h
    requires !lb.Beyond? && !ub.Beyond?
    requires lb.At? ==> FirstKnot(s.h) == (lb.v, 0.0)
    requires ub.At? ==> LastKnot(s.h) == (ub.v, 1.0)
    modifies s
    ensures Tracks(s, sqrt) && s.args == old(s.args)
    ensures o.Pass? <==> EndsPass(h, t, lb, ub, sqrt, log)
    ensures o.Fail? ==> o.error == RuntimeError
    ensures o.Pass? ==> && EndsFitted(s, lb, ub, respline, la, lc, ua, uc, exp) && DistinctKeys(gfix)
                        && s.h == FinalKnots(h, t, lb, ub, sqrt)
                        && gfix == FinalFixed(gfix0, h, t, lb, ub, smoothLb, smoothUb, sqrt)
  {
    respline, ua, uc := false, ua0, uc0;
    o, gfix, la, lc := LowerEnd(s, lb, smoothLb, gfix0, la0, lc0, sqrt, exp, log, t, h);
    if o.Fail? {
      LowerFailsEnds(h, t, lb, ub, sqrt, log);
      return;
    }
    ghost var h1, g1 := s.h, gfix;
    o, gfix, ua, uc := UpperEnd(s, ub, smoothUb, gfix, ua, uc, sqrt, exp, log, t, h1, lb, la, lc);
    respline := lb.SplineTail? || ub.SplineTail?;
    EndsCompose(h, t, lb, ub, gfix0, smoothLb, smoothUb, h1, g1, sqrt, log);
  }

  /** A failed lower check fails both checks. */
  lemma LowerFailsEnds(h: seq<(real, real)>, t: seq<(real, real)>, lb: Bound, ub: Bound, sqrt: real -> real,
                       log: real -> real)
    requires DistinctKeys(h) && |h| >= 2 && SqrtLaw(sqrt) && !LowerPasses(h, t, lb, sqrt, log)
    ensures !EndsPass(h, t, lb, ub, sqrt, log)
  {
  }

  /** Closing the lower end and then the upper end composes to FinalKnots, FinalFixed and EndsPass. */
  lemma EndsCompose(h: seq<(real, real)>, t: seq<(real, real)>, lb: Bound, ub: Bound, gfix0: seq<(real, real)>,
                    smoothLb: Value, smoothUb: Value, h1: seq<(real, real)>, g1: seq<(real, real)>,
                    sqrt: real -> real, log: real -> real)
    requires DistinctKeys(h) && |h| >= 2 && SqrtLaw(sqrt) && LowerPasses(h, t, lb, sqrt, log)
    requires h1 == LowerKnots(h, t, lb, sqrt) && g1 == LowerFixed(gfix0, h, t, lb, smoothLb, sqrt)
    ensures EndsPass(h, t, lb, ub, sqrt, log) == UpperPasses(h1, t, ub, sqrt, log)
    ensures FinalKnots(h, t, lb, ub, sqrt) == UpperKnots(h1, t, ub, sqrt)
    ensures FinalFixed(gfix0, h, t, lb, ub, smoothLb, smoothUb, sqrt) == UpperFixed(g1, h1, t, ub, smoothUb, sqrt)
  {
  }

  /**
   * The end of `recompute`: respline with the fixed gradients if a SPLINE
   * end added a knot, cache the domain, then `compute_moments`.
   */
  method Close(s: CubicHermiteSpline, lb: Bound, ub: Bound, gfix: seq<(real, real)>, respline: bool, c0: Cache,
               sqrt: real -> real, exp: real -> real)
    returns (o: Outcome, c: Cache)
    requires Tracks(s, sqrt) && DistinctKeys(gfix)
    requires EndsFitted(s, lb, ub, respline, c0.expLbA, c0.expLbB, c0.expUbA, c0.expUbB, exp)
    requires !respline ==> SameTable(TableOf(s), gfix)
    modifies s
    ensures Tracks(s, sqrt) && s.h == old(s.h) && SameTable(TableOf(s), gfix) && o == Pass
    ensures SplineModels(s, lb, ub, c, exp)
  {
    var d;
    c := c0;
    o, d := Refit(s, gfix, respline, sqrt);
    var x, y, m := s.x, s.y, s.m.value;
    var n := |x| - 1;
    assert LowerFits(lb, x[0], y[0], c.expLbA, c.expLbB, exp);
    assert UpperFits(ub, x[n], y[n], c.expUbA, c.expUbB, exp);
    if respline && !ub.SplineTail? {
      assert !lb.InfiniteTail?;
    }
    if respline && !lb.SplineTail? {
      assert !ub.InfiniteTail?;
    }
    var ex, v := ModelMoments(lb, ub, x, y, m, c.expLbA, c.expLbB, c.expUbA, c.expUbB, exp);
    c := c.(smin := Some(d.0), smax := Some(d.1), mean := Some(ex), variance := Some(v));
  }

  /** The spline side of `cdf(t)`: the dispatch, then `@spline.q(t)` inside the domain. */
  method CdfAt(s: CubicHermiteSpline, lb: Bound, ub: Bound, c: Cache, t: real, sqrt: real -> real,
               exp: real -> real)
    returns (r: Result<real>)
    requires Monotonic(s) && SqrtLaw(sqrt)
    modifies s
    ensures Monotonic(s) && s.h == old(s.h)
    ensures !old(s.Dirty()) ==> s.x == old(s.x) && s.y == old(s.y) && s.m == old(s.m)
    ensures CdfDispatch(lb, ub, c, t, exp).Decided? ==> r == CdfDispatch(lb, ub, c, t, exp).r && unchanged(s)
    ensures CdfDispatch(lb, ub, c, t, exp).AskSpline? ==>
              && (r.Ok? ==> s.m.Some? && Fitted(s.x, s.y, s.m.value) && r.value == QOf(s.x, s.y, s.m.value, t))
              && (!old(s.Dirty()) ==> r.Ok?)
  {
    var d := CdfDispatch(lb, ub, c, t, exp);
    if d.Decided? {
      return d.r;
    }
    r := s.Q(Float(t), sqrt);
  }

  /** The spline side of `pdf(t)`: the dispatch, then `@spline.qp(t)` inside the domain. */
  method PdfAt(s: CubicHermiteSpline, lb: Bound, ub: Bound, c: Cache, t: real, sqrt: real -> real,
               exp: real -> real)
    returns (r: Result<real>)
    requires Monotonic(s) && SqrtLaw(sqrt)
    modifies s
    ensures Monotonic(s) && s.h == old(s.h)
    ensures !old(s.Dirty()) ==> s.x == old(s.x) && s.y == old(s.y) && s.m == old(s.m)
    ensures PdfDispatch(lb, ub, c, t, exp).Decided? ==> r == PdfDispatch(lb, ub, c, t, exp).r && unchanged(s)
    ensures PdfDispatch(lb, ub, c, t, exp).AskSpline? ==>
              && (r.Ok? ==> s.m.Some? && Fitted(s.x, s.y, s.m.value) && r.value == QpOf(s.x, s.y, s.m.value, t))
              && (!old(s.Dirty()) ==> r.Ok?)
  {
    var d := PdfDispatch(lb, ub, c, t, exp);
    if d.Decided? {
      return d.r;
    }
    r := s.Qp(Float(t), sqrt);
  }

  /** `v` is the support of the fitted spline `s` under the bounds `lb` and `ub`. */
  predicate SupportIs(s: CubicHermiteSpline, lb: Bound, ub: Bound, v: (Value, Value))
    reads s
  {
    && s.m.Some? && Fitted(s.x, s.y, s.m.value)
    && v == SupportOf(lb, ub, s.x[0], s.x[|s.x| - 1])
  }

  /** The spline side of `support`: `@spline.domain`, with an INFINITE end replaced by an infinity. */
  method SupportAt(s: CubicHermiteSpline, lb: Bound, ub: Bound, sqrt: real -> real) returns (r: Result<(Value, Value)>)
    requires Monotonic(s) && SqrtLaw(sqrt)
    modifies s
    ensures Monotonic(s) && s.h == old(s.h)
    ensures !old(s.Dirty()) ==> r.Ok? && s.x == old(s.x) && s.y == old(s.y) && s.m == old(s.m)
    ensures r.Ok? ==> SupportIs(s, lb, ub, r.value)
  {
    var d := s.Domain(sqrt);
    if d.Err? {
      return Err(d.error);
    }
    r := Ok(SupportOf(lb, ub, d.value.0, d.value.1));
  }

  // --------------------------------------------------------------- the class

  /** `@args`: the configuration Hash with its six keys. */
  datatype DistArgs = DistArgs(data: Value, cdfLb: Value, cdfUb: Value, cdfSmoothLb: Value,
                               cdfSmoothUb: Value, cdfQuantile: Value)

  /** The argument Hash given to `configure`: each key present or absent. */
  datatype DistConfig = DistConfig(data: Option<Value>, cdfLb: Option<Value>, cdfUb: Option<Value>,
                                   cdfSmoothLb: Option<Value>, cdfSmoothUb: Option<Value>,
                                   cdfQuantile: Option<Value>)

  /** The factory defaults `reset` installs: SPLINE tails, no smoothing, quantile 0.05. */
  function DistDefaults(): DistArgs
  {
    DistArgs(Nil, Str(SplineName), Str(SplineName), Bool(false), Bool(false), Float(0.05))
  }

  /** `@args.merge!(args)`: every key given replaces the stored one. */
  function DistMerge(a: DistArgs, c: DistConfig): DistArgs
  {
    DistArgs(if c.data.Some? then c.data.value else a.data,
             if c.cdfLb.Some? then c.cdfLb.value else a.cdfLb,
             if c.cdfUb.Some? then c.cdfUb.value else a.cdfUb,
             if c.cdfSmoothLb.Some? then c.cdfSmoothLb.value else a.cdfSmoothLb,
             if c.cdfSmoothUb.Some? then c.cdfSmoothUb.value else a.cdfSmoothUb,
             if c.cdfQuantile.Some? then c.cdfQuantile.value else a.cdfQuantile)
  }

  /** A `:cdf_quantile` that `configure` accepts: a finite value whose `to_f` is strictly between 0 and 1. */
  predicate QuantileOk(v: Value)
  {
    !v.Infinity? && HasToF(v) && 0.0 < ToF(v).value < 1.0
  }

  /**
   * As written, `configure(:cdf_quantile => 0)` fails its range check yet
   * has already stored `to_f` of the value, 0.0 (see `CheckQuantile`); from
   * then on the `until` loop of `sampled_cdf` never lifts qcur above q.
   */
  lemma AsWrittenZeroQuantileStalls(qcur: real, q: real, n: nat)
    requires qcur <= q
    ensures !QuantileOk(Int(0)) && ToF(Int(0)) == Ok(0.0)
    ensures Climb(qcur, ToF(Int(0)).value, n) <= q
  {
    ClimbStalls(qcur, q, 0.0, n);
  }

  /**
   * The quantile `configure` leaves as evidently intended: the value is
   * checked before it is stored, so a rejected one keeps the previous
   * quantile and a usable quantile stays usable.
   */
  function CheckedQuantile(q0: real, v: Value): (r: real)
    ensures r == q0 || QuantileOk(v)
    ensures 0.0 < q0 < 1.0 ==> 0.0 < r < 1.0
  {
    if QuantileOk(v) then ToF(v).value else q0
  }

  /** Under the intended check the `until` loop of `sampled_cdf` always ends, whatever was configured. */
  lemma CheckedQuantileEnds(q0: real, v: Value, qcur: real, q: real)
    requires 0.0 < q0 < 1.0 && qcur <= q
    ensures var w := CheckedQuantile(q0, v); w > 0.0 && Climb(qcur, w, Rounds(qcur, q, w)) > q
  {
  }

  /** A snapshot of the configuration fields of a SplineDistribution. */
  datatype Settings = Settings(args: DistArgs, cdfLb: Bound, cdfUb: Bound, smoothLb: Value, smoothUb: Value,
                               quantile: real)

  /** A snapshot of the fields `recompute` derives. */
  datatype Cache = Cache(smin: Option<real>, smax: Option<real>, expLbA: Option<real>, expLbB: Option<real>,
                         expUbA: Option<real>, expUbB: Option<real>, mean: Option<real>, variance: Option<real>)

  class SplineDistribution {
    var args: DistArgs
    /** `@cdf_lb`, `@cdf_ub`: the tail policies as `checkba` returned them */
    var cdfLb: Bound
    var cdfUb: Bound
    var smoothLb: Value
    var smoothUb: Value
    var quantile: real
    /** `@data`, the raw samples */
    var data: seq<real>
    /** `@spline`, nil while the model is dirty */
    var spline: CubicHermiteSpline?
    var smin: Option<real>
    var smax: Option<real>
    var expLbA: Option<real>
    var expLbB: Option<real>
    var expUbA: Option<real>
    var expUbB: Option<real>
    var mean: Option<real>
    var variance: Option<real>

    ghost predicate Valid()
      reads this`args, this`cdfLb, this`cdfUb, this`spline, spline
    {
      && Finite(args.data)
      && (cdfLb.Beyond? ==> !cdfLb.negative) && (cdfUb.Beyond? ==> cdfUb.negative)
      && (spline != null ==> Monotonic(spline))
    }

    /** `dirty?` */
    predicate Dirty()
      reads this
    {
      spline == null
    }

    /** The configuration fields, which only `configure` and `reset` change. */
    ghost function Setup(): Settings
      reads this`args, this`cdfLb, this`cdfUb, this`smoothLb, this`smoothUb, this`quantile
    {
      Settings(args, cdfLb, cdfUb, smoothLb, smoothUb, quantile)
    }

    /** The model fields `recompute` derives. */
    ghost function Derived(): Cache
      reads this`smin, this`smax, this`expLbA, this`expLbB, this`expUbA, this`expUbB, this`mean, this`variance
    {
      Cache(smin, smax, expLbA, expLbB, expUbA, expUbB, mean, variance)
    }

    /**
     * A computed model: the spline is fitted, and the cached domain, tails
     * and moments are those of its columns.
     */
    ghost predicate Modelled(exp: real -> real)
      reads this, spline
    {
      && spline != null && spline.m.Some? && !spline.Dirty()
      && Fitted(spline.x, spline.y, spline.m.value)
      && ModelOf(cdfLb, cdfUb, spline.x, spline.y, spline.m.value, expLbA, expLbB, expUbA, expUbB,
                 smin, smax, mean, variance, exp)
    }

    /** A computed model on the spline with the cached fields is what Modelled states. */
    lemma ModelledOf(exp: real -> real)
      requires spline != null && SplineModels(spline, cdfLb, cdfUb, Derived(), exp)
      ensures Modelled(exp)
    {
    }

    /** `initialize({})`: `reset`, then `configure` with the defaults, which it accepts. */
    constructor ()
      ensures Valid() && Dirty()
      ensures args == DistDefaults() && data == []
      ensures cdfLb == SplineTail && cdfUb == SplineTail
      ensures smoothLb == Bool(false) && smoothUb == Bool(false) && quantile == 0.05
    {
      args := DistDefaults();
      cdfLb, cdfUb := SplineTail, SplineTail;
      smoothLb, smoothUb := Bool(false), Bool(false);
      quantile := 0.05;
      data := [];
      spline := null;
      smin, smax := None, None;
      expLbA, expLbB, expUbA, expUbB := None, None, None, None;
      mean, variance := None, None;
    }

    /** `reset`: factory-default arguments, then `clear`. The checked fields keep their values. */
    method Reset()
      requires Valid()
      modifies this
      ensures Valid() && Dirty()
      ensures args == DistDefaults() && data == []
      ensures cdfLb == old(cdfLb) && cdfUb == old(cdfUb) && quantile == old(quantile)
      ensures smoothLb == old(smoothLb) && smoothUb == old(smoothUb) && Derived() == old(Derived())
    {
      args := DistDefaults();
      Clear();
    }

    /** `clear`: drop the data and the model. */
    method Clear()
      modifies this
      ensures Dirty() && data == [] && Setup() == old(Setup()) && Derived() == old(Derived())
    {
      ClearData();
      MarkDirty();
    }

    /** `clear_data`: drop the data but keep the model for use. */
    method ClearData()
      modifies this
      ensures data == [] && spline == old(spline) && Setup() == old(Setup()) && Derived() == old(Derived())
    {
      data := [];
    }

    /** `dirty!` */
    method MarkDirty()
      modifies this
      ensures Dirty() && data == old(data) && Setup() == old(Setup()) && Derived() == old(Derived())
    {
      spline := null;
    }

    /** `enter(data)`: append the samples and mark dirty; an empty list changes nothing. */
    method Enter(d: seq<real>)
      modifies this
      ensures data == old(data) + d && Setup() == old(Setup()) && Derived() == old(Derived())
      ensures |d| == 0 ==> spline == old(spline)
      ensures |d| > 0 ==> Dirty()
    {
      if |d| == 0 {
        return;
      }
      data := data + d;
      MarkDirty();
    }

    /** `put(data)` and `<<`: enter a number or an Array of numbers as floats. */
    method Put(v: Value) returns (o: Outcome)
      requires Valid() && Finite(v)
      modifies this
      ensures Valid() && Setup() == old(Setup()) && Derived() == old(Derived())
      ensures SampleData(v).Err? ==> o == Fail(ArgumentError) && data == old(data) && spline == old(spline)
      ensures SampleData(v).Ok? ==> o == Pass && data == old(data) + SampleData(v).value
      ensures SampleData(v).Ok? && |SampleData(v).value| > 0 ==> Dirty()
      ensures SampleData(v).Ok? && |SampleData(v).value| == 0 ==> spline == old(spline)
    {
      var d := SampleData(v);
      if d.Err? {
        return Fail(ArgumentError);
      }
      Enter(d.value);
      o := Pass;
    }

    /**
     * `configure(args)`: merge the arguments, check each bound, copy the
     * smoothing flags, check the quantile, replace the data when given, and
     * mark dirty. Each check raises ArgumentError, leaving what was already
     * assigned in place.
     */
    method Configure(c: DistConfig) returns (o: Outcome)
      requires Valid() && (c.data.Some? ==> Finite(c.data.value))
      modifies this
      ensures Valid() && Derived() == old(Derived())
      ensures var a := DistMerge(old(args), c);
              var lb, ub := CheckBa(a.cdfLb, true), CheckBa(a.cdfUb, false);
              && (lb.Err? ==> o == Fail(ArgumentError) && cdfLb == old(cdfLb))
              && (lb.Ok? ==> cdfLb == lb.value)
              && (lb.Ok? && ub.Ok? ==> cdfUb == ub.value && smoothLb == a.cdfSmoothLb && smoothUb == a.cdfSmoothUb)
              && (lb.Err? || ub.Err? ==> o == Fail(ArgumentError) && cdfUb == old(cdfUb) && quantile == old(quantile)
                                         && smoothLb == old(smoothLb) && smoothUb == old(smoothUb))
              && (lb.Err? || ub.Err? || !QuantileOk(a.cdfQuantile) ==>
                    o == Fail(ArgumentError) && args == a && data == old(data) && spline == old(spline))
              && (lb.Ok? && ub.Ok? && !a.cdfQuantile.Infinity? && HasToF(a.cdfQuantile) ==>
                    quantile == ToF(a.cdfQuantile).value)
              && (lb.Ok? && ub.Ok? && !QuantileOk(a.cdfQuantile) && !(!a.cdfQuantile.Infinity? && HasToF(a.cdfQuantile)) ==>
                    quantile == old(quantile))
              && (lb.Ok? && ub.Ok? && QuantileOk(a.cdfQuantile) ==>
                    && Dirty()
                    && (!Truthy(a.data) ==> o == Pass && args == a && data == old(data))
                    && (Truthy(a.data) && SampleData(a.data).Err? ==> o == Fail(ArgumentError) && args == a && data == [])
                    && (Truthy(a.data) && SampleData(a.data).Ok? ==>
                          o == Pass && args == a.(data := Nil) && data == SampleData(a.data).value))
    {
      args := DistMerge(args, c);
      o := CheckBounds();
      if o.Fail? {
        return;
      }
      o := CheckQuantile();
      if o.Fail? {
        return;
      }
      if Truthy(args.data) {
        o := ReplaceData();
        if o.Fail? {
          return;
        }
      }
      MarkDirty();
    }

    /** The bound checks of `configure`, then the smoothing flags. */
    method CheckBounds() returns (o: Outcome)
      requires Valid()
      modifies this
      ensures Valid() && args == old(args) && data == old(data) && spline == old(spline)
      ensures quantile == old(quantile) && Derived() == old(Derived())
      ensures var lb, ub := CheckBa(args.cdfLb, true), CheckBa(args.cdfUb, false);
              && (o.Pass? <==> lb.Ok? && ub.Ok?) && (o.Fail? ==> o.error == ArgumentError)
              && (lb.Ok? ==> cdfLb == lb.value) && (lb.Err? ==> cdfLb == old(cdfLb))
              && (o.Pass? ==> cdfUb == ub.value && smoothLb == args.cdfSmoothLb && smoothUb == args.cdfSmoothUb)
              && (o.Fail? ==> cdfUb == old(cdfUb) && smoothLb == old(smoothLb) && smoothUb == old(smoothUb))
    {
      var lb := CheckBa(args.cdfLb, true);
      if lb.Err? {
        return Fail(ArgumentError);
      }
      if lb.value.Beyond? {
        BeyondIsFarSide(args.cdfLb, true);
      }
      cdfLb := lb.value;
      var ub := CheckBa(args.cdfUb, false);
      if ub.Err? {
        return Fail(ArgumentError);
      }
      if ub.value.Beyond? {
        BeyondIsFarSide(args.cdfUb, false);
      }
      cdfUb := ub.value;
      smoothLb, smoothUb := args.cdfSmoothLb, args.cdfSmoothUb;
      o := Pass;
    }

    /**
     * The quantile check of `configure`: `to_f` (stored before the range
     * check), then 0 < q < 1; any failure is ArgumentError.
     */
    method CheckQuantile() returns (o: Outcome)
      modifies this
      ensures args == old(args) && cdfLb == old(cdfLb) && cdfUb == old(cdfUb) && smoothLb == old(smoothLb)
      ensures smoothUb == old(smoothUb) && data == old(data) && spline == old(spline) && Derived() == old(Derived())
      ensures var q := args.cdfQuantile;
              && (o.Pass? <==> QuantileOk(q)) && (o.Fail? ==> o.error == ArgumentError)
              && (!q.Infinity? && HasToF(q) ==> quantile == ToF(q).value)
              && (q.Infinity? || !HasToF(q) ==> quantile == old(quantile))
    {
      if args.cdfQuantile.Infinity? || !HasToF(args.cdfQuantile) {
        return Fail(ArgumentError);
      }
      quantile := ToF(args.cdfQuantile).value;
      if quantile <= 0.0 || quantile >= 1.0 {
        return Fail(ArgumentError);
      }
      o := Pass;
    }

    /** The `:data` step of `configure`: `clear`, then enter the samples and forget the argument. */
    method ReplaceData() returns (o: Outcome)
      requires Finite(args.data)
      modifies this
      ensures cdfLb == old(cdfLb) && cdfUb == old(cdfUb) && smoothLb == old(smoothLb) && smoothUb == old(smoothUb)
      ensures quantile == old(quantile) && Derived() == old(Derived()) && Dirty()
      ensures var d := SampleData(old(args.data));
              && (d.Err? ==> o == Fail(ArgumentError) && args == old(args) && data == [])
              && (d.Ok? ==> o == Pass && args == old(args).(data := Nil) && data == d.value)
    {
      Clear();
      var d := SampleData(args.data);
      if d.Err? {
        return Fail(ArgumentError);
      }
      Enter(d.value);
      args := args.(data := Nil);
      o := Pass;
    }

    /**
     * `recompute`: when dirty, keep the samples inside the Float bounds (in
     * place), refuse fewer than two, sort them (in place), sample their cdf,
     * fit it, close each end by its policy, respline if a SPLINE end added a
     * knot, cache the domain and compute the moments.
     */
    method Recompute(sqrt: real -> real, exp: real -> real, log: real -> real) returns (o: Outcome)
      requires Valid() && quantile > 0.0 && SqrtLaw(sqrt) && ExpLogLaw(exp, log)
      modifies this
      ensures Valid() && Setup() == old(Setup())
      ensures !old(Dirty()) ==> o == Pass && unchanged(this)
      ensures old(Dirty()) ==>
                var kept := Select(Select(old(data), cdfLb, true), cdfUb, false);
                && (|kept| < 2 ==> o == Fail(ArgumentError) && data == kept && Dirty())
                && (|kept| >= 2 ==> data == SortReals(kept) && fresh(spline))
      ensures old(Dirty()) ==>
                var scdf := SampledCdfOf(SortReals(Select(Select(old(data), cdfLb, true), cdfUb, false)), quantile);
                && (|data| >= 2 ==> (o.Pass? <==> FitPasses(scdf, cdfLb, cdfUb, smoothLb, smoothUb, sqrt, log)))
                && (|data| >= 2 && o.Fail? ==>
                      var h1 := WithBounds(EnterAll([], scdf), cdfLb, cdfUb);
                      o.error == (if |h1| < 2 then ArgumentError else RuntimeError))
                && (o.Pass? ==> Modelled(exp) && FitFrom(spline, scdf, cdfLb, cdfUb, smoothLb, smoothUb, sqrt))
    {
      if spline != null {
        return Pass;
      }
      data := Select(data, cdfLb, true);
      data := Select(data, cdfUb, false);
      if |data| < 2 {
        return Fail(ArgumentError);
      }
      ghost var kept := data;
      data := SortReals(data);
      SelectedInside(old(data), cdfLb, cdfUb);
      assert Inside(data[0], cdfLb, true) && Inside(data[0], cdfUb, false);
      var scdf := SampledCdf(data, quantile);
      SampledInside(scdf, data, quantile, cdfLb, cdfUb);
      o := Fit(scdf, sqrt, exp, log);
    }

    /**
     * `recompute` as the queries rely on it: a clean distribution is left as
     * it is, and a dirty one either fails or ends with a computed model.
     */
    method Ready(sqrt: real -> real, exp: real -> real, log: real -> real) returns (o: Outcome)
      requires Valid() && quantile > 0.0 && SqrtLaw(sqrt) && ExpLogLaw(exp, log)
      modifies this
      ensures Valid() && Setup() == old(Setup())
      ensures !old(Dirty()) ==> o == Pass && unchanged(this)
      ensures old(Dirty()) && o.Pass? ==> Modelled(exp) && fresh(spline)
      ensures o.Fail? ==> o.error == ArgumentError || o.error == RuntimeError
    {
      o := Recompute(sqrt, exp, log);
    }

    /**
     * The fitting part of `recompute` on the sampled cdf: `@spline` and the
     * derived fields become what the fit computes.
     */
    method Fit(scdf: seq<(real, real)>, sqrt: real -> real, exp: real -> real, log: real -> real) returns (o: Outcome)
      requires Valid() && SqrtLaw(sqrt) && ExpLogLaw(exp, log) && |scdf| > 0
      requires forall i :: 0 <= i < |scdf| ==> Inside(scdf[i].0, cdfLb, true) && Inside(scdf[i].0, cdfUb, false)
      modifies this
      ensures Valid() && Setup() == old(Setup()) && data == old(data) && fresh(spline)
      ensures o.Pass? <==> FitPasses(scdf, cdfLb, cdfUb, smoothLb, smoothUb, sqrt, log)
      ensures o.Fail? ==>
                o.error == (if |WithBounds(EnterAll([], scdf), cdfLb, cdfUb)| < 2 then ArgumentError else RuntimeError)
      ensures o.Fail? ==> smin == old(smin) && smax == old(smax) && mean == old(mean) && variance == old(variance)
      ensures o.Pass? ==> Modelled(exp) && FitFrom(spline, scdf, cdfLb, cdfUb, smoothLb, smoothUb, sqrt)
    {
      var s, c;
      s, o, c := FitModel(scdf, cdfLb, cdfUb, smoothLb, smoothUb,
                          Cache(smin, smax, expLbA, expLbB, expUbA, expUbB, mean, variance), sqrt, exp, log);
      spline := s;
      SetDerived(c);
      if o.Pass? {
        ModelledOf(exp);
      }
    }

    /** The derived fields take the values `recompute` computed; everything else stays. */
    method SetDerived(c: Cache)
      modifies this
      ensures Derived() == c
      ensures args == old(args) && cdfLb == old(cdfLb) && cdfUb == old(cdfUb) && smoothLb == old(smoothLb)
      ensures smoothUb == old(smoothUb) && quantile == old(quantile) && data == old(data) && spline == old(spline)
    {
      smin, smax, expLbA, expLbB := c.smin, c.smax, c.expLbA, c.expLbB;
      expUbA, expUbB, mean, variance := c.expUbA, c.expUbB, c.mean, c.variance;
    }

    /**
     * `cdf(t)`: recompute if dirty, then the dispatch on the cached domain
     * and tails. On a computed model it always answers, with the model's cdf.
     */
    method Cdf(t: real, sqrt: real -> real, exp: real -> real, log: real -> real) returns (r: Result<real>)
      requires Valid() && quantile > 0.0 && SqrtLaw(sqrt) && ExpLogLaw(exp, log)
      modifies this, spline
      ensures Valid() && Setup() == old(Setup())
      ensures !old(Dirty()) ==> spline == old(spline) && data == old(data) && Derived() == old(Derived())
      ensures old(Modelled(exp)) ==> r.Ok?
      ensures old(Dirty()) && r.Ok? ==> Modelled(exp)
      ensures Modelled(exp) && r.Ok? ==>
                r.value == ModelCdf(cdfLb, cdfUb, spline.x, spline.y, spline.m.value, expLbA, expLbB, expUbA, expUbB,
                                    t, exp)
    {
      var o := Ready(sqrt, exp, log);
      if o.Fail? {
        return Err(o.error);
      }
      var c := Cache(smin, smax, expLbA, expLbB, expUbA, expUbB, mean, variance);
      r := CdfAt(spline, cdfLb, cdfUb, c, t, sqrt, exp);
      if Modelled(exp) {
        DispatchOfModel(cdfLb, cdfUb, spline.x, spline.y, spline.m.value, c, t, exp);
      }
    }

    /** `pdf(t)`: the same for the density, with the model's pdf on a computed model. */
    method Pdf(t: real, sqrt: real -> real, exp: real -> real, log: real -> real) returns (r: Result<real>)
      requires Valid() && quantile > 0.0 && SqrtLaw(sqrt) && ExpLogLaw(exp, log)
      modifies this, spline
      ensures Valid() && Setup() == old(Setup())
      ensures !old(Dirty()) ==> spline == old(spline) && data == old(data) && Derived() == old(Derived())
      ensures old(Modelled(exp)) ==> r.Ok?
      ensures old(Dirty()) && r.Ok? ==> Modelled(exp)
      ensures Modelled(exp) && r.Ok? ==>
                r.value == ModelPdf(cdfLb, cdfUb, spline.x, spline.y, spline.m.value, expLbA, expLbB, expUbA, expUbB,
                                    t, exp)
    {
      var o := Ready(sqrt, exp, log);
      if o.Fail? {
        return Err(o.error);
      }
      var c := Cache(smin, smax, expLbA, expLbB, expUbA, expUbB, mean, variance);
      r := PdfAt(spline, cdfLb, cdfUb, c, t, sqrt, exp);
      if Modelled(exp) {
        DispatchOfModel(cdfLb, cdfUb, spline.x, spline.y, spline.m.value, c, t, exp);
      }
    }

    /** `support`: recompute if dirty, then the spline's domain with infinities at INFINITE ends. */
    method Support(sqrt: real -> real, exp: real -> real, log: real -> real) returns (r: Result<(Value, Value)>)
      requires Valid() && quantile > 0.0 && SqrtLaw(sqrt) && ExpLogLaw(exp, log)
      modifies this, spline
      ensures Valid() && Setup() == old(Setup())
      ensures !old(Dirty()) ==> spline == old(spline) && data == old(data) && Derived() == old(Derived())
      ensures old(Modelled(exp)) ==> r.Ok?
      ensures old(Dirty()) && r.Ok? ==> Modelled(exp)
      ensures r.Ok? ==> spline != null && SupportIs(spline, cdfLb, cdfUb, r.value)
    {
      var o := Ready(sqrt, exp, log);
      if o.Fail? {
        return Err(o.error);
      }
      var s, lb, ub := spline, cdfLb, cdfUb;
      r := SupportAt(s, lb, ub, sqrt);
    }

    /** `mean`: recompute if dirty, then `@mean`, which a computed model holds as its first moment. */
    method Mean(sqrt: real -> real, exp: real -> real, log: real -> real) returns (r: Result<Option<real>>)
      requires Valid() && quantile > 0.0 && SqrtLaw(sqrt) && ExpLogLaw(exp, log)
      modifies this
      ensures Valid() && Setup() == old(Setup())
      ensures !old(Dirty()) ==> unchanged(this) && r == Ok(mean)
      ensures old(Dirty()) && r.Ok? ==> Modelled(exp) && r == Ok(mean)
    {
      var o := Ready(sqrt, exp, log);
      if o.Fail? {
        return Err(o.error);
      }
      r := Ok(mean);
    }

    /** `variance`: recompute if dirty, then `@variance`. */
    method Variance(sqrt: real -> real, exp: real -> real, log: real -> real) returns (r: Result<Option<real>>)
      requires Valid() && quantile > 0.0 && SqrtLaw(sqrt) && ExpLogLaw(exp, log)
      modifies this
      ensures Valid() && Setup() == old(Setup())
      ensures !old(Dirty()) ==> unchanged(this) && r == Ok(variance)
      ensures old(Dirty()) && r.Ok? ==> Modelled(exp) && r == Ok(variance)
    {
      var o := Ready(sqrt, exp, log);
      if o.Fail? {
        return Err(o.error);
      }
      r := Ok(variance);
    }
  }
}
