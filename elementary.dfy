/**
 * `Math.sqrt`, `Math.exp` and `Math.log`, which the model keeps abstract: the
 * code that calls them takes them as function values, and what its proofs
 * need of them is stated here once, as laws the caller must supply.
 */
module Elementary {

  /** sqrt returns the non-negative square root of a non-negative number. */
  ghost predicate SqrtLaw(sqrt: real -> real)
  {
    forall z :: 0.0 <= z ==> 0.0 <= sqrt(z) && sqrt(z) * sqrt(z) == z
  }

  /** exp is positive, and undoes log on positive numbers. */
  ghost predicate ExpLogLaw(exp: real -> real, log: real -> real)
  {
    && (forall u :: exp(u) > 0.0)
    && (forall y :: y > 0.0 ==> exp(log(y)) == y)
  }

  /** The square root of a number above 9 is above 3. */
  lemma SqrtAboveThree(sqrt: real -> real, z: real)
    requires SqrtLaw(sqrt) && z > 9.0
    ensures sqrt(z) > 3.0 && sqrt(z) * sqrt(z) == z
  {
    var r := sqrt(z);
    assert r * r == z && r >= 0.0;
    assert (r - 3.0) * (r + 3.0) == r * r - 9.0;
    assert r + 3.0 > 0.0;
    assert (r - 3.0) * (r + 3.0) > 0.0;
    PositiveFactor(r - 3.0, r + 3.0);
  }

  /** A product is positive with one positive factor only if the other is positive too. */
  lemma PositiveFactor(a: real, b: real)
    requires b > 0.0 && a * b > 0.0
    ensures a > 0.0
  {
  }

  // ------------------------------------------------------- real arithmetic
  // Field facts the spline proofs share, stated once for the solver.

  lemma MulMonotone(a: real, b: real, c: real)
    requires a <= b && c >= 0.0
    ensures c * a <= c * b
  {
  }

  lemma MulDiv(a: real, h: real)
    requires h != 0.0
    ensures a * h / h == a
  {
  }

  lemma DivBounds(v: real, s: real, a: real, b: real)
    requires s > 0.0 && s * a <= v <= s * b
    ensures a <= v / s <= b
  {
    var q := v / s;
    assert v == s * q;
    MulCancel(a, q, s);
    MulCancel(q, b, s);
  }

  lemma MulCancel(a: real, b: real, s: real)
    requires s > 0.0 && s * a <= s * b
    ensures a <= b
  {
    assert s * (b - a) == s * b - s * a;
  }
}
