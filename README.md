# capricious: splines, spline distributions and small generators, in Dafny

This project models the core of the Ruby library *capricious*. Each part below is given as a Dafny module.

- **`CubicHermiteSpline`** (`Hermite`). A knot table that a later duplicate x overwrites, with a lazy dirty/recompute lifecycle. Its gradients come from one of three rules:
  - finite differences;
  - `monotonic`: weighted secants followed by the Fritsch–Carlson correction sweep;
  - `strict_monotonic`: the same, with rescaling in place of clamping.

  Fixed-gradient overrides apply after the rule. `find` locates the bracketing interval by binary search, and `q`/`qp`/`qpp` evaluate the Hermite basis.
- **`CubicSpline`** (`CubicSplines`). The same knot container, plus the tridiagonal solve for second derivatives from section 3.3 of *Numerical Recipes in C* (2nd ed.). The ends are natural (no end slope) or clamped (a given end slope). `find` honours `strict_domain`.
- **`SplineDistribution`** (`Samples`, `Distributions`). An append-only sample list, and the checks of the bound policies SPLINE, INFINITE and Float. `recompute` filters and sorts the samples in place, then builds the quantile-thinned empirical cdf (`sampled_cdf`). It fits a monotonic Hermite spline through that cdf. Then it closes each end: a tangent knot for SPLINE, an exponential tail for INFINITE, the bound knot for a Float bound. It finishes by computing the mean and variance in closed form (`compute_moments`). `cdf`, `pdf` and `support` dispatch on the cached domain.
- **`SampleSink`** (`Sink`). A running count, min, max, and Welford mean and variance. These are exact over reals.
- **`LFSR`** (`Lfsr`). A 16-, 32- or 64-bit Fibonacci shift register with fixed taps.
- **`MWC5`** (`Mwc5`). A five-word xorshift/multiply generator.

Supporting modules:
- `Wrappers`: results and the Ruby exception classes.
- `Knots`: Ruby argument values, `canonical`, the knot table, `sort.transpose` and `find`'s binary search.
- `Bits`: Ruby's `^ & | >> <<` on non-negative integers.
- `Elementary`: `Math.sqrt`, `exp` and `log`.

Conventions:
- Floats are reals.
- `Math.sqrt`, `Math.exp` and `Math.log` are function parameters. The callers require the laws `SqrtLaw` and `ExpLogLaw` (square root, positivity, `exp(log y) == y`).
- The clock (`Time.now.utc.to_i`), `0.size`, and MWC5's five seeder draws are parameters.
- A raised exception is an `Err`/`Fail` value naming its class. The state it leaves behind is stated in the contract.
- The object-oriented parts are classes whose methods update the fields in place.
- Loops are methods with invariants, proved against specification functions. Examples:
  - `Knots.Bracket` against `Locate`;
  - `CubicSplines.ComputeYpp` against the section 3.3 equations;
  - `Samples.SampledCdf` against `SampledCdfOf`;
  - `Hermite.MonotoneSweep` against `SweepOf`;
  - `Distributions.ComputeMoments` against `Moments`.

## Model

| member | source | states |
|---|---|---|
| Knots.ToF | lib/capricious/cubic_hermite_spline.rb:164 | `to_f` succeeds exactly on nil, Integer, Float and String; it keeps a Float's value and converts an Integer exactly |
| Knots.ToA | lib/capricious/cubic_hermite_spline.rb:155 | `to_a` keeps an Array's elements and gives one pair per Hash entry |
| Knots.ConvertRows | lib/capricious/cubic_hermite_spline.rb:164 | converting rows succeeds iff every coordinate has `to_f`, and then keeps the row count and each row's converted values |
| Knots.Rows | lib/capricious/cubic_hermite_spline.rb:157-158 | a list of 2-element arrays read as (x, y) rows, element by element |
| Knots.Canonical | lib/capricious/cubic_hermite_spline.rb:152-169 | every failure of `canonical` is ArgumentError |
| Knots.CanonicalOfPair | lib/capricious/cubic_hermite_spline.rb:159-160 | a single `[x, y]` becomes the one knot (x, y) |
| Knots.CanonicalOfPairs | lib/capricious/cubic_hermite_spline.rb:157-158 | a list of `[x, y]` pairs comes back as exactly those knots, in order |
| Knots.CanonicalOfHash | lib/capricious/cubic_hermite_spline.rb:155-158 | a Hash `{x => y}` comes back as its entries, in order |
| Knots.CanonicalRejectsScalar | lib/capricious/cubic_hermite_spline.rb:155-166 | a bare number is refused with ArgumentError |
| Knots.CanonicalRejectsTriple | lib/capricious/cubic_hermite_spline.rb:156-166 | a 3-element list is neither a pair nor a list of pairs, so it raises ArgumentError |
| Knots.Lookup | lib/capricious/cubic_hermite_spline.rb:176 | `@h[x]` is present iff some entry has key x |
| Knots.Store | lib/capricious/cubic_hermite_spline.rb:176 | `@h[x] = y`: afterwards x maps to y, every other key keeps its value, and the size grows only for a new key |
| Knots.StoreDistinct | lib/capricious/cubic_hermite_spline.rb:176 | storing keeps the table's keys distinct |
| Knots.EnterAllLookup | lib/capricious/cubic_hermite_spline.rb:174-178 | after `enter`, each key holds the last value the data gave it, and untouched keys keep the old value |
| Knots.EnterAllDistinct | lib/capricious/cubic_hermite_spline.rb:176 | entering data keeps the keys distinct |
| Knots.Xs | lib/capricious/cubic_hermite_spline.rb:129 | `transpose`'s first column is the keys, index by index |
| Knots.Ys | lib/capricious/cubic_hermite_spline.rb:129 | `transpose`'s second column is the values, index by index |
| Knots.SortByKeySorted | lib/capricious/cubic_hermite_spline.rb:129 | `@h.to_a.sort` is ordered by key (the keys differ, so Ruby's pair comparison decides on x) |
| Knots.SortByKeyPermutes | lib/capricious/cubic_hermite_spline.rb:129 | the sorted list is a rearrangement of the table: the same entries with the same multiplicities |
| Knots.SortedColumns | lib/capricious/cubic_hermite_spline.rb:129 | the sorted columns hold the table: each (x[k], y[k]) is a table entry, and x is strictly increasing |
| Knots.ColumnsFit | lib/capricious/cubic_hermite_spline.rb:129-130 | the columns are as long as the table, and x is strictly increasing |
| Knots.FirstIsLeast | lib/capricious/cubic_hermite_spline.rb:105 | `@x.first` is the least key |
| Knots.LastIsGreatest | lib/capricious/cubic_hermite_spline.rb:105 | `@x.last` is the greatest key |
| Knots.LeastIsFirst | lib/capricious/spline_distribution.rb:197-198 | a key below all others is the first sorted knot |
| Knots.GreatestIsLast | lib/capricious/spline_distribution.rb:201-202 | a key above all others is the last sorted knot |
| Knots.StoreBelow | lib/capricious/spline_distribution.rb:219 | storing a new key below the rest makes it the first knot and keeps the last one |
| Knots.StoreAbove | lib/capricious/spline_distribution.rb:239 | storing a new key above the rest makes it the last knot and keeps the first one |
| Knots.ScanDown | lib/capricious/cubic_hermite_spline.rb:187-196 | the reference search: the highest index at most j whose knot is at or below the point (or 0) |
| Knots.Locate | lib/capricious/cubic_hermite_spline.rb:187-196 | the bracketing index is a valid interval start, at most n-2 |
| Knots.LocateCharacterised | lib/capricious/cubic_hermite_spline.rb:187-196 | j is the located index iff (j = 0 or x[j] <= pt) and (j = n-2 or pt < x[j+1]) |
| Knots.Bracket | lib/capricious/cubic_hermite_spline.rb:187-196 | the binary search ends with jhi = jlo+1 <= n-1 and jlo equal to the reference index |
| Knots.LocateBrackets | lib/capricious/cubic_hermite_spline.rb:185-201 | a point inside the domain lies between x[jlo] and x[jhi] |
| Knots.LocateAtKnot | lib/capricious/cubic_hermite_spline.rb:187-196 | at a knot, the search returns that knot's interval (the last interval at the last knot) |
| Hermite.FdBetweenSecants | lib/capricious/cubic_hermite_spline.rb:213-217 | an interior finite-difference gradient lies between its two neighbouring secants |
| Hermite.WeightedBetweenSecants | lib/capricious/cubic_hermite_spline.rb:236-243 | an interior weighted gradient lies between its two neighbouring secants |
| Hermite.SecantOnLine | lib/capricious/cubic_hermite_spline.rb:231 | on collinear knots every secant is the line's slope |
| Hermite.GradientsOnLine | lib/capricious/cubic_hermite_spline.rb:204-243 | on collinear knots both gradient rules give the line's slope at every knot |
| Hermite.WeighEqual | lib/capricious/cubic_hermite_spline.rb:242 | weighting two equal secants returns that secant |
| Hermite.FiniteDifference | lib/capricious/cubic_hermite_spline.rb:204-221 | `finite_difference` fills a fresh array with the one-sided secants at the ends and the mean of the adjacent secants inside |
| Hermite.Secants | lib/capricious/cubic_hermite_spline.rb:228-232 | `d[j]` is the secant of interval j, for all n-1 intervals |
| Hermite.WeightedSecants | lib/capricious/cubic_hermite_spline.rb:234-243 | the ends get d[0] and d[n-2]; the interior gets (h d[j-1] + h1 d[j]) / (h1 + h) |
| Hermite.ApplyFixed | lib/capricious/cubic_hermite_spline.rb:144-145 | each m[j] becomes the fixed gradient for x[j] when there is one, and keeps its value otherwise |
| Hermite.MonotoneSweep | lib/capricious/cubic_hermite_spline.rb:245-277 | the correction loop leaves exactly the reference sweep `SweepOf` of the old gradients: each interval's pass applied in order, left to right |
| Hermite.SweepStep | lib/capricious/cubic_hermite_spline.rb:249-276 | one pass of the loop sets m[j] and m[j+1] to the reference step `StepOf` of their old values, and changes no other gradient |
| Hermite.RatiosTame | lib/capricious/cubic_hermite_spline.rb:256-276 | the non-flat branch leaves ratios within the method's bounds |
| Hermite.ClampRatios | lib/capricious/cubic_hermite_spline.rb:274-275 | clamping to 3·delta leaves both ratios in [0, 3] |
| Hermite.StrictRescale | lib/capricious/cubic_hermite_spline.rb:266-272 | rescaling by tau = 3/sqrt(z) makes the squared ratios sum to at most 9 and only shrinks the gradients |
| Hermite.KeepSettled | lib/capricious/cubic_hermite_spline.rb:248-277 | the next interval's step keeps an already settled interval settled |
| Hermite.StepSettles | lib/capricious/cubic_hermite_spline.rb:249-276 | one pass settles its interval (flat: both gradients 0; otherwise ratios >= 0 and <= 3 each, or with squares summing to <= 9 when strict) and only pulls its two gradients towards zero |
| Hermite.CorrectStep | lib/capricious/cubic_hermite_spline.rb:256-276 | the non-flat branch computes the reference correction from the ratios m0/delta and m1/delta |
| Hermite.SweepUpToSettles | lib/capricious/cubic_hermite_spline.rb:248-277 | after the first k passes those k intervals are settled, every gradient has only been pulled towards zero, and the gradients past knot k are untouched |
| Hermite.SweepSettles | lib/capricious/cubic_hermite_spline.rb:245-277 | after the whole loop every interval is settled and no gradient changed sign or grew |
| Hermite.MonotoneSettle | lib/capricious/cubic_hermite_spline.rb:234-277 | `monotonic`'s gradients are settled on every interval and shrunk from the weighted secants |
| Hermite.Cubic | lib/capricious/cubic_hermite_spline.rb:111 | the Hermite basis gives y0 at t = 0 and y1 at t = 1 |
| Hermite.CubicP | lib/capricious/cubic_hermite_spline.rb:117 | its derivative gives m0 at t = 0 and m1 at t = 1 |
| Hermite.CubicPPLinear | lib/capricious/cubic_hermite_spline.rb:123 | the second derivative is linear in t between its end values |
| Hermite.CubicOnLine | lib/capricious/cubic_hermite_spline.rb:108-118 | with secant-equal data and gradients the piece is the straight line, and its slope is constant |
| Hermite.Coordinate | lib/capricious/cubic_hermite_spline.rb:197-198 | `find`'s result: the located interval, its positive width h, and t = (x - x[jlo]) / h |
| Hermite.QueriesAt | lib/capricious/cubic_hermite_spline.rb:108-123 | q, qp and qpp evaluate the basis polynomials of the located interval |
| Hermite.QAtKnot | lib/capricious/cubic_hermite_spline.rb:108-117 | at every knot, q returns y[k] and qp returns m[k] exactly |
| Hermite.CoordinateInUnit | lib/capricious/cubic_hermite_spline.rb:197-198 | inside the domain, 0 <= t <= 1 |
| Hermite.Merge | lib/capricious/cubic_hermite_spline.rb:46 | `merge!` keeps every key not given and takes every key given |
| Hermite.CoerceGradients | lib/capricious/cubic_hermite_spline.rb:48-54 | coercion to a Float→Float table gives distinct keys; nil gives an empty table; a scalar raises ArgumentError |
| Hermite.CoerceFloatHash | lib/capricious/cubic_hermite_spline.rb:49-51 | a Float hash coerces successfully, and each key maps to its last value |
| Hermite.Coerce | lib/capricious/cubic_hermite_spline.rb:48-54 | any coercion failure is ArgumentError |
| Hermite.BaseGradients | lib/capricious/cubic_hermite_spline.rb:132-142 | the method dispatch. An unknown method raises ArgumentError. A non-numeric epsilon raises after the weighted secants are stored. Otherwise the gradients are exactly the method's: the finite differences, or the correction sweep `SweepOf` over the weighted secants |
| Hermite.OverrideHolds | lib/capricious/cubic_hermite_spline.rb:144-145 | fixed gradients, then the rule's gradients elsewhere, satisfy the whole gradient contract |
| Hermite.GradientsSettle | lib/capricious/cubic_hermite_spline.rb:132-145 | a successful `recompute`'s gradients: the fixed gradient wherever one is named; elsewhere the finite-difference rule, or for the monotonic methods settled intervals shrunk from the weighted secants |
| Hermite.CubicHermiteSpline.constructor | lib/capricious/cubic_hermite_spline.rb:30-33 | a new spline has the default arguments, no knots, and is dirty |
| Hermite.CubicHermiteSpline.Reset | lib/capricious/cubic_hermite_spline.rb:35-38 | `reset` restores the defaults (FINITE_DIFFERENCE, strict_domain true, eps 1e-6, no fixed gradients) and empties the knots |
| Hermite.CubicHermiteSpline.Clear | lib/capricious/cubic_hermite_spline.rb:40-43 | `clear` empties the knots, keeps the arguments and marks dirty |
| Hermite.CubicHermiteSpline.MarkDirty | lib/capricious/cubic_hermite_spline.rb:180-183 | `dirty!` drops x, y and m and keeps knots and arguments |
| Hermite.CubicHermiteSpline.Configure | lib/capricious/cubic_hermite_spline.rb:45-63 | the four outcomes of `configure`. A failed coercion raises ArgumentError with the merged arguments kept and nothing else changed. Without `:data` the knots are kept. Bad `:data` raises after `clear`. Good `:data` replaces the knots and `:data` is reset to nil. Every path that passes the coercion leaves the spline dirty |
| Hermite.CubicHermiteSpline.Put | lib/capricious/cubic_hermite_spline.rb:71-74 | `put` enters canonical data (ArgumentError and no change otherwise); empty data changes nothing, so a fitted spline stays clean with its x, y and m; non-empty data marks dirty |
| Hermite.CubicHermiteSpline.Enter | lib/capricious/cubic_hermite_spline.rb:174-178 | `enter` overwrites duplicates and keeps other knots; empty data changes nothing and does not mark dirty |
| Hermite.CubicHermiteSpline.Recompute | lib/capricious/cubic_hermite_spline.rb:126-148 | the outcomes of `recompute`. A clean spline changes nothing. 0 knots raise NoMethodError and 1 knot raises ArgumentError. Otherwise x and y are the sorted columns. An unknown method raises ArgumentError. Success leaves the spline clean, with each gradient the fixed gradient where one is named and the method's gradient (finite difference, or the swept weighted secant) elsewhere |
| Hermite.CubicHermiteSpline.FillGradients | lib/capricious/cubic_hermite_spline.rb:132-145 | the gradient vector is as long as x and is the method's gradients with the fixed gradients over them |
| Hermite.CubicHermiteSpline.Find | lib/capricious/cubic_hermite_spline.rb:185-201 | `find` never raises (`@strict_domain` is never assigned); it returns adjacent indices and the coordinate, with x[jlo] <= pt <= x[jhi] and t in [0, 1] inside the domain |
| Hermite.CubicHermiteSpline.Domain | lib/capricious/cubic_hermite_spline.rb:103-106 | `domain` recomputes if dirty and returns the first and last knot, first < last |
| Hermite.CubicHermiteSpline.Prepare | lib/capricious/cubic_hermite_spline.rb:109-110 | the common start of the queries: recompute, then `to_f` and `find`; a clean spline always answers |
| Hermite.CubicHermiteSpline.Q | lib/capricious/cubic_hermite_spline.rb:108-112 | `q` answers with the Hermite interpolant of the recomputed columns |
| Hermite.CubicHermiteSpline.Qp | lib/capricious/cubic_hermite_spline.rb:114-118 | `qp` answers with the interpolant's first derivative |
| Hermite.CubicHermiteSpline.Qpp | lib/capricious/cubic_hermite_spline.rb:120-124 | `qpp` answers with the interpolant's second derivative |
| Elementary.SqrtAboveThree | lib/capricious/cubic_hermite_spline.rb:267-269 | z > 9 gives sqrt(z) > 3, so tau < 1 in the strict rescale |
| CubicSplines.Piece | lib/capricious/cubic_spline.rb:119 | the cubic piece is y[jlo] at a = 1 and y[jhi] at b = 1 |
| CubicSplines.PiecePP | lib/capricious/cubic_spline.rb:133 | the second derivative is ypp[jlo] at a = 1 and ypp[jhi] at b = 1 |
| CubicSplines.Weights | lib/capricious/cubic_spline.rb:197-199 | `find`'s weights: a = (x_hi - x)/h and b = (x - x_lo)/h over the located interval, with h > 0 and a + b = 1 |
| CubicSplines.QAtKnot | lib/capricious/cubic_spline.rb:116-134 | at every knot q = y[k] and qpp = ypp[k] exactly |
| CubicSplines.QppLinear | lib/capricious/cubic_spline.rb:130-134 | between knots, qpp interpolates ypp linearly |
| CubicSplines.RowIsSmoothSlope | lib/capricious/cubic_spline.rb:217-224 | the section 3.3 continuity equation at an interior knot holds iff the slopes from the left and right pieces agree there |
| CubicSplines.LowerEndIsSlope | lib/capricious/cubic_spline.rb:210-215 | the clamped lower-end equation holds iff qp(x0) equals the given slope |
| CubicSplines.UpperEndIsSlope | lib/capricious/cubic_spline.rb:226-231 | the clamped upper-end equation holds iff qp(x_{n-1}) equals the given slope |
| CubicSplines.Share | lib/capricious/cubic_spline.rb:219 | `sig` lies strictly between 0 and 1 |
| CubicSplines.Start | lib/capricious/cubic_spline.rb:210-215 | the first pivot is 0 for a natural end and -0.5 for a clamped one |
| CubicSplines.Eliminate | lib/capricious/cubic_spline.rb:218-224 | each elimination keeps the pivot coefficient in [-0.5, 0] |
| CubicSplines.Pivot | lib/capricious/cubic_spline.rb:220-221 | p = sig·c + 2 >= 1.5, so the division is safe |
| CubicSplines.ComputeYpp | lib/capricious/cubic_spline.rb:202-238 | `compute_ypp` returns second derivatives that solve every interior continuity equation and both end conditions |
| CubicSplines.ForwardSweep | lib/capricious/cubic_spline.rb:217-224 | the decomposition loop leaves every row swept |
| CubicSplines.ForwardStep | lib/capricious/cubic_spline.rb:219-223 | one decomposition step computes the eliminated coefficients |
| CubicSplines.SweptStep | lib/capricious/cubic_spline.rb:217-224 | eliminating row k with row k-1 extends a sweep of the first k rows by one row |
| CubicSplines.BackSubstitute | lib/capricious/cubic_spline.rb:233-237 | back-substitution leaves ypp[j] = ypp[j]·ypp[j+1] + u[j] for every row |
| CubicSplines.BackSubstituted | lib/capricious/cubic_spline.rb:233-237 | a swept and back-substituted vector solves the whole system |
| CubicSplines.LowerSolved | lib/capricious/cubic_spline.rb:210-215 | the solution meets the lower end condition |
| CubicSplines.UpperSolved | lib/capricious/cubic_spline.rb:226-234 | the solution meets the upper end condition |
| CubicSplines.RowSolved | lib/capricious/cubic_spline.rb:217-237 | the solution meets each interior equation |
| CubicSplines.Interpolates | lib/capricious/cubic_spline.rb:116-120 | the spline passes through every knot |
| CubicSplines.SmoothInside | lib/capricious/cubic_spline.rb:122-127 | on a solution, qp is continuous at every interior knot |
| CubicSplines.LowerEndMet | lib/capricious/cubic_spline.rb:207-215 | a clamped lower end gives qp(x0) = yp_lower, and a natural one gives qpp(x0) = 0 |
| CubicSplines.UpperEndMet | lib/capricious/cubic_spline.rb:226-234 | a clamped upper end gives qp(x_{n-1}) = yp_upper, and a natural one gives qpp(x_{n-1}) = 0 |
| CubicSplines.WeightsInUnit | lib/capricious/cubic_spline.rb:197-199 | inside the domain both weights lie in [0, 1] |
| CubicSplines.PiecesAt | lib/capricious/cubic_spline.rb:116-134 | q, qp and qpp evaluate the piece formulas of the located interval |
| CubicSplines.Merge | lib/capricious/cubic_spline.rb:42 | `merge!` keeps every key not given and takes every key given |
| CubicSplines.EndSlope | lib/capricious/cubic_spline.rb:44-50 | an unset end slope is nil; a set one is its `to_f`, or ArgumentError |
| CubicSplines.CubicSpline.constructor | lib/capricious/cubic_spline.rb:22-25 | a new spline has the defaults, no knots, natural ends, strict domain, and is dirty |
| CubicSplines.CubicSpline.Reset | lib/capricious/cubic_spline.rb:28-31 | `reset` restores the default arguments and empties the knots; the read slopes and `@strict_domain` keep their values |
| CubicSplines.CubicSpline.Clear | lib/capricious/cubic_spline.rb:34-37 | `clear` empties the knots and keeps the configuration |
| CubicSplines.CubicSpline.MarkDirty | lib/capricious/cubic_spline.rb:180-183 | `dirty!` drops x, y and ypp only |
| CubicSplines.CubicSpline.Configure | lib/capricious/cubic_spline.rb:41-64 | `configure` merges, reads the end slopes (ArgumentError leaves them nil), copies strict_domain, replaces the data only when `:data` is given, and marks dirty |
| CubicSplines.CubicSpline.ReadSlopes | lib/capricious/cubic_spline.rb:44-50 | both slopes are reset to nil, then read in order; a failure stops there with ArgumentError |
| CubicSplines.CubicSpline.Reload | lib/capricious/cubic_spline.rb:55-60 | the `:data` step: no data keeps the knots; bad data raises after `clear`; good data replaces the knots |
| CubicSplines.CubicSpline.Put | lib/capricious/cubic_spline.rb:77-80 | `put` enters canonical data or raises ArgumentError without change; `strict_domain` is kept; empty data changes nothing, so a solved spline stays clean with its x, y and ypp; non-empty data marks dirty |
| CubicSplines.CubicSpline.Enter | lib/capricious/cubic_spline.rb:174-178 | `enter` overwrites duplicates; empty data leaves the state untouched |
| CubicSplines.CubicSpline.Recompute | lib/capricious/cubic_spline.rb:137-147 | a clean spline is unchanged. Otherwise 0 knots raise NoMethodError and 1 knot raises ArgumentError, and 2 or more knots give the sorted columns and a solved ypp. Success iff ypp is present, and then the spline is clean |
| CubicSplines.CubicSpline.Solve | lib/capricious/cubic_spline.rb:145 | the solve stores ypp for the current end conditions and leaves the spline clean |
| CubicSplines.CubicSpline.SortKnots | lib/capricious/cubic_spline.rb:141-142 | x and y become the sorted columns of the table |
| CubicSplines.CubicSpline.Find | lib/capricious/cubic_spline.rb:185-200 | `find` raises ArgumentError iff strict_domain holds and the point is outside [x0, x_{n-1}]; otherwise it returns adjacent indices and weights summing to 1 |
| CubicSplines.CubicSpline.Domain | lib/capricious/cubic_spline.rb:110-113 | `domain` recomputes if dirty and returns the first and last knot |
| CubicSplines.CubicSpline.Prepare | lib/capricious/cubic_spline.rb:117-118 | the common start of the queries: recompute, `to_f`, then `find` with its domain check |
| CubicSplines.CubicSpline.Q | lib/capricious/cubic_spline.rb:116-120 | `q` answers from a solved system (continuity and end conditions hold) with the spline's value |
| CubicSplines.CubicSpline.Qp | lib/capricious/cubic_spline.rb:123-127 | `qp` answers with the spline's first derivative on a solved system |
| CubicSplines.CubicSpline.Qpp | lib/capricious/cubic_spline.rb:130-134 | `qpp` answers with the spline's second derivative on a solved system |
| Samples.CheckBa | lib/capricious/spline_distribution.rb:297-312 | `checkba` accepts exactly SPLINE, INFINITE and numerics, and raises ArgumentError otherwise. It gives INFINITE iff INFINITE or the infinity on its own side. It gives a Float bound iff the value is an Integer or Float, with that value |
| Samples.BeyondIsFarSide | lib/capricious/spline_distribution.rb:297-312 | the only infinite Float bound left is the infinity on the far side |
| Samples.ConvertAll | lib/capricious/spline_distribution.rb:280 | `map!(&:to_f)` succeeds iff every element has `to_f`, keeping length and values |
| Samples.SampleData | lib/capricious/spline_distribution.rb:269-285 | sample `canonical`: a number becomes a one-element list, an Array is converted element-wise; anything else raises ArgumentError |
| Samples.Select | lib/capricious/spline_distribution.rb:184-185 | `select!` keeps every sample strictly inside a Float bound, with its multiplicity, and drops the rest |
| Samples.BeyondKeepsNothing | lib/capricious/spline_distribution.rb:184-185 | a far-side infinite bound keeps no sample |
| Samples.SortReals | lib/capricious/spline_distribution.rb:190 | `sort!` yields a sorted permutation |
| Samples.SortedUnique | lib/capricious/spline_distribution.rb:190 | the sorted permutation is unique |
| Samples.Isqrt | lib/capricious/spline_distribution.rb:325 | the integer square root r has r² <= n < (r+1)² |
| Samples.Trimmed | lib/capricious/spline_distribution.rb:318-327 | no trim up to 100 samples; above, 1 <= ro and 2·ro < n0 |
| Samples.BinAtLeast | lib/capricious/spline_distribution.rb:341 | a probability at or above a step lies in that step's bin or a later one |
| Samples.BinExactly | lib/capricious/spline_distribution.rb:341 | a probability in [(m-1)w, mw) lies in bin m-1 |
| Samples.Advance | lib/capricious/spline_distribution.rb:341 | the `until` loop ends with qcur > q, on the first quantile step above q's bin, after exactly the rounds `Climb` counts |
| Samples.ClimbClosed | lib/capricious/spline_distribution.rb:341 | n rounds of `qcur += w` add n·w |
| Samples.ClimbStalls | lib/capricious/spline_distribution.rb:341 | with a step w <= 0, no number of rounds lifts qcur above q, so the `until` loop never ends |
| Samples.Rounds | lib/capricious/spline_distribution.rb:341 | with a step w > 0, the loop passes q after exactly this many rounds and not one fewer |
| Samples.RankOf | lib/capricious/spline_distribution.rb:332-337 | every probability c/(n0+1) lies strictly inside (0, 1) |
| Samples.Kept | lib/capricious/spline_distribution.rb:326 | trimming keeps at least one sample |
| Samples.EmitInBin | lib/capricious/spline_distribution.rb:338-342 | emitting a rising knot in a new bin keeps the emitted list well-formed |
| Samples.EmitLast | lib/capricious/spline_distribution.rb:347 | the final knot completes the thinned list |
| Samples.KnotOf | lib/capricious/spline_distribution.rb:335-337 | a kept value with a rank counter in range is a knot of the data |
| Samples.SampledCdf | lib/capricious/spline_distribution.rb:314-348 | `sampled_cdf` returns the reference `SampledCdfOf`: [] on no data; otherwise knots of the data, with the last distinct value always emitted and each non-final knot in a new quantile bin. Both the x and the probability columns are strictly increasing |
| Samples.Close | lib/capricious/spline_distribution.rb:347 | appending the last value completes a sampled cdf with strictly increasing columns |
| Samples.Walk | lib/capricious/spline_distribution.rb:336-346 | the `each` loop computes the reference walk `WalkTo` over all kept samples: a well-formed list ending below the last kept value, which is `vcur` |
| Samples.Visit | lib/capricious/spline_distribution.rb:337-345 | one loop pass is the reference step `WalkStep`: it keeps the loop invariant, and from the walk's state after i samples it reaches the state after i + 1 |
| Samples.WalkPasses | lib/capricious/spline_distribution.rb:338-345 | a repeated value is skipped with the invariant kept |
| Samples.WalkEmits | lib/capricious/spline_distribution.rb:339-342 | a new value is emitted with the invariant kept |
| Samples.EmitsRank | lib/capricious/spline_distribution.rb:339-340 | the emitted knot is well-formed |
| Samples.WalkingAfterEmit | lib/capricious/spline_distribution.rb:341-343 | after the `until` loop the invariant holds again |
| Samples.CountSplit | lib/capricious/spline_distribution.rb:335-337 | in sorted samples the rank counter at a value change is the number of samples at or below the value |
| Samples.WalkRanked | lib/capricious/spline_distribution.rb:336-346 | after i kept samples the walk's `vcur` is the last of them, and every knot it emitted sits at its value's rank: (samples <= x)/(n0 + 1) |
| Samples.SampledRanks | lib/capricious/spline_distribution.rb:314-348 | every knot of `sampled_cdf` but the last has probability (samples <= x)/(n0 + 1), and so does the last when nothing is trimmed |
| Samples.SampledThree | lib/capricious/spline_distribution.rb:314-348 | the samples 1, 2, 3 at quantile 0.05 give the knots (1, 0.25), (2, 0.5), (3, 0.75) |
| Samples.KeptSorted | lib/capricious/spline_distribution.rb:326 | trimming keeps the data sorted |
| Samples.Monotone | lib/capricious/spline_distribution.rb:314-348 | a thinned list has strictly increasing x and probability columns |
| Distributions.LowerTailKnot | lib/capricious/spline_distribution.rb:213-218 | the SPLINE lower knot exists iff yp > 0 and y > 0 (RuntimeError otherwise); it lies below x, where the tangent at x reaches 0 |
| Distributions.UpperTailKnot | lib/capricious/spline_distribution.rb:233-238 | the SPLINE upper knot exists iff yp > 0 and y < 1; it lies above x, where the tangent reaches 1 |
| Distributions.TangentRoot | lib/capricious/spline_distribution.rb:217 | b = (v + x·yp - y)/yp is where the tangent reaches v, and b < x iff y > v |
| Distributions.LowerExp | lib/capricious/spline_distribution.rb:223-229 | the INFINITE lower tail exists iff y > 0 and yp > 0 (RuntimeError otherwise); a > 0, a·y = yp and a·x + b = log y |
| Distributions.UpperExp | lib/capricious/spline_distribution.rb:243-249 | the INFINITE upper tail exists iff y < 1 and yp > 0; a > 0, a(1-y) = yp and b - a·x = log(1-y) |
| Distributions.LowerExpMeets | lib/capricious/spline_distribution.rb:223-229 | the fitted lower tail has cdf y and density yp at the first knot |
| Distributions.UpperExpMeets | lib/capricious/spline_distribution.rb:243-249 | the fitted upper tail has cdf y and density yp at the last knot |
| Distributions.PdfIsQuadratic | lib/capricious/spline_distribution.rb:369-373 | `(a, b, c)` are exactly the t², t and 1 coefficients of the Hermite derivative, with c = m[j] |
| Distributions.IntegrandsExpand | lib/capricious/spline_distribution.rb:375-377 | the coefficient lists are x·pdf and x²·pdf in t, with x = g + h·t |
| Distributions.FirstMomentPieceIntegrates | lib/capricious/spline_distribution.rb:376 | the `ex` increment is h times the integral over [0, 1] of x·pdf |
| Distributions.SecondMomentPieceIntegrates | lib/capricious/spline_distribution.rb:377 | the `ex2` increment is h times the integral over [0, 1] of x²·pdf |
| Distributions.Variance | lib/capricious/spline_distribution.rb:394-398 | the variance is never negative, and equals E[X²] - E[X]² whenever that is non-negative |
| Distributions.SumPieces | lib/capricious/spline_distribution.rb:362-378 | the piece loop sums the per-interval moments |
| Distributions.ComputeMoments | lib/capricious/spline_distribution.rb:351-399 | `compute_moments` stores the moments of the spline plus the INFINITE tails, and the clamped variance |
| Distributions.NewSpline | lib/capricious/spline_distribution.rb:193 | the first spline is a dirty MONOTONIC spline over the sampled cdf |
| Distributions.PutKnot | lib/capricious/spline_distribution.rb:198 | `@spline << [b, v]` stores one knot and marks dirty |
| Distributions.FixGradients | lib/capricious/spline_distribution.rb:205 | `configure(:fixed_gradients => gfix)`: each knot's fixed gradient becomes the last one gfix gives it (exactly gfix when its keys differ); the knots are kept and the spline is dirty |
| Distributions.Refit | lib/capricious/spline_distribution.rb:252-256 | the respline and `domain` never fail: the knots are kept, the spline is clean and fitted through them with gfix as its fixed gradients, untouched without a respline, and the domain is its first and last knot |
| Distributions.Respline | lib/capricious/spline_distribution.rb:254-255 | `configure(:fixed_gradients => gfix); recompute`: the knots are kept and the fixed gradients become gfix; it fails iff there are fewer than two knots (NoMethodError on none, ArgumentError on one, as `recompute` raises them), and success leaves the spline clean and fitted through its knots |
| Distributions.EndQuery | lib/capricious/spline_distribution.rb:213-215 | `domain`, `q` and `qp` at an end: a clean spline answers without change |
| Distributions.SelectedInside | lib/capricious/spline_distribution.rb:184-190 | the filtered, sorted data lies strictly inside both Float bounds |
| Distributions.SampledInside | lib/capricious/spline_distribution.rb:191 | the sampled cdf's x values lie strictly inside both Float bounds |
| Distributions.BoundsAtEnds | lib/capricious/spline_distribution.rb:196-204 | the Float bound knots become the first knot (at 0) and the last knot (at 1) |
| Distributions.UpperAtEnd | lib/capricious/spline_distribution.rb:201-203 | the upper bound knot becomes the last knot and keeps the first |
| Distributions.KnotsInside | lib/capricious/spline_distribution.rb:193 | every knot of the first spline lies inside the bounds |
| Distributions.LowerAtStart | lib/capricious/spline_distribution.rb:197-199 | the lower bound knot becomes the first knot |
| Distributions.FirstFit | lib/capricious/spline_distribution.rb:193-207 | the first fit holds the sampled cdf with the bound knots at its ends; it passes iff that leaves two knots, and otherwise raises ArgumentError |
| Distributions.PlaceBounds | lib/capricious/spline_distribution.rb:196-204 | the Float bound knots are stored at probability 0 and 1; the spline stays dirty and MONOTONIC |
| Distributions.FirstFixed | lib/capricious/spline_distribution.rb:196-206 | the first fixed gradients name exactly the smoothed Float bounds, each with gradient 0 |
| Distributions.FitPassesOf | lib/capricious/spline_distribution.rb:191-250 | the fitting part passes exactly when the first fit has two knots and both end checks pass on it |
| Distributions.EndsCompose | lib/capricious/spline_distribution.rb:209-250 | closing the lower end and then the upper end gives the final knots, the final fixed gradients and the two-sided check |
| Distributions.FitTails | lib/capricious/spline_distribution.rb:209-262 | after the first fit: passes iff `EndsPass`; a failure is a failed end check and raises RuntimeError; failure leaves the cached domain and moments; success gives a computed model whose knots are `FinalKnots` and whose gradients are the monotone fit with the fixed gradients `FinalFixed` |
| Distributions.Probe | lib/capricious/spline_distribution.rb:213-215 | `q` and `qp` at knot k of a clean spline return y[k] and m[k] and change nothing |
| Distributions.Refresh | lib/capricious/spline_distribution.rb:259 | `spline.domain` recomputes a dirty spline and keeps it fitted; it answers iff there are two knots, with the first and last x |
| Distributions.TailParams | lib/capricious/spline_distribution.rb:381-392 | the tail parameters `compute_moments` reads have a non-zero rate |
| Distributions.ModelMoments | lib/capricious/spline_distribution.rb:259-262 | `@smin, @smax` are the domain, and `mean`/`variance` are the model's moments |
| Distributions.ModelCdfContinuous | lib/capricious/spline_distribution.rb:122-135 | where the ends are fitted, cdf is continuous at both ends: each tail meets the spline's value |
| Distributions.ModelPdfContinuous | lib/capricious/spline_distribution.rb:139-153 | an INFINITE tail's density meets the spline's slope at its end, where no respline moved it |
| Distributions.CertainOutsideSupport | lib/capricious/spline_distribution.rb:125-132 | cdf is 0 at or below a finite lower end and 1 at or above a finite upper end |
| Distributions.TailDensityPositive | lib/capricious/spline_distribution.rb:143-149 | an INFINITE tail's density is positive everywhere |
| Distributions.DispatchOfModel | lib/capricious/spline_distribution.rb:122-153 | on a computed model, `cdf`/`pdf` never fail and answer with the model's cdf/pdf: directly outside the domain, and through `q`/`qp` inside it |
| Distributions.SupportOfModel | lib/capricious/spline_distribution.rb:167-173 | `support` is ±∞ exactly at INFINITE ends; a finite end is where cdf is 0 or 1, and a Float bound is the end itself |
| Distributions.LowerExpFits | lib/capricious/spline_distribution.rb:222-229 | the INFINITE lower tail meets the first knot with positive rate |
| Distributions.UpperExpFits | lib/capricious/spline_distribution.rb:242-249 | the INFINITE upper tail meets the last knot with positive rate |
| Distributions.LowerSplineEnd | lib/capricious/spline_distribution.rb:212-221 | a SPLINE lower end adds the tangent root as the new first knot at 0, or raises RuntimeError |
| Distributions.UpperSplineEnd | lib/capricious/spline_distribution.rb:232-241 | a SPLINE upper end adds the tangent root as the new last knot at 1 |
| Distributions.StoreBeforeFirst | lib/capricious/spline_distribution.rb:219 | a key below the first knot, stored, becomes the first knot, and the last knot stays |
| Distributions.StoreAfterLast | lib/capricious/spline_distribution.rb:239 | a key above the last knot, stored, becomes the last knot, and the first knot stays |
| Distributions.LowerExpEnd | lib/capricious/spline_distribution.rb:222-229 | an INFINITE lower end fits the tail without touching the spline |
| Distributions.UpperExpEnd | lib/capricious/spline_distribution.rb:242-249 | an INFINITE upper end fits the tail without touching the spline |
| Distributions.LowerEnd | lib/capricious/spline_distribution.rb:211-230 | the lower `case` passes iff the lower check `LowerPasses` holds on the first fit, and fails with RuntimeError otherwise. Success gives the knots `LowerKnots` and fixed gradients `LowerFixed`, keeps the last knot and fits the first knot to its tail (value, and slope for INFINITE); only SPLINE touches the spline |
| Distributions.UpperEnd | lib/capricious/spline_distribution.rb:231-250 | the upper `case` passes iff `UpperPasses` holds on the spline the lower step left (RuntimeError otherwise). Success gives the knots `UpperKnots` and fixed gradients `UpperFixed`, and both ends fitted to their tails, the lower fit kept |
| Distributions.FitModel | lib/capricious/spline_distribution.rb:191-262 | the fitting part of `recompute` passes iff `FitPasses` (the first fit has two knots and both end checks pass). A failure raises ArgumentError when the first fit has fewer than two knots, RuntimeError otherwise (a failed end check). Failure leaves the cached domain and moments. Success gives a computed model on a spline whose knots are the sampled cdf with the bound and SPLINE knots, fitted with the respline's fixed gradients (`FitFrom`) |
| Distributions.FitEnds | lib/capricious/spline_distribution.rb:209-250 | both `case`s pass iff `EndsPass` holds on the first fit, and a failure raises RuntimeError. Success leaves the knots `FinalKnots` and the fixed gradients `FinalFixed`, both ends fitted, and a respline needed iff an end is SPLINE |
| Distributions.Close | lib/capricious/spline_distribution.rb:252-262 | respline, cache the domain, compute the moments: never fails, keeps the knots, sets the fixed gradients to gfix, and the cache is the model of the fitted columns |
| Distributions.CdfAt | lib/capricious/spline_distribution.rb:125-134 | `cdf`'s dispatch: outside the domain the tail rule, inside `@spline.q` |
| Distributions.PdfAt | lib/capricious/spline_distribution.rb:143-152 | `pdf`'s dispatch: outside the domain the tail density or 0, inside `@spline.qp` |
| Distributions.SupportAt | lib/capricious/spline_distribution.rb:167-173 | `support` is the spline's domain with infinities at INFINITE ends |
| Distributions.SplineDistribution.constructor | lib/capricious/spline_distribution.rb:30-33 | a new distribution has the defaults (SPLINE ends, no smoothing, quantile 0.05), no data, and is dirty |
| Distributions.SplineDistribution.Reset | lib/capricious/spline_distribution.rb:37-40 | `reset` restores the default arguments and empties data; the checked fields keep their values |
| Distributions.SplineDistribution.Clear | lib/capricious/spline_distribution.rb:44-47 | `clear` empties data and marks dirty |
| Distributions.SplineDistribution.ClearData | lib/capricious/spline_distribution.rb:51-53 | `clear_data` empties data and keeps the model |
| Distributions.SplineDistribution.MarkDirty | lib/capricious/spline_distribution.rb:293-295 | `dirty!` drops the spline only |
| Distributions.SplineDistribution.Enter | lib/capricious/spline_distribution.rb:287-291 | samples are appended in order; an empty list does not mark dirty |
| Distributions.SplineDistribution.Put | lib/capricious/spline_distribution.rb:93-96 | `put` appends the float-coerced samples or raises ArgumentError without change |
| Distributions.SplineDistribution.Configure | lib/capricious/spline_distribution.rb:57-81 | `configure` merges, checks each bound, copies the smoothing flags and stores the quantile before its range check. Each failure raises ArgumentError and rolls nothing back. `:data` replaces the data |
| Distributions.SplineDistribution.CheckBounds | lib/capricious/spline_distribution.rb:60-63 | the bound checks, in order, then the smoothing flags |
| Distributions.SplineDistribution.CheckQuantile | lib/capricious/spline_distribution.rb:65-70 | the quantile is stored, then refused unless strictly inside (0, 1) |
| Distributions.AsWrittenZeroQuantileStalls | lib/capricious/spline_distribution.rb:65-67 | `configure(:cdf_quantile => 0)` is refused but leaves the quantile 0.0, and with it the `until` loop of `sampled_cdf` (:341) never passes q |
| Distributions.CheckedQuantile | lib/capricious/spline_distribution.rb:65-67 | the intended check: a rejected value keeps the previous quantile, so a quantile in (0, 1) stays in (0, 1) |
| Distributions.CheckedQuantileEnds | lib/capricious/spline_distribution.rb:341 | under the intended check the `until` loop always ends, after `Rounds` rounds |
| Distributions.SplineDistribution.ReplaceData | lib/capricious/spline_distribution.rb:73-78 | the `:data` step: `clear`, then enter the samples |
| Distributions.SplineDistribution.Recompute | lib/capricious/spline_distribution.rb:176-265 | a clean model changes nothing. Otherwise `@data` itself becomes the samples inside the bounds. Fewer than 2 raise ArgumentError and stay dirty. At least 2 are sorted in place, and `recompute` passes iff `FitPasses` holds on their sampled cdf `SampledCdfOf`; a failure then raises ArgumentError when the first fit has fewer than two knots and RuntimeError otherwise; success gives a computed model on the spline `FitFrom` describes |
| Distributions.SplineDistribution.Fit | lib/capricious/spline_distribution.rb:191-262 | the fit sets a fresh spline and passes iff `FitPasses` on the sampled cdf; a failure raises ArgumentError when the first fit has fewer than two knots and RuntimeError otherwise, and leaves the cached domain and moments; success gives a computed model on the spline `FitFrom` describes |
| Distributions.SplineDistribution.Ready | lib/capricious/spline_distribution.rb:176-265 | `recompute` as the queries call it: a clean distribution is unchanged, and a dirty one that passes ends with a computed model, and a failure is ArgumentError or RuntimeError |
| Distributions.SplineDistribution.SetDerived | lib/capricious/spline_distribution.rb:259-262 | the cached domain, tails and moments take the computed values; settings, data and spline stay |
| Distributions.SplineDistribution.Cdf | lib/capricious/spline_distribution.rb:122-135 | on a computed model, `cdf` always answers, with the model's cdf |
| Distributions.SplineDistribution.Pdf | lib/capricious/spline_distribution.rb:139-153 | on a computed model, `pdf` always answers, with the model's pdf |
| Distributions.SplineDistribution.Support | lib/capricious/spline_distribution.rb:167-173 | `support` is the spline's domain with ±∞ at INFINITE ends |
| Distributions.SplineDistribution.Mean | lib/capricious/spline_distribution.rb:155-158 | `mean` is the computed model's first moment |
| Distributions.SplineDistribution.Variance | lib/capricious/spline_distribution.rb:160-163 | `variance` is the computed model's clamped variance |
| Sink.SumSqDev | lib/capricious/sample_sink.rb:58 | a sum of squared deviations is never negative |
| Sink.SeqMin | lib/capricious/sample_sink.rb:50 | the least sample: present, and at most every sample |
| Sink.SeqMax | lib/capricious/sample_sink.rb:51 | the greatest sample: present, and at least every sample |
| Sink.SumSqDevExpand | lib/capricious/sample_sink.rb:58 | Σ(s - c)² = Σs² - 2cΣs + n c² |
| Sink.MeanUpdate | lib/capricious/sample_sink.rb:56-57 | the incremental update gives the mean of n + 1 samples iff it is mean + dev/(n + 1) |
| Sink.MeanAfterAppend | lib/capricious/sample_sink.rb:57 | (n + 1)·mean(s + [x]) = Σs + x |
| Sink.WelfordDeviation | lib/capricious/sample_sink.rb:58 | Welford's `sum_x2` update equals the deviation sum about the new mean |
| Sink.WelfordMeanStep | lib/capricious/sample_sink.rb:56-57 | mean(s + [x]) = mean(s) + (x - mean(s))/(n + 1) |
| Sink.WelfordDeviationStep | lib/capricious/sample_sink.rb:56-58 | `sum_x2 += dev·(x - new mean)` keeps it the deviation sum about the current mean |
| Sink.MeanInvariant | lib/capricious/sample_sink.rb:56-57 | the running mean after the update is the mean of all samples |
| Sink.DeviationInvariant | lib/capricious/sample_sink.rb:58 | the running `sum_x2` after the update is the deviation sum of all samples |
| Sink.WelfordUpdate | lib/capricious/sample_sink.rb:55-60 | one Welford step from the batch mean and deviation sum of s gives those of s + [x] |
| Sink.SampleSink.constructor | lib/capricious/sample_sink.rb:24-31 | min and max start nil, count 0, mean, sum_x2 and variance 0 |
| Sink.SampleSink.Put | lib/capricious/sample_sink.rb:33-37 | `put` records one more sample and keeps the statistics those of all samples seen |
| Sink.SampleSink.UpdateStats | lib/capricious/sample_sink.rb:49-53 | count grows by one, and min/max are the least and greatest samples seen |
| Sink.SampleSink.UpdateEstimates | lib/capricious/sample_sink.rb:55-60 | mean is the mean of all samples, sum_x2 their deviation sum, and variance = sum_x2/count |
| Sink.VarianceNonnegative | lib/capricious/sample_sink.rb:58-59 | variance is never negative |
| Lfsr.SelectShifter | lib/capricious/lfsr.rb:30-45 | size 64, 32 or 16 selects that register; anything else selects 32; nil means `0.size·8` |
| Lfsr.MaskTo | lib/capricious/lfsr.rb:61 | the masked seed fits in SIZE bits |
| Lfsr.MaskToIsAnd | lib/capricious/lfsr.rb:61 | masking is `& MASK` |
| Lfsr.FeedbackIsBit | lib/capricious/lfsr.rb:70 | the XOR of the tap bits is a bit |
| Lfsr.FeedbackOfFour | lib/capricious/lfsr.rb:70 | four taps XOR together, left to right |
| Lfsr.TapBitIsXorOfPositions | lib/capricious/lfsr.rb:69-74 | the taps are bits 0,1,3,4 (64), 0,1,2,22 (32) or 0,2,3,5 (16) |
| Lfsr.ShiftReg | lib/capricious/lfsr.rb:73-76 | `shift_reg`: the register shifted right by one, with the tap bit put in at SIZE-1 (its properties are the `ShiftStep`, `ShiftKeepsRange` and `NonzeroStaysNonzero` rows) |
| Lfsr.ShiftIn | lib/capricious/lfsr.rb:75 | `(reg >> 1) \| (bit << k)` = reg/2 + bit·2^k, below 2^(k+1) |
| Lfsr.ShiftStep | lib/capricious/lfsr.rb:72-76 | one step shifts right and enters the tap bit at SIZE-1, staying within MASK |
| Lfsr.ZeroIsFixed | lib/capricious/lfsr.rb:74-75 | register 0 stays 0 |
| Lfsr.FeedbackOfZero | lib/capricious/lfsr.rb:74 | register 0 has tap bit 0 |
| Lfsr.NonzeroStaysNonzero | lib/capricious/lfsr.rb:74-75 | bit 0 is a tap, so a nonzero register never becomes 0 |
| Lfsr.ShiftKeepsRange | lib/capricious/lfsr.rb:72-76 | the register stays within MASK, and stays nonzero once nonzero |
| Lfsr.StreamInRange | lib/capricious/lfsr.rb:50-53 | the output stream has one value per call, each within MASK, all nonzero from a nonzero register |
| Lfsr.StreamAt | lib/capricious/lfsr.rb:50-53 | the i-th value `next` returns is within MASK, and nonzero from a nonzero register |
| Lfsr.MaskPositive | lib/capricious/lfsr.rb:67 | MASK is positive |
| Lfsr.FractionInUnit | lib/capricious/lfsr.rb:57 | reg/MASK lies in [0, 1] |
| Lfsr.LFSR.constructor | lib/capricious/lfsr.rb:30-48 | the register size follows SelectShifter; the seed is the masked clock, since `reset` is called without the seed argument |
| Lfsr.LFSR.Reset | lib/capricious/lfsr.rb:60-63 | the seed is set only on the first reset; the register restarts from it |
| Lfsr.LFSR.Next | lib/capricious/lfsr.rb:50-53 | `next` shifts once and returns the new register, nonzero if the old one was |
| Lfsr.LFSR.NextF | lib/capricious/lfsr.rb:55-58 | `next_f` shifts once and returns reg/MASK in [0, 1], above 0 when the old register was nonzero |
| Bits.Shr | lib/capricious/lfsr.rb:75 | Ruby's `a >> k` on non-negative integers: a divided by 2^k, rounded down |
| Bits.Shl | lib/capricious/mwc5.rb:66 | Ruby's `a << k` on non-negative integers: a times 2^k, with no width limit |
| Bits.Xor | lib/capricious/mwc5.rb:61 | Ruby's `a ^ b` on non-negative integers, bit by bit |
| Bits.And | lib/capricious/mwc5.rb:68 | Ruby's `a & b` on non-negative integers, bit by bit (its mask property is the `AndLowMask` row) |
| Bits.Or | lib/capricious/lfsr.rb:75 | Ruby's `a \| b` on non-negative integers, bit by bit (its disjoint case is the `OrDisjoint` row) |
| Bits.OrDisjoint | lib/capricious/lfsr.rb:75 | `a \| (b << k)` is an addition when a fits in k bits |
| Bits.AndLowMask | lib/capricious/mwc5.rb:61 | `a & (2^k - 1)` is a mod 2^k |
| Bits.XorKeepsHigh | lib/capricious/mwc5.rb:66 | XOR with a k-bit value keeps the bits from k up |
| Mwc5.Low32 | lib/capricious/mwc5.rb:61 | the low 32 bits fit in 32 bits |
| Mwc5.AndMask32 | lib/capricious/mwc5.rb:61 | `& 0xffffffff` takes the low 32 bits |
| Mwc5.TmixFits | lib/capricious/mwc5.rb:61 | t is a 32-bit word |
| Mwc5.AndEvenMask | lib/capricious/mwc5.rb:67 | `y & 0xfffffffe` keeps bits 1..31 of y |
| Mwc5.YyIsOddLow32 | lib/capricious/mwc5.rb:67 | yy is odd and below 2^32, since `<<` binds tighter than `&` |
| Mwc5.OutputIsLowProduct | lib/capricious/mwc5.rb:68 | the output is (yy·v) mod 2^32, at most 0xffffffff |
| Mwc5.StepAsWritten | lib/capricious/mwc5.rb:59-68 | `shift_ks` as written: x, y, z, w take the next word and v gets the new v with only its t-part masked (`AsWrittenVEscapes` shows v leaving 32 bits) |
| Mwc5.StepCorrected | lib/capricious/mwc5.rb:59-68 | `shift_ks` with the whole new v masked to 32 bits (`CorrectedStepFits` keeps every word in 32 bits) |
| Mwc5.CorrectedStepFits | lib/capricious/mwc5.rb:66 | the step with v masked as a whole keeps every word in 32 bits |
| Mwc5.AsWrittenAgreesLow32 | lib/capricious/mwc5.rb:66 | the as-written v has the corrected v as its low 32 bits |
| Mwc5.OutputsAgree | lib/capricious/mwc5.rb:59-69 | from one state, one step of either version returns the same output |
| Mwc5.SameLowSameOutput | lib/capricious/mwc5.rb:68 | the output depends only on v's low 32 bits |
| Mwc5.AsWrittenVEscapes | lib/capricious/mwc5.rb:66 | as written, any 32-bit v >= 2^26 yields a new v >= 2^32 |
| Mwc5.AsWrittenCounterexample | lib/capricious/mwc5.rb:66 | from 32-bit words with v = 2^31, one as-written step leaves 32 bits |
| Mwc5.MaskSeeds | lib/capricious/mwc5.rb:37-44 | each seed word is the low 32 bits of its seeder draw |
| Mwc5.SeederRegAsWritten | lib/capricious/lfsr.rb:30-47 | as written, the seeder's register is the masked clock, within MASK |
| Mwc5.AsWrittenSeedIgnored | lib/capricious/lfsr.rb:30-47 | as written, any two seeds start the seeder alike |
| Mwc5.AsWrittenSeedingRaises | lib/capricious/mwc5.rb:36-37 | as written, seeding raises NoMethodError for every seed and clock |
| Mwc5.SeederDrawsInRange | lib/capricious/mwc5.rb:36-44 | each intended seeder draw is within MASK, and nonzero when the masked seed is nonzero |
| Mwc5.MWC5.constructor | lib/capricious/mwc5.rb:29-31 | the seed is the argument or the clock; the state is the five masked seed words |
| Mwc5.MWC5.WithSeed | lib/capricious/mwc5.rb:25-31 | `new_with_seed(seed)` with the seeder seeded as intended: the seed is kept and the state is the masked draws of an LFSR started from it, whatever the clock |
| Mwc5.MWC5.Reset | lib/capricious/mwc5.rb:33-48 | the seed and seed words are set only once; every reset reloads the state from them, so the stream replays |
| Mwc5.MWC5.NextI | lib/capricious/mwc5.rb:59-69 | `shift_ks` rotates (x, y, z, w) to (y, z, w, v), appends the new v, keeps every word in 32 bits, and returns the 32-bit output |
| Mwc5.MWC5.NextF | lib/capricious/mwc5.rb:54-56 | `next_f` = next_i / 0xffffffff lies in [0, 1] |

## Left out

- Distributions.SplineDistribution.CheckQuantile: a `cdf_quantile` of ±Infinity is stored by the source before the range check and then refused; reals have no infinity, so the model keeps the previous quantile instead. A stored -Infinity makes the `until` loop of `sampled_cdf` step downward forever, like a quantile <= 0; +Infinity ends it in one round.
- Floating point: values are reals, so rounding, overflow and NaN are not modelled. The `v != Float::NAN` test in `checkba` has no counterpart. A Float infinity exists only as an argument value (`Infinity`) and as a bound.
- `Math.sqrt`, `Math.exp` and `Math.log` are parameters with the laws the proofs need, not computed functions.
- `Time.now.utc.to_i` and `0.size` are parameters. `LFSR.new_with_seed` is left out: as written it seeds from the clock whatever the seed (`Mwc5.AsWrittenSeedIgnored`).
- Mwc5.MWC5.constructor: takes the five seeder draws as a parameter, because the seeder as written raises NoMethodError (see Findings); `Mwc5.MWC5.WithSeed` supplies the draws of an LFSR seeded as intended.
- Knots.ToF: every String reads as 0.0; String#to_f's number parsing is not modelled. This reaches every value read through `to_f`: `configure`'s `cdf_quantile`, the knots `put` enters, `yp_lower`/`yp_upper`, fixed gradients, samples and query points. A numeric string such as "0.1" gives 0.0 in the model where Ruby gives 0.1.
- Knots.Canonical: when it is given a list of pairs, the splines' `canonical` converts the caller's Array in place with `map!` (`to_a` of an Array is the Array itself), so the caller's Array holds Float pairs afterwards, and holds the elements converted so far when a conversion fails (lib/capricious/cubic_spline.rb:153,162; lib/capricious/cubic_hermite_spline.rb:155,164). The model returns new knots and leaves the argument alone.
- Samples.SampleData: the distribution's `canonical` converts the caller's Array in place with `map!`, so the caller's Array holds Floats afterwards, and holds the elements converted so far when a conversion fails. The model returns a new list and leaves the argument alone.
- `configuration`, `data`, `x`, `y`, `m`, `ypp` and `spline` return frozen clones. The model reads the fields directly. Their `recompute if dirty?` is modelled by `Domain`, `Prepare` and the queries.
- `<<` is `put` returning `self`; only `put` is modelled. `SampleSink#stddev` (one `Math.sqrt`) is left out.
- Error message texts are not modelled, only the exception classes.
- Hermite.CubicHermiteSpline.Recompute: requires a positive numeric `monotonic_epsilon` for the monotonic methods (the predicate `Computable`); so do `Domain`, `Prepare`, `Q`, `Qp`, `Qpp` and `FillGradients`, which may recompute. The sweep divides by the secant, and eps <= 0 admits a zero secant, which floats turn into Infinity/NaN. It also excludes a Hash `fixed_gradients` that failed coercion.
- Distributions.SplineDistribution.Recompute: requires `cdf_quantile > 0`. A failed `configure` can store a quantile <= 0, and then the `until` loop of `sampled_cdf` never ends (a source defect; see "## Findings"). The model keeps the as-written store in `CheckQuantile`, so the requirement stands. The same requirement is on `Cdf`, `Pdf`, `Support`, `Mean` and `Variance`, which may recompute.
- Distributions.SplineDistribution.Cdf: after a `recompute` that raised once `@spline` was set (a failed tail check), the model is not computed. The contract then says only that the state stays valid; it does not give the answer. `Pdf`, `Support`, `Mean` and `Variance` are alike.
- Hermite.CubicHermiteSpline.Qpp: the `qpp` formula divides by `h**2`; the model divides twice by h, which is equal over reals.
- Mwc5.MWC5.NextI: steps with the corrected `shift_ks`, where the new v is masked to 32 bits (see Findings). The step as written is `StepAsWritten`, with the lemmas beside it.
- The Fritsch–Carlson theorem (the ratio bounds imply a monotone interpolant) is not proved; the ratio bounds are.
- The behaviour the source's documentation describes but the code does not have is not modelled:
  - fixed gradients applied before the monotone sweep (the code applies them after it);
  - a tridiagonal gradient method for the Hermite spline;
  - a Hermite `find` that honours `strict_domain` (the code reads `@strict_domain`, which this class never assigns).

## Findings

| source | as written | input that shows it | evidently intended | confidence | as-written member | corrected member |
|---|---|---|---|---|---|---|
| lib/capricious/mwc5.rb:66 | `@v=(@v^(@v<<6))^(t^(t<<13)) & 0xffffffff`: `&` binds tighter than `^`, so only the t-part is masked and v keeps the bits `@v<<6` pushes past bit 31 | state (0, 0, 0, 0, v = 2^31); any 32-bit v >= 2^26 does it | the whole new v masked to 32 bits, as the comment about avoiding bignums says; the state stays in 32-bit words (one step's output is the same either way) | not executed | Mwc5.AsWrittenCounterexample | Mwc5.CorrectedStepFits |
| lib/capricious/mwc5.rb:36-37 | `seeder.next_i` on an LFSR, which defines only `next` and `next_f`, so every `MWC5.new` raises NoMethodError; and `LFSR.new_with_seed(@seed)` never hands the seed to `reset` (lib/capricious/lfsr.rb:30-47), so the seeder would start from the clock | `MWC5.new_with_seed(42)`, or any seed and clock | the seeder started from `@seed & MASK` and read ten calls apart, so the same seed gives the same state whatever the clock | not executed | Mwc5.AsWrittenSeedingRaises | Mwc5.MWC5.WithSeed |
| lib/capricious/spline_distribution.rb:65-67 | `@cdf_quantile = @args[:cdf_quantile].to_f` is assigned before the range check, so a refused quantile stays in place; with a quantile <= 0, `qcur += @cdf_quantile until qcur > q` in `sampled_cdf` (:341) never ends, so the next `recompute` (and any `cdf`, `pdf`, `support`, `mean` or `variance`) hangs | `configure(:cdf_quantile => 0)` (it raises ArgumentError), then `put([1, 2, 3])` and `cdf(2)`; `:cdf_quantile => nil` or a non-numeric String does the same | the value checked before it is stored, so a refused `configure` keeps the previous quantile | not executed | Distributions.AsWrittenZeroQuantileStalls | Distributions.CheckedQuantile |
