/**
 * lib/capricious/spline_distribution.rb, the parts that work on the samples
 * alone: the bound arguments (`checkba`), sample coercion (`canonical`), the
 * filter and sort at the start of `recompute`, and the quantile-thinned
 * empirical CDF of `sampled_cdf`.
 */
module Samples {
  import opened Wrappers
  import opened Knots
  import opened Elementary

  const SplineName: string := "spline"
  const InfiniteName: string := "inf"

  // ------------------------------------------------------------- bounds

  /** A tail policy as `checkba` stores it in `@cdf_lb` or `@cdf_ub`. */
  datatype Bound =
    | SplineTail              // SPLINE: close the cdf with one more fitted knot
    | InfiniteTail            // INFINITE: an exponential tail out to infinity
    | At(v: real)             // a finite Float bound
    | Beyond(negative: bool)  // an infinite Float on the side that keeps no sample

  /** `@cdf_lb.class <= Float` */
  predicate IsFloat(b: Bound)
  {
    b.At? || b.Beyond?
  }

  /**
   * `checkba(v, lower)`: the two policy names as given, the infinity on the
   * bound's own side as INFINITE, any other number as a Float bound, and
   * ArgumentError for everything else.
   */
  function CheckBa(v: Value, lower: bool): (r: Result<Bound>)
    ensures r.Ok? <==> v == Str(SplineName) || v == Str(InfiniteName) || Numeric(v)
    ensures r.Err? ==> r.error == ArgumentError
    ensures r == Ok(SplineTail) <==> v == Str(SplineName)
    ensures r == Ok(InfiniteTail) <==> v == Str(InfiniteName) || v == Infinity(lower)
    ensures (r.Ok? && r.value.At?) <==> v.Int? || v.Float?
    ensures v.Float? ==> r == Ok(At(v.f))
    ensures v.Int? ==> r == Ok(At(v.i as real))
  {
    if v == Str(SplineName) then Ok(SplineTail)
    else if v == Str(InfiniteName) then Ok(InfiniteTail)
    else if v == Infinity(lower) then Ok(InfiniteTail)
    else match v
      case Int(i) => Ok(At(i as real))
      case Float(f) => Ok(At(f))
      case Infinity(negative) => Ok(Beyond(negative))
      case _ => Err(ArgumentError)
  }

  /** A Float bound never comes from the infinity on its own side. */
  lemma BeyondIsFarSide(v: Value, lower: bool)
    requires CheckBa(v, lower).Ok? && CheckBa(v, lower).value.Beyond?
    ensures CheckBa(v, lower).value.negative == !lower
  {
  }

  // ---------------------------------------------------------- samples

  /** `e.to_f` for each element, ArgumentError as soon as one has no `to_f`. */
  function ConvertAll(es: seq<Value>): (r: Result<seq<real>>)
    requires forall i :: 0 <= i < |es| ==> !es[i].Infinity?
    ensures r.Ok? <==> forall i :: 0 <= i < |es| ==> HasToF(es[i])
    ensures r.Err? ==> r.error == ArgumentError
    ensures r.Ok? ==> |r.value| == |es| && forall i :: 0 <= i < |es| ==> r.value[i] == ToF(es[i]).value
  {
    if |es| == 0 then Ok([])
    else
      var rest := ConvertAll(es[1..]);
      assert forall i :: 1 <= i < |es| ==> es[1..][i - 1] == es[i];
      if ToF(es[0]).Err? || rest.Err? then Err(ArgumentError)
      else Ok([ToF(es[0]).value] + rest.value)
  }

  /**
   * `canonical(data)` of the distribution: a number is one sample, an Array
   * is its elements through `to_f`; anything else is an ArgumentError.
   */
  function SampleData(data: Value): (r: Result<seq<real>>)
    requires Finite(data)
    ensures r.Err? ==> r.error == ArgumentError
    ensures Numeric(data) ==> r == Ok([ToF(data).value])
    ensures data.Arr? ==> (FiniteElements(data); r == ConvertAll(data.elems))
    ensures r.Ok? <==> Numeric(data) || (data.Arr? && forall i :: 0 <= i < |data.elems| ==> HasToF(data.elems[i]))
  {
    if Numeric(data) then Ok([ToF(data).value])
    else if data.Arr? then FiniteElements(data); ConvertAll(data.elems)
    else Err(ArgumentError)
  }

  lemma FiniteElements(data: Value)
    requires Finite(data) && data.Arr?
    ensures forall i :: 0 <= i < |data.elems| ==> !data.elems[i].Infinity?
  {
  }

  /** The values with a `to_f`: nil, numbers and strings. */
  predicate HasToF(v: Value)
  {
    v.Nil? || v.Int? || v.Float? || v.Str?
  }

  // ------------------------------------------------ select! and sort!

  /** Whether `select!` keeps x: strictly above a lower Float bound, strictly below an upper one. */
  predicate Inside(x: real, b: Bound, lower: bool)
  {
    match b
    case At(v) => if lower then x > v else x < v
    case Beyond(negative) => if lower then negative else !negative
    case _ => true
  }

  /** `raw.select!{...}` with the bound's test: the kept samples, in their order. */
  function Select(s: seq<real>, b: Bound, lower: bool): (r: seq<real>)
    ensures |r| <= |s|
    ensures forall x :: multiset(r)[x] == if Inside(x, b, lower) then multiset(s)[x] else 0
    ensures (forall i :: 0 <= i < |s| ==> Inside(s[i], b, lower)) ==> r == s
  {
    if |s| == 0 then []
    else
      assert s == [s[0]] + s[1..];
      var t := Select(s[1..], b, lower);
      if Inside(s[0], b, lower) then [s[0]] + t else t
  }

  /** A far-side infinite bound keeps no sample. */
  lemma BeyondKeepsNothing(s: seq<real>, negative: bool, lower: bool)
    requires negative == !lower
    ensures Select(s, Beyond(negative), lower) == []
  {
    var r := Select(s, Beyond(negative), lower);
    assert multiset(r) == multiset{};
  }

  predicate Sorted(s: seq<real>)
  {
    forall i, j :: 0 <= i < j < |s| ==> s[i] <= s[j]
  }

  /** Insert x into a sorted list. */
  function Insert(x: real, s: seq<real>): (r: seq<real>)
    requires Sorted(s)
    ensures Sorted(r) && multiset(r) == multiset(s) + multiset{x}
  {
    if |s| == 0 || x <= s[0] then [x] + s
    else
      var t := Insert(x, s[1..]);
      HeadBelow(s, x, t);
      assert s == [s[0]] + s[1..];
      [s[0]] + t
  }

  /** What is inserted after the head of a sorted list lies at or above that head. */
  lemma HeadBelow(s: seq<real>, x: real, t: seq<real>)
    requires Sorted(s) && |s| > 0 && s[0] < x
    requires multiset(t) == multiset(s[1..]) + multiset{x}
    ensures forall i :: 0 <= i < |t| ==> s[0] <= t[i]
  {
    forall i | 0 <= i < |t|
      ensures s[0] <= t[i]
    {
      assert t[i] in multiset(t);
      if t[i] != x {
        assert t[i] in s[1..];
      }
    }
  }

  /** `raw.sort!`: the samples in ascending order. */
  function SortReals(s: seq<real>): (r: seq<real>)
    ensures Sorted(r) && multiset(r) == multiset(s)
  {
    if |s| == 0 then []
    else
      assert s == [s[0]] + s[1..];
      Insert(s[0], SortReals(s[1..]))
  }

  /** A multiset of reals has one ascending arrangement, so `sort!` leaves nothing to choose. */
  lemma {:induction false} SortedUnique(a: seq<real>, b: seq<real>)
    requires Sorted(a) && Sorted(b) && multiset(a) == multiset(b)
    ensures a == b
    decreases |a|
  {
    if |a| == 0 {
      assert |b| == |multiset(b)| == 0;
    } else {
      SameHead(a, b);
      TailMultiset(a);
      TailMultiset(b);
      SortedUnique(a[1..], b[1..]);
      assert a == [a[0]] + a[1..] && b == [b[0]] + b[1..];
    }
  }

  /** The tail of a nonempty list holds its elements but one copy of the head. */
  lemma TailMultiset(a: seq<real>)
    requires |a| > 0
    ensures multiset(a[1..]) == multiset(a) - multiset{a[0]}
  {
    assert a == [a[0]] + a[1..];
  }

  /** Sorted arrangements of one nonempty multiset start with the same (least) element. */
  lemma SameHead(a: seq<real>, b: seq<real>)
    requires Sorted(a) && Sorted(b) && multiset(a) == multiset(b) && |a| > 0
    ensures |b| > 0 && a[0] == b[0]
  {
    assert |b| == |multiset(b)| == |a|;
    assert a[0] in multiset(b) && b[0] in multiset(a);
    LeastIsHead(a, b[0]);
    LeastIsHead(b, a[0]);
  }

  /** The head of a sorted list is at most any of its elements. */
  lemma LeastIsHead(s: seq<real>, x: real)
    requires Sorted(s) && x in multiset(s)
    ensures s[0] <= x
  {
    assert x in s;
  }

  // --------------------------------------------------------- sampled_cdf

  /** The integer square root: the largest r with r*r <= n. */
  function Isqrt(n: nat): (r: nat)
    ensures r * r <= n < (r + 1) * (r + 1)
  {
    if n == 0 then 0
    else
      var s := Isqrt(n - 1);
      if (s + 1) * (s + 1) <= n then
        assert n == (s + 1) * (s + 1);
        assert (s + 2) * (s + 2) == (s + 1) * (s + 1) + 2 * s + 3;
        s + 1
      else s
  }

  /**
   * `ro`, the samples dropped from each end of more than 100:
   * 1 + floor(sqrt(n0)/30), which is 1 + floor(isqrt(n0)/30). At least one
   * sample always remains.
   */
  function Trimmed(n0: nat): (ro: nat)
    ensures n0 <= 100 ==> ro == 0
    ensures n0 > 100 ==> 1 <= ro && 2 * ro < n0
  {
    if n0 > 100 then
      var s := Isqrt(n0);
      assert s <= n0 by {
        if s > 0 {
          assert s <= s * s;
        }
      }
      1 + s / 30
    else 0
  }

  /** The quantile bin of probability q: how many whole steps of width w lie at or below it. */
  function Bin(q: real, w: real): int
    requires w > 0.0
  {
    (q / w).Floor
  }

  /** s is the m-th step boundary of width w. */
  predicate OnStep(s: real, m: int, w: real)
  {
    s == m as real * w
  }

  /** qcur after n rounds of `qcur += w`. */
  function Climb(qcur: real, w: real, n: nat): real
  {
    if n == 0 then qcur else Climb(qcur, w, n - 1) + w
  }

  /** n rounds of `qcur += w` add n w. */
  lemma {:induction false} ClimbClosed(qcur: real, w: real, n: nat)
    ensures Climb(qcur, w, n) == qcur + n as real * w
  {
    if n > 0 {
      ClimbClosed(qcur, w, n - 1);
    }
  }

  /**
   * With a quantile step w <= 0, `qcur += w until qcur > q` never ends from
   * a qcur at or below q: no number of rounds lifts qcur above q.
   */
  lemma {:induction false} ClimbStalls(qcur: real, q: real, w: real, n: nat)
    requires w <= 0.0 && qcur <= q
    ensures Climb(qcur, w, n) <= qcur <= q
  {
    if n > 0 {
      ClimbStalls(qcur, q, w, n - 1);
    }
  }

  /** How many rounds of `qcur += w` it takes, for w > 0, to pass q from a qcur at or below it. */
  function Rounds(qcur: real, q: real, w: real): (n: nat)
    requires w > 0.0 && qcur <= q
    ensures Climb(qcur, w, n) > q
    ensures n > 0 ==> Climb(qcur, w, n - 1) <= q
  {
    var x := (q - qcur) / w;
    assert x >= 0.0;
    var n := x.Floor + 1;
    RoundsBracket(qcur, q, w, x, n);
    n
  }

  /** The whole step count n just above (q - qcur)/w brackets q between the (n-1)-th and the n-th round. */
  lemma RoundsBracket(qcur: real, q: real, w: real, x: real, n: nat)
    requires w > 0.0 && x * w == q - qcur && (n - 1) as real <= x < n as real
    ensures Climb(qcur, w, n) > q
    ensures n > 0 ==> Climb(qcur, w, n - 1) <= q
  {
    ClimbClosed(qcur, w, n);
    MulBelow(x, n as real, w);
    assert Climb(qcur, w, n) > q;
    if n > 0 {
      ClimbClosed(qcur, w, n - 1);
      MulAtMost((n - 1) as real, x, w);
    }
  }

  /** a < b and w > 0 give a w < b w. */
  lemma MulBelow(a: real, b: real, w: real)
    requires w > 0.0 && a < b
    ensures a * w < b * w
  {
    assert b * w - a * w == (b - a) * w;
  }

  /** a <= b and w > 0 give a w <= b w. */
  lemma MulAtMost(a: real, b: real, w: real)
    requires w > 0.0 && a <= b
    ensures a * w <= b * w
  {
    assert b * w - a * w == (b - a) * w;
  }

  /** A probability at or above m whole steps lies in bin m or later. */
  lemma BinAtLeast(q: real, w: real, m: int)
    requires w > 0.0 && q >= m as real * w
    ensures Bin(q, w) >= m
  {
    DivBounds(q, w, m as real, q / w);
  }

  /** A probability in [(m-1) w, m w) lies in bin m - 1. */
  lemma BinExactly(q: real, w: real, m: int)
    requires w > 0.0 && (m - 1) as real * w <= q < m as real * w
    ensures Bin(q, w) == m - 1
  {
    BinAtLeast(q, w, m - 1);
    DivBelow(q, w, m as real);
  }

  /**
   * `qcur += @cdf_quantile until qcur > q`, from a qcur on a step boundary at
   * or below q: qcur ends on the first step boundary above q.
   */
  method Advance(qcur: real, q: real, w: real, ghost k: int) returns (next: real)
    requires w > 0.0 && qcur <= q && OnStep(qcur, k, w)
    ensures q < next && OnStep(next, Bin(q, w) + 1, w)
    ensures k <= Bin(q, w) && next == Climb(qcur, w, Bin(q, w) + 1 - k)
  {
    BinAtLeast(q, w, k);
    next := qcur;
    ghost var m := k;
    while next <= q
      invariant next == m as real * w && next - w <= q
      invariant k <= m && next == Climb(qcur, w, m - k)
      decreases Bin(q, w) - m
    {
      BinAtLeast(q, w, m);
      next := next + w;
      m := m + 1;
    }
    BinExactly(q, w, m);
  }

  /** c/(n0+1) for a whole rank c with lo < c <= hi: the probability given to the c-th sample. */
  predicate RankIn(q: real, n0: nat, lo: nat, hi: nat)
  {
    var c := q * (n0 as real + 1.0);
    c == c.Floor as real && lo < c.Floor <= hi
  }

  /** The probability of rank c among n0 samples is a rank, strictly between 0 and 1. */
  lemma RankOf(c: nat, n0: nat, lo: nat, hi: nat)
    requires lo < c <= hi <= n0
    ensures var q := c as real / (n0 as real + 1.0);
            RankIn(q, n0, lo, hi) && 0.0 < q < 1.0
  {
    var z := n0 as real + 1.0;
    var q := c as real / z;
    assert q * z == c as real;
    assert (c as real).Floor == c;
    DivBelowOne(c as real, z);
  }

  /** 0 < c < z gives 0 < c/z < 1. */
  lemma DivBelowOne(c: real, z: real)
    requires 0.0 < c < z
    ensures 0.0 < c / z < 1.0
  {
    DivBelow(c, z, 1.0);
    PositiveFactor(c / z, z);
  }

  /** v < s b with s > 0 gives v/s < b. */
  lemma DivBelow(v: real, s: real, b: real)
    requires s > 0.0 && v < s * b
    ensures v / s < b
  {
    assert (b - v / s) * s == b * s - v;
    PositiveFactor(b - v / s, s);
  }

  /** A larger rank has a larger probability. */
  lemma RankMonotone(c: nat, d: nat, z: real)
    requires z > 0.0 && c < d
    ensures c as real / z < d as real / z
  {
    assert d as real / z - c as real / z == (d - c) as real / z;
  }

  /** Increasing between neighbours is increasing throughout. */
  lemma {:induction false} NeighboursIncreasing(s: seq<real>)
    requires forall k :: 0 <= k < |s| - 1 ==> s[k] < s[k + 1]
    ensures StrictlyIncreasing(s)
    decreases |s|
  {
    if |s| > 1 {
      var t := s[..|s| - 1];
      NeighboursIncreasing(t);
      forall i, j | 0 <= i < j < |s|
        ensures s[i] < s[j]
      {
        if j < |s| - 1 {
          assert s[i] == t[i] && s[j] == t[j];
        } else if i < j - 1 {
          assert s[i] == t[i] && s[j - 1] == t[j - 1];
        }
      }
    }
  }

  /** The samples `sampled_cdf` reads once `ro` are dropped from each end. */
  function Kept(data: seq<real>): (d: seq<real>)
    ensures |data| > 0 ==> |d| > 0
  {
    var ro := Trimmed(|data|);
    data[ro .. |data| - ro]
  }

  /**
   * A knot of the sampled cdf: x a kept sample, probability a rank of the
   * whole sample strictly inside (0, 1).
   */
  predicate Knot(p: (real, real), data: seq<real>)
  {
    && p.0 in Kept(data) && 0.0 < p.1 < 1.0
    && RankIn(p.1, |data|, Trimmed(|data|), |data| - Trimmed(|data|))
  }

  /** A later knot lies to the right of and above an earlier one. */
  predicate Rises(p: (real, real), p': (real, real))
  {
    p.0 < p'.0 && p.1 < p'.1
  }

  /** A later knot's probability lies in a later quantile bin. */
  predicate NewBin(p: (real, real), p': (real, real), w: real)
    requires w > 0.0
  {
    Bin(p.1, w) < Bin(p'.1, w)
  }

  /** What the walk of `sampled_cdf` has emitted so far: rising knots, one per bin. */
  predicate Emitted(r: seq<(real, real)>, data: seq<real>, w: real)
    requires w > 0.0
  {
    && (forall k :: 0 <= k < |r| - 1 ==> Rises(r[k], r[k + 1]) && NewBin(r[k], r[k + 1], w))
    && (forall k :: 0 <= k < |r| ==> Knot(r[k], data))
  }

  /**
   * The knots `sampled_cdf` returns: rising, all knots of the sample, and
   * no two knots before the last in one quantile bin.
   */
  predicate Thinned(r: seq<(real, real)>, data: seq<real>, w: real)
    requires w > 0.0
  {
    && (forall k :: 0 <= k < |r| - 1 ==> Rises(r[k], r[k + 1]))
    && (forall k :: 0 <= k < |r| - 2 ==> NewBin(r[k], r[k + 1], w))
    && (forall k :: 0 <= k < |r| ==> Knot(r[k], data))
  }

  /** Emitting a knot that rises into a new bin keeps the walk's invariant. */
  lemma EmitInBin(r: seq<(real, real)>, p: (real, real), data: seq<real>, w: real)
    requires w > 0.0 && Emitted(r, data, w) && Knot(p, data)
    requires |r| > 0 ==> Rises(r[|r| - 1], p) && NewBin(r[|r| - 1], p, w)
    ensures Emitted(r + [p], data, w)
  {
    var r' := r + [p];
    forall k | 0 <= k < |r'| - 1
      ensures Rises(r'[k], r'[k + 1]) && NewBin(r'[k], r'[k + 1], w)
    {
      if k < |r| - 1 {
        assert r'[k] == r[k] && r'[k + 1] == r[k + 1];
      }
    }
  }

  /** Closing the walk with a rising final knot, whatever its bin. */
  lemma EmitLast(r: seq<(real, real)>, p: (real, real), data: seq<real>, w: real)
    requires w > 0.0 && Emitted(r, data, w) && Knot(p, data)
    requires |r| > 0 ==> Rises(r[|r| - 1], p)
    ensures Thinned(r + [p], data, w)
  {
    var r' := r + [p];
    forall k | 0 <= k < |r'| - 1
      ensures Rises(r'[k], r'[k + 1])
    {
      if k < |r| - 1 {
        assert r'[k] == r[k] && r'[k + 1] == r[k + 1];
      }
    }
    forall k | 0 <= k < |r'| - 2
      ensures NewBin(r'[k], r'[k + 1], w)
    {
      assert r'[k] == r[k] && r'[k + 1] == r[k + 1];
    }
  }

  /** The knot for rank c at the kept sample v. */
  lemma KnotOf(v: real, c: nat, data: seq<real>)
    requires v in Kept(data) && Trimmed(|data|) < c <= |data| - Trimmed(|data|)
    ensures Knot((v, c as real / (|data| as real + 1.0)), data)
  {
    RankOf(c, |data|, Trimmed(|data|), |data| - Trimmed(|data|));
  }

  /** The probability `c.to_f / z` of the walk's pass over the kept sample at i. */
  function PassRank(data: seq<real>, i: nat): real
  {
    (Trimmed(|data|) + i) as real / (|data| as real + 1.0)
  }

  /**
   * One pass of the walk of `sampled_cdf` over the kept sample at i, on the
   * state (knots, vcur, qcur): at a new value, the knot [vcur, c/(n0+1)] is
   * emitted exactly when that probability has reached qcur, and qcur moves
   * to the step after its bin.
   */
  function WalkStep(data: seq<real>, d: seq<real>, w: real, st: (seq<(real, real)>, real, real), i: nat)
    : (seq<(real, real)>, real, real)
    requires w > 0.0 && i < |d|
  {
    var q := PassRank(data, i);
    if d[i] == st.1 then st
    else if q >= st.2 then (st.0 + [(st.1, q)], d[i], (Bin(q, w) + 1) as real * w)
    else (st.0, d[i], st.2)
  }

  /** The walk's state before the kept sample at i, from no knots, the first value and cursor 0. */
  function WalkTo(data: seq<real>, d: seq<real>, w: real, i: nat): (seq<(real, real)>, real, real)
    requires w > 0.0 && 0 < |d| && i <= |d|
  {
    if i == 0 then ([], d[0], 0.0) else WalkStep(data, d, w, WalkTo(data, d, w, i - 1), i - 1)
  }

  /** `sampled_cdf(data)` as a function: the walk's knots, then the last value at the final rank. */
  function SampledCdfOf(data: seq<real>, w: real): seq<(real, real)>
    requires w > 0.0
  {
    if |data| < 1 then []
    else
      var st := WalkTo(data, Kept(data), w, |Kept(data)|);
      st.0 + [(st.1, (|data| - Trimmed(|data|)) as real / (|data| as real + 1.0))]
  }

  /** How many of the samples are at most x, counted independently of any order. */
  function CountAtMost(s: seq<real>, x: real): (n: nat)
    ensures n <= |s|
  {
    if |s| == 0 then 0 else CountAtMost(s[..|s| - 1], x) + (if s[|s| - 1] <= x then 1 else 0)
  }

  /** Samples split at c, the first c at most x and the rest above it, have c at most x. */
  lemma {:induction false} CountSplit(s: seq<real>, x: real, c: nat)
    requires c <= |s|
    requires forall j :: 0 <= j < c ==> s[j] <= x
    requires forall j :: c <= j < |s| ==> x < s[j]
    ensures CountAtMost(s, x) == c
  {
    if |s| > 0 {
      var s' := s[..|s| - 1];
      if c == |s| {
        CountSplit(s', x, c - 1);
      } else {
        CountSplit(s', x, c);
      }
    }
  }

  /** The knot p sits at the rank of its value: the samples at most p.0 over n0 + 1. */
  predicate Ranked(p: (real, real), data: seq<real>)
  {
    p.1 == CountAtMost(data, p.0) as real / (|data| as real + 1.0)
  }

  /** After i kept samples the walk's vcur is the last of them, and every knot it emitted is ranked. */
  lemma {:induction false} WalkRanked(data: seq<real>, w: real, i: nat)
    requires w > 0.0 && |data| > 0 && Sorted(data) && i <= |Kept(data)|
    ensures WalkTo(data, Kept(data), w, i).1 == Kept(data)[if i == 0 then 0 else i - 1]
    ensures var r := WalkTo(data, Kept(data), w, i).0;
            forall k :: 0 <= k < |r| ==> Ranked(r[k], data)
  {
    if i > 0 {
      var d := Kept(data);
      WalkRanked(data, w, i - 1);
      var st := WalkTo(data, d, w, i - 1);
      var c := Trimmed(|data|) + i - 1;
      if d[i - 1] != st.1 {
        assert i > 1 && st.1 == data[c - 1] && d[i - 1] == data[c];
        CountSplit(data, st.1, c);
      }
    }
  }

  /**
   * Every knot of `sampled_cdf` but the last sits at the rank of its value,
   * and so does the last when no samples are trimmed.
   */
  lemma SampledRanks(data: seq<real>, w: real)
    requires w > 0.0 && Sorted(data) && |data| > 0
    ensures var r := SampledCdfOf(data, w);
            && (forall k :: 0 <= k < |r| - 1 ==> Ranked(r[k], data))
            && (Trimmed(|data|) == 0 ==> Ranked(r[|r| - 1], data))
  {
    var d := Kept(data);
    WalkRanked(data, w, |d|);
    var r := SampledCdfOf(data, w);
    assert r[..|r| - 1] == WalkTo(data, d, w, |d|).0;
    if Trimmed(|data|) == 0 {
      CountSplit(data, data[|data| - 1], |data|);
    }
  }

  /** Three distinct samples, each a knot at its rank over 4. */
  lemma SampledThree()
    ensures SampledCdfOf([1.0, 2.0, 3.0], 0.05) == [(1.0, 0.25), (2.0, 0.5), (3.0, 0.75)]
  {
    var data := [1.0, 2.0, 3.0];
    assert Kept(data) == data;
    assert Trimmed(3) == 0 && PassRank(data, 1) == 0.25 && PassRank(data, 2) == 0.5;
    assert Bin(0.25, 0.05) == 5 && Bin(0.5, 0.05) == 10;
    StepPasses(data, data, 0.05, ([], 1.0, 0.0), 0, PassRank(data, 0));
    assert WalkTo(data, data, 0.05, 1) == ([], 1.0, 0.0);
    StepEmits(data, data, 0.05, ([], 1.0, 0.0), 1, 0.25);
    assert [] + [(1.0, 0.25)] == [(1.0, 0.25)];
    assert WalkTo(data, data, 0.05, 2) == WalkStep(data, data, 0.05, ([], 1.0, 0.0), 1);
    assert WalkTo(data, data, 0.05, 2) == ([(1.0, 0.25)], 2.0, 0.3);
    StepEmits(data, data, 0.05, ([(1.0, 0.25)], 2.0, 0.3), 2, 0.5);
    assert [(1.0, 0.25)] + [(2.0, 0.5)] == [(1.0, 0.25), (2.0, 0.5)];
    assert WalkTo(data, data, 0.05, 3) == WalkStep(data, data, 0.05, ([(1.0, 0.25)], 2.0, 0.3), 2);
    assert WalkTo(data, data, 0.05, 3) == ([(1.0, 0.25), (2.0, 0.5)], 3.0, 0.55);
  }

  /**
   * `sampled_cdf(data)` on sorted samples: drop `ro` from each end of more
   * than 100, then walk the rest with the rank counter c (from `ro`) and
   * emit [previous value, c/(n0+1)] where the value changes, if that
   * probability has reached the current quantile step; always emit the last
   * value with the final rank.
   */
  method SampledCdf(data: seq<real>, quantile: real) returns (r: seq<(real, real)>)
    requires Sorted(data) && quantile > 0.0
    ensures |data| == 0 ==> r == []
    ensures r == SampledCdfOf(data, quantile)
    ensures |data| > 0 ==> SampledFrom(r, data, quantile)
    ensures StrictlyIncreasing(Xs(r)) && StrictlyIncreasing(Ys(r))
  {
    r := [];
    if |data| < 1 {
      return;
    }
    var d := Kept(data);
    KeptSorted(data);
    var vcur;
    r, vcur := Walk(data, d, quantile);
    ClosedWalk(data, quantile, r, vcur);
    r := Close(data, quantile, r, vcur);
  }

  /** On nonempty samples SampledCdfOf is the walk's knots and the closing knot. */
  lemma ClosedWalk(data: seq<real>, w: real, r: seq<(real, real)>, vcur: real)
    requires w > 0.0 && |data| > 0
    requires r == WalkTo(data, Kept(data), w, |Kept(data)|).0 && vcur == WalkTo(data, Kept(data), w, |Kept(data)|).1
    ensures SampledCdfOf(data, w) == r + [(vcur, (|data| - Trimmed(|data|)) as real / (|data| as real + 1.0))]
  {
  }

  /**
   * The knots of `sampled_cdf` on nonempty samples: thinned as above, and
   * ending at the largest kept sample with the rank n0 - ro of n0 + 1.
   */
  predicate SampledFrom(r: seq<(real, real)>, data: seq<real>, w: real)
    requires w > 0.0 && |data| > 0
  {
    && |r| >= 1 && Thinned(r, data, w)
    && r[|r| - 1].0 == Kept(data)[|Kept(data)| - 1]
    && r[|r| - 1].1 == (|data| - Trimmed(|data|)) as real / (|data| as real + 1.0)
  }

  /** The final `r << [vcur, c/(n0+1)]` of `sampled_cdf`, with the last kept sample and rank. */
  function Close(data: seq<real>, w: real, r: seq<(real, real)>, vcur: real): (r': seq<(real, real)>)
    requires w > 0.0 && |data| > 0 && Emitted(r, data, w) && vcur == Kept(data)[|Kept(data)| - 1]
    requires |r| > 0 ==> && r[|r| - 1].0 < vcur
                         && r[|r| - 1].1 < (Trimmed(|data|) + |Kept(data)|) as real / (|data| as real + 1.0)
    ensures r' == r + [(vcur, (|data| - Trimmed(|data|)) as real / (|data| as real + 1.0))]
    ensures SampledFrom(r', data, w)
    ensures StrictlyIncreasing(Xs(r')) && StrictlyIncreasing(Ys(r'))
  {
    var c := |data| - Trimmed(|data|);
    assert c == Trimmed(|data|) + |Kept(data)|;
    var q := c as real / (|data| as real + 1.0);
    KnotOf(vcur, c, data);
    EmitLast(r, (vcur, q), data, w);
    Monotone(r + [(vcur, q)], data, w);
    r + [(vcur, q)]
  }

  /**
   * The state of the walk of `sampled_cdf` before the kept sample at
   * position i: vcur the value last seen, the rank counter at `ro` + i, qcur
   * the step after the last emitted knot's bin, and the knots so far below
   * vcur and below the current rank.
   */
  predicate Walking(data: seq<real>, w: real, r: seq<(real, real)>, vcur: real, qcur: real, i: nat)
    requires |data| > 0 && w > 0.0 && i <= |Kept(data)|
  {
    var z := |data| as real + 1.0;
    var c := Trimmed(|data|) + i;
    && vcur == Kept(data)[if i == 0 then 0 else i - 1]
    && (|r| == 0 ==> OnStep(qcur, 0, w))
    && (|r| > 0 ==> && r[|r| - 1].0 < vcur && r[|r| - 1].1 < c as real / z
                    && OnStep(qcur, Bin(r[|r| - 1].1, w) + 1, w))
    && Emitted(r, data, w)
  }

  /**
   * The walk of `sampled_cdf` over the kept samples, with the rank counter
   * from `ro`: the knots emitted before the final one, all below the last
   * kept sample and its final rank.
   */
  method Walk(data: seq<real>, d: seq<real>, quantile: real) returns (r: seq<(real, real)>, vcur: real)
    requires quantile > 0.0 && |data| > 0 && d == Kept(data) && Sorted(d)
    ensures r == WalkTo(data, d, quantile, |d|).0 && vcur == WalkTo(data, d, quantile, |d|).1
    ensures Emitted(r, data, quantile) && vcur == d[|d| - 1]
    ensures |r| > 0 ==> && r[|r| - 1].0 < vcur
                        && r[|r| - 1].1 < (Trimmed(|data|) + |d|) as real / (|data| as real + 1.0)
  {
    r := [];
    vcur := d[0];
    var qcur := 0.0;
    for i := 0 to |d|
      invariant Walking(data, quantile, r, vcur, qcur, i)
      invariant (r, vcur, qcur) == WalkTo(data, d, quantile, i)
    {
      r, vcur, qcur := Visit(data, d, quantile, r, vcur, qcur, i);
    }
    WalkDone(data, d, quantile, r, vcur, qcur);
  }

  /** The walk's state after the last kept sample gives what Walk promises. */
  lemma WalkDone(data: seq<real>, d: seq<real>, w: real, r: seq<(real, real)>, vcur: real, qcur: real)
    requires w > 0.0 && |data| > 0 && d == Kept(data) && Walking(data, w, r, vcur, qcur, |d|)
    ensures Emitted(r, data, w) && vcur == d[|d| - 1]
    ensures |r| > 0 ==> && r[|r| - 1].0 < vcur
                        && r[|r| - 1].1 < (Trimmed(|data|) + |d|) as real / (|data| as real + 1.0)
  {
  }

  /**
   * One pass of the walk: at a new value, emit [vcur, c/(n0+1)] if that has
   * reached qcur and move qcur past its bin; then take the new value.
   */
  method Visit(data: seq<real>, d: seq<real>, w: real, r: seq<(real, real)>, vcur: real, qcur: real, i: nat)
    returns (r': seq<(real, real)>, vcur': real, qcur': real)
    requires w > 0.0 && |data| > 0 && d == Kept(data) && Sorted(d) && i < |d|
    requires Walking(data, w, r, vcur, qcur, i)
    ensures Walking(data, w, r', vcur', qcur', i + 1)
    ensures (r', vcur', qcur') == WalkStep(data, d, w, (r, vcur, qcur), i)
    ensures (r, vcur, qcur) == WalkTo(data, d, w, i) ==> (r', vcur', qcur') == WalkTo(data, d, w, i + 1)
  {
    var q := (Trimmed(|data|) + i) as real / (|data| as real + 1.0);
    if d[i] != vcur && q >= qcur {
      ghost var k := if |r| == 0 then 0 else Bin(r[|r| - 1].1, w) + 1;
      qcur' := Advance(qcur, q, w, k);
      WalkEmits(data, d, w, r, vcur, qcur, i, qcur');
      r', vcur' := r + [(vcur, q)], d[i];
      StepEmits(data, d, w, (r, vcur, qcur), i, q);
    } else {
      WalkPasses(data, d, w, r, vcur, qcur, i);
      r', vcur', qcur' := r, d[i], qcur;
      StepPasses(data, d, w, (r, vcur, qcur), i, q);
    }
  }


  /** The pass of WalkStep at a new value whose probability q has reached the cursor. */
  lemma StepEmits(data: seq<real>, d: seq<real>, w: real, st: (seq<(real, real)>, real, real), i: nat, q: real)
    requires w > 0.0 && i < |d| && q == PassRank(data, i)
    requires d[i] != st.1 && q >= st.2
    ensures WalkStep(data, d, w, st, i) == (st.0 + [(st.1, q)], d[i], (Bin(q, w) + 1) as real * w)
  {
    var t := WalkStep(data, d, w, st, i);
    assert t.0 == st.0 + [(st.1, q)];
    assert t.1 == d[i];
    assert t.2 == (Bin(q, w) + 1) as real * w;
  }

  /** The pass of WalkStep that emits nothing. */
  lemma StepPasses(data: seq<real>, d: seq<real>, w: real, st: (seq<(real, real)>, real, real), i: nat, q: real)
    requires w > 0.0 && i < |d| && q == PassRank(data, i)
    requires !(d[i] != st.1 && q >= st.2)
    ensures WalkStep(data, d, w, st, i) == (st.0, d[i], st.2)
  {
  }

  /** A pass that emits nothing keeps the walk's state, with the sample at i as the value last seen. */
  lemma WalkPasses(data: seq<real>, d: seq<real>, w: real, r: seq<(real, real)>, vcur: real, qcur: real, i: nat)
    requires w > 0.0 && |data| > 0 && d == Kept(data) && Sorted(d) && i < |d|
    requires Walking(data, w, r, vcur, qcur, i)
    ensures Walking(data, w, r, d[i], qcur, i + 1)
  {
    var z := |data| as real + 1.0;
    var c := Trimmed(|data|) + i;
    RankMonotone(c, c + 1, z);
    assert vcur <= d[i];
  }

  /**
   * A pass that emits [vcur, c/(n0+1)] at a new value, with qcur reaching
   * that rank and qcur' the step after its bin, keeps the walk's state.
   */
  lemma WalkEmits(data: seq<real>, d: seq<real>, w: real, r: seq<(real, real)>, vcur: real, qcur: real, i: nat,
                  qcur': real)
    requires w > 0.0 && |data| > 0 && d == Kept(data) && Sorted(d) && i < |d|
    requires Walking(data, w, r, vcur, qcur, i) && d[i] != vcur
    requires var q := (Trimmed(|data|) + i) as real / (|data| as real + 1.0);
             q >= qcur && OnStep(qcur', Bin(q, w) + 1, w)
    ensures Walking(data, w, r + [(vcur, (Trimmed(|data|) + i) as real / (|data| as real + 1.0))], d[i], qcur', i + 1)
  {
    var z := |data| as real + 1.0;
    var c := Trimmed(|data|) + i;
    var q := c as real / z;
    EmitsRank(data, d, w, r, vcur, qcur, i);
    assert i > 0 && vcur == d[i - 1] <= d[i];
    RankMonotone(c, c + 1, z);
    WalkingAfterEmit(data, w, r + [(vcur, q)], d[i], qcur', i + 1);
  }

  /** The knot a pass emits is a knot of the sample in a new bin, so the knots stay emitted. */
  lemma EmitsRank(data: seq<real>, d: seq<real>, w: real, r: seq<(real, real)>, vcur: real, qcur: real, i: nat)
    requires w > 0.0 && |data| > 0 && d == Kept(data) && Sorted(d) && i < |d|
    requires Walking(data, w, r, vcur, qcur, i) && d[i] != vcur
    requires (Trimmed(|data|) + i) as real / (|data| as real + 1.0) >= qcur
    ensures Emitted(r + [(vcur, (Trimmed(|data|) + i) as real / (|data| as real + 1.0))], data, w)
  {
    var c := Trimmed(|data|) + i;
    var q := c as real / (|data| as real + 1.0);
    if |r| > 0 {
      var k := Bin(r[|r| - 1].1, w) + 1;
      assert OnStep(qcur, k, w);
      BinAtLeast(q, w, k);
    }
    KnotOf(vcur, c, data);
    EmitInBin(r, (vcur, q), data, w);
  }

  /** The walk's state from its parts, once the last knot is below the value and rank. */
  lemma WalkingAfterEmit(data: seq<real>, w: real, r: seq<(real, real)>, vcur: real, qcur: real, i: nat)
    requires |data| > 0 && w > 0.0 && 0 < i <= |Kept(data)| && |r| > 0
    requires vcur == Kept(data)[i - 1] && Emitted(r, data, w)
    requires r[|r| - 1].0 < vcur && r[|r| - 1].1 < (Trimmed(|data|) + i) as real / (|data| as real + 1.0)
    requires OnStep(qcur, Bin(r[|r| - 1].1, w) + 1, w)
    ensures Walking(data, w, r, vcur, qcur, i)
  {
  }

  /** Dropping the same count from both ends keeps the samples sorted. */
  lemma KeptSorted(data: seq<real>)
    requires Sorted(data)
    ensures Sorted(Kept(data))
  {
    var ro := Trimmed(|data|);
    var d := Kept(data);
    forall i, j | 0 <= i < j < |d|
      ensures d[i] <= d[j]
    {
      assert d[i] == data[ro + i] && d[j] == data[ro + j];
    }
  }

  /** Rising knots have strictly increasing x and probability columns. */
  lemma Monotone(r: seq<(real, real)>, data: seq<real>, w: real)
    requires w > 0.0 && Thinned(r, data, w)
    ensures StrictlyIncreasing(Xs(r)) && StrictlyIncreasing(Ys(r))
  {
    assert forall k :: 0 <= k < |r| - 1 ==> Rises(r[k], r[k + 1]);
    NeighboursIncreasing(Xs(r));
    NeighboursIncreasing(Ys(r));
  }
}
