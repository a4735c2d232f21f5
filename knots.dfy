/**
 * What the two spline classes of lib/capricious share: the dynamically typed
 * arguments they accept, `canonical` (knot data in any accepted shape),
 * the knot table `@h` written by `enter`, `@h.to_a.sort.transpose`, and the
 * binary search at the heart of `find`.
 */
module Knots {
  import opened Wrappers

  /** The Ruby values an argument can hold (NaN is not modelled). */
  datatype Value =
    | Nil
    | Bool(b: bool)
    | Int(i: int)
    | Float(f: real)
    | Infinity(negative: bool)
    | Str(s: string)
    | Arr(elems: seq<Value>)
    | Hash(pairs: seq<(Value, Value)>)

  /** Ruby truthiness: everything but `nil` and `false`. */
  predicate Truthy(v: Value)
  {
    !(v.Nil? || v == Bool(false))
  }

  /** `v.class <= Numeric` */
  predicate Numeric(v: Value)
  {
    v.Int? || v.Float? || v.Infinity?
  }

  /** No infinite Float anywhere inside v: knot coordinates are modelled as reals. */
  predicate Finite(v: Value)
  {
    match v
    case Infinity(_) => false
    case Arr(es) => forall i :: 0 <= i < |es| ==> Finite(es[i])
    case Hash(ps) => forall i :: 0 <= i < |ps| ==> Finite(ps[i].0) && Finite(ps[i].1)
    case _ => true
  }

  /**
   * `v.to_f` on a finite value: `nil.to_f` is 0.0, and a String is read as
   * text without a leading number (0.0). Arrays, hashes and booleans have no
   * `to_f`.
   */
  function ToF(v: Value): (r: Result<real>)
    requires !v.Infinity?
    ensures r.Ok? <==> (v.Nil? || v.Int? || v.Float? || v.Str?)
    ensures v.Float? ==> r == Ok(v.f)
    ensures v.Int? ==> r == Ok(v.i as real)
  {
    match v
    case Nil => Ok(0.0)
    case Int(i) => Ok(i as real)
    case Float(f) => Ok(f)
    case Str(_) => Ok(0.0)
    case _ => Err(NoMethodError)
  }

  /** `v.to_a`: nil gives [], a Hash its [key, value] pairs; scalars have no `to_a`. */
  function ToA(v: Value): (r: Option<seq<Value>>)
    ensures v.Arr? ==> r == Some(v.elems)
    ensures v.Hash? ==> r.Some? && |r.value| == |v.pairs|
  {
    match v
    case Nil => Some([])
    case Arr(es) => Some(es)
    case Hash(ps) => Some(seq(|ps|, i requires 0 <= i < |ps| => Arr([ps[i].0, ps[i].1])))
    case _ => None
  }

  /** The elements `to_a` gives a finite value are finite. */
  lemma ElementsFinite(v: Value)
    requires Finite(v) && ToA(v).Some?
    ensures forall i :: 0 <= i < |ToA(v).value| ==> Finite(ToA(v).value[i])
  {
    if v.Hash? {
      var d := ToA(v).value;
      forall i | 0 <= i < |d| ensures Finite(d[i]) {
        assert d[i] == Arr([v.pairs[i].0, v.pairs[i].1]);
      }
    }
  }

  /** `e.class <= Array and e.length == 2` */
  predicate IsPair(e: Value)
  {
    e.Arr? && |e.elems| == 2
  }

  /** `p.map { |e| e.to_f }` for each [x, y] row. */
  function ConvertRows(rows: seq<(Value, Value)>): (r: Result<seq<(real, real)>>)
    requires forall i :: 0 <= i < |rows| ==> !rows[i].0.Infinity? && !rows[i].1.Infinity?
    ensures r.Ok? <==> forall i :: 0 <= i < |rows| ==> ToF(rows[i].0).Ok? && ToF(rows[i].1).Ok?
    ensures r.Ok? ==> |r.value| == |rows| && forall i :: 0 <= i < |rows| ==>
              r.value[i] == (ToF(rows[i].0).value, ToF(rows[i].1).value)
  {
    if |rows| == 0 then Ok([])
    else
      var rest := ConvertRows(rows[1..]);
      if ToF(rows[0].0).Err? || ToF(rows[0].1).Err? || rest.Err? then Err(ArgumentError)
      else Ok([(ToF(rows[0].0).value, ToF(rows[0].1).value)] + rest.value)
  }

  /** The two entries of each pair in a list of pairs. */
  function Rows(d: seq<Value>): (r: seq<(Value, Value)>)
    requires forall i :: 0 <= i < |d| ==> IsPair(d[i])
    ensures |r| == |d| && forall i :: 0 <= i < |d| ==> IsPair(d[i]) && r[i] == (d[i].elems[0], d[i].elems[1])
  {
    seq(|d|, i requires 0 <= i < |d| && IsPair(d[i]) => (d[i].elems[0], d[i].elems[1]))
  }

  /**
   * `canonical(data)` of both spline classes: a list of [x, y] pairs, a single
   * [x, y] pair, or a Hash, each coordinate coerced with `to_f`; anything else
   * is an ArgumentError.
   */
  function Canonical(data: Value): (r: Result<seq<(real, real)>>)
    requires Finite(data)
    ensures r.Err? ==> r.error == ArgumentError
  {
    match ToA(data)
    case None => Err(ArgumentError)
    case Some(d) =>
      assert forall i :: 0 <= i < |d| ==> Finite(d[i]) by {
        if data.Hash? {
          forall i | 0 <= i < |d| ensures Finite(d[i]) {
            assert d[i] == Arr([data.pairs[i].0, data.pairs[i].1]);
          }
        }
      }
      assert forall i :: 0 <= i < |d| ==> !d[i].Infinity?;
      assert forall i :: 0 <= i < |d| && IsPair(d[i]) ==> !d[i].elems[0].Infinity? && !d[i].elems[1].Infinity?;
      if forall i :: 0 <= i < |d| ==> IsPair(d[i]) then ConvertRows(Rows(d))
      else if |d| == 2 then ConvertRows([(d[0], d[1])])
      else Err(ArgumentError)
  }

  /** A single [x, y] pair of numbers is one knot. */
  lemma CanonicalOfPair(x: real, y: real)
    ensures Canonical(Arr([Float(x), Float(y)])) == Ok([(x, y)])
  {
    var d := [Float(x), Float(y)];
    assert !IsPair(d[0]);
    var r := ConvertRows([(d[0], d[1])]);
    assert r.Ok?;
    assert r.value == [(x, y)];
  }

  /** A list of [x, y] pairs of numbers is those knots, in order. */
  lemma CanonicalOfPairs(ps: seq<(real, real)>)
    ensures Canonical(Arr(seq(|ps|, i requires 0 <= i < |ps| => Arr([Float(ps[i].0), Float(ps[i].1)])))) == Ok(ps)
  {
    var d := seq(|ps|, i requires 0 <= i < |ps| => Arr([Float(ps[i].0), Float(ps[i].1)]));
    assert forall i :: 0 <= i < |d| ==> IsPair(d[i]);
    var r := ConvertRows(Rows(d));
    assert r.Ok?;
    assert r.value == ps;
  }

  /** A Hash of numbers is its pairs, in insertion order. */
  lemma CanonicalOfHash(ps: seq<(real, real)>)
    ensures Canonical(Hash(seq(|ps|, i requires 0 <= i < |ps| => (Float(ps[i].0), Float(ps[i].1))))) == Ok(ps)
  {
    var hv := seq(|ps|, i requires 0 <= i < |ps| => (Float(ps[i].0), Float(ps[i].1)));
    var d := ToA(Hash(hv)).value;
    assert forall i :: 0 <= i < |d| ==> IsPair(d[i]);
    var r := ConvertRows(Rows(d));
    assert r.Ok?;
    assert r.value == ps;
  }

  /** A bare number is neither a pair nor a list of pairs. */
  lemma CanonicalRejectsScalar(x: real)
    ensures Canonical(Float(x)) == Err(ArgumentError)
  {
  }

  /** A list of three numbers has neither shape. */
  lemma CanonicalRejectsTriple(a: real, b: real, c: real)
    ensures Canonical(Arr([Float(a), Float(b), Float(c)])) == Err(ArgumentError)
  {
    assert !IsPair(Float(a));
  }

  // ---------------------------------------------------------------- knot table

  /** The value stored for x, if any. */
  function Lookup(h: seq<(real, real)>, x: real): (r: Option<real>)
    ensures r.Some? <==> exists i :: 0 <= i < |h| && h[i].0 == x
  {
    if |h| == 0 then None
    else if h[0].0 == x then Some(h[0].1)
    else
      var r := Lookup(h[1..], x);
      assert forall i :: 1 <= i < |h| ==> h[i] == h[1..][i - 1];
      r
  }

  /** Each x occurs at most once in the table. */
  predicate DistinctKeys(h: seq<(real, real)>)
  {
    forall i, j :: 0 <= i < j < |h| ==> h[i].0 != h[j].0
  }

  /**
   * `@h[x] = y` on a Ruby Hash: an existing key keeps its place and takes the
   * new value, a new key goes last.
   */
  function Store(h: seq<(real, real)>, x: real, y: real): (r: seq<(real, real)>)
    ensures Lookup(r, x) == Some(y)
    ensures forall k :: k != x ==> Lookup(r, k) == Lookup(h, k)
    ensures |r| == if Lookup(h, x).Some? then |h| else |h| + 1
  {
    if |h| == 0 then [(x, y)]
    else if h[0].0 == x then
      var r := [(x, y)] + h[1..];
      assert forall k :: k != x ==> Lookup(r, k) == Lookup(h[1..], k) == Lookup(h, k);
      r
    else
      var t := Store(h[1..], x, y);
      var r := [h[0]] + t;
      assert r[1..] == t;
      assert forall k :: k != h[0].0 ==> Lookup(r, k) == Lookup(t, k);
      r
  }

  /** Storing keeps every x at most once. */
  lemma {:induction false} StoreDistinct(h: seq<(real, real)>, x: real, y: real)
    requires DistinctKeys(h)
    ensures DistinctKeys(Store(h, x, y))
  {
    var r := Store(h, x, y);
    if |h| > 0 && h[0].0 == x {
      forall i | 1 <= i < |r| ensures r[i].0 != x {
        assert r[i] == h[i];
      }
    } else if |h| > 0 {
      var t := Store(h[1..], x, y);
      DistinctTail(h);
      StoreDistinct(h[1..], x, y);
      assert forall k :: 0 <= k < |h[1..]| ==> h[1..][k].0 == h[k + 1].0;
      assert Lookup(h[1..], h[0].0) == None;
      assert Lookup(t, h[0].0) == None;
      assert r == [h[0]] + t;
    }
  }

  /** `data.each { |x, y| @h[x] = y }` */
  function EnterAll(h: seq<(real, real)>, data: seq<(real, real)>): seq<(real, real)>
  {
    if |data| == 0 then h
    else Store(EnterAll(h, data[..|data| - 1]), data[|data| - 1].0, data[|data| - 1].1)
  }

  /** The last value the data gives x, if it mentions x at all. */
  function LastFor(data: seq<(real, real)>, x: real): Option<real>
  {
    if |data| == 0 then None
    else if data[|data| - 1].0 == x then Some(data[|data| - 1].1)
    else LastFor(data[..|data| - 1], x)
  }

  /**
   * Entering knots overwrites: afterwards x maps to the last y the data gives
   * it, and keeps its old value (or stays absent) when the data does not
   * mention it.
   */
  lemma {:induction false} EnterAllLookup(h: seq<(real, real)>, data: seq<(real, real)>, x: real)
    ensures Lookup(EnterAll(h, data), x) == if LastFor(data, x).Some? then LastFor(data, x) else Lookup(h, x)
  {
    if |data| > 0 {
      EnterAllLookup(h, data[..|data| - 1], x);
    }
  }

  /** In a table with distinct keys the last entry for x is the only one, so Lookup finds it. */
  lemma {:induction false} LastForLookup(h: seq<(real, real)>, x: real)
    requires DistinctKeys(h)
    ensures LastFor(h, x) == Lookup(h, x)
  {
    if |h| > 0 {
      var n := |h| - 1;
      var p := h[..n];
      if h[n].0 == x {
        LookupAt(h, n);
      } else {
        LastForLookup(p, x);
        if Lookup(p, x).Some? {
          var i :| 0 <= i < |p| && p[i].0 == x;
          LookupAt(p, i);
          LookupAt(h, i);
        } else {
          assert forall i :: 0 <= i < |h| ==> h[i].0 != x by {
            forall i | 0 <= i < |h| ensures h[i].0 != x {
              if i < n {
                assert p[i] == h[i];
              }
            }
          }
        }
      }
    }
  }

  /** Entering keeps every x at most once. */
  lemma {:induction false} EnterAllDistinct(h: seq<(real, real)>, data: seq<(real, real)>)
    requires DistinctKeys(h)
    ensures DistinctKeys(EnterAll(h, data))
  {
    if |data| > 0 {
      EnterAllDistinct(h, data[..|data| - 1]);
      StoreDistinct(EnterAll(h, data[..|data| - 1]), data[|data| - 1].0, data[|data| - 1].1);
    }
  }

  // ---------------------------------------------------- to_a.sort.transpose

  predicate StrictlyIncreasing(x: seq<real>)
  {
    forall i, j :: 0 <= i < j < |x| ==> x[i] < x[j]
  }

  /** The x of entry i. */
  function Key(s: seq<(real, real)>, i: int): real
    requires 0 <= i < |s|
  {
    s[i].0
  }

  predicate SortedByKey(s: seq<(real, real)>)
  {
    forall i, j :: 0 <= i < j < |s| ==> Key(s, i) < Key(s, j)
  }

  /** Insert p into a list sorted by x (whose keys differ from p's). */
  function InsertByKey(p: (real, real), s: seq<(real, real)>): (r: seq<(real, real)>)
    requires SortedByKey(s) && forall i :: 0 <= i < |s| ==> s[i].0 != p.0
    ensures SortedByKey(r) && multiset(r) == multiset(s) + multiset{p} && |r| == |s| + 1
  {
    if |s| == 0 || p.0 < s[0].0 then
      HeadBelow(s);
      ConsSorted(p, s);
      [p] + s
    else
      SortedTail(s);
      var t := InsertByKey(p, s[1..]);
      AboveHead(p, s, t);
      ConsSorted(s[0], t);
      assert s == [s[0]] + s[1..];
      [s[0]] + t
  }

  /** Every later key of a sorted list lies above its first. */
  lemma HeadBelow(s: seq<(real, real)>)
    requires SortedByKey(s)
    ensures forall i :: 0 < i < |s| ==> s[0].0 < s[i].0
  {
    forall i | 0 < i < |s| ensures s[0].0 < s[i].0 {
      assert Key(s, 0) < Key(s, i);
    }
  }

  /** A sorted list stays sorted without its head. */
  lemma SortedTail(s: seq<(real, real)>)
    requires SortedByKey(s) && |s| > 0
    ensures SortedByKey(s[1..])
  {
    forall i, j | 0 <= i < j < |s| - 1 ensures Key(s[1..], i) < Key(s[1..], j) {
      assert Key(s, i + 1) < Key(s, j + 1);
    }
  }

  /** A key below every key of a sorted list heads a sorted list. */
  lemma ConsSorted(a: (real, real), t: seq<(real, real)>)
    requires SortedByKey(t) && forall i :: 0 <= i < |t| ==> a.0 < t[i].0
    ensures SortedByKey([a] + t)
  {
    var r := [a] + t;
    forall i, j | 0 <= i < j < |r| ensures Key(r, i) < Key(r, j) {
      if i > 0 {
        assert Key(t, i - 1) < Key(t, j - 1);
      }
    }
  }

  /** What is inserted after the head of a sorted list lies above that head. */
  lemma AboveHead(p: (real, real), s: seq<(real, real)>, t: seq<(real, real)>)
    requires SortedByKey(s) && |s| > 0 && s[0].0 < p.0
    requires multiset(t) == multiset(s[1..]) + multiset{p}
    ensures forall i :: 0 <= i < |t| ==> s[0].0 < t[i].0
  {
    HeadBelow(s);
    forall i | 0 <= i < |t| ensures s[0].0 < t[i].0 {
      assert t[i] in multiset(t);
      if t[i] != p {
        assert t[i] in s[1..];
      }
    }
  }

  /**
   * `@h.to_a.sort`: Ruby compares [x, y] pairs by x first, and the keys of a
   * Hash differ, so this is the table ordered by x.
   */
  function SortByKey(h: seq<(real, real)>): (r: seq<(real, real)>)
    requires DistinctKeys(h)
    ensures |r| == |h|
    decreases |h|, 0
  {
    if |h| == 0 then []
    else
      DistinctTail(h);
      var t := SortByKey(h[1..]);
      SortByKeySorted(h[1..]);
      SortByKeyPermutes(h[1..]);
      HeadKeyFresh(h, t);
      InsertByKey(h[0], t)
  }

  /** The sorted table is ordered by x. */
  lemma {:induction false} SortByKeySorted(h: seq<(real, real)>)
    requires DistinctKeys(h)
    ensures SortedByKey(SortByKey(h))
    decreases |h|, 1
  {
    if |h| > 0 {
      DistinctTail(h);
      SortByKeySorted(h[1..]);
      SortByKeyPermutes(h[1..]);
      HeadKeyFresh(h, SortByKey(h[1..]));
    }
  }

  /** The sorted table is a rearrangement of the table. */
  lemma {:induction false} SortByKeyPermutes(h: seq<(real, real)>)
    requires DistinctKeys(h)
    ensures multiset(SortByKey(h)) == multiset(h)
    decreases |h|, 1
  {
    if |h| > 0 {
      DistinctTail(h);
      SortByKeyPermutes(h[1..]);
      assert h == [h[0]] + h[1..];
    }
  }

  /** Dropping the first entry keeps the keys distinct. */
  lemma DistinctTail(h: seq<(real, real)>)
    requires DistinctKeys(h) && |h| > 0
    ensures DistinctKeys(h[1..])
  {
    forall i, j | 0 <= i < j < |h[1..]| ensures h[1..][i].0 != h[1..][j].0 {
      assert h[1..][i] == h[i + 1] && h[1..][j] == h[j + 1];
    }
  }

  /** A rearrangement of the rest of a table does not contain its first key. */
  lemma HeadKeyFresh(h: seq<(real, real)>, t: seq<(real, real)>)
    requires DistinctKeys(h) && |h| > 0 && multiset(t) == multiset(h[1..])
    ensures forall i :: 0 <= i < |t| ==> t[i].0 != h[0].0
  {
    forall i | 0 <= i < |t| ensures t[i].0 != h[0].0 {
      assert t[i] in multiset(h[1..]);
      var k :| 0 <= k < |h[1..]| && h[1..][k] == t[i];
      assert h[k + 1] == t[i];
    }
  }

  /** The x column of a list of pairs. */
  function Xs(s: seq<(real, real)>): (r: seq<real>)
    ensures |r| == |s| && forall i :: 0 <= i < |s| ==> r[i] == s[i].0
  {
    seq(|s|, i requires 0 <= i < |s| => s[i].0)
  }

  /** The y column of a list of pairs. */
  function Ys(s: seq<(real, real)>): (r: seq<real>)
    ensures |r| == |s| && forall i :: 0 <= i < |s| ==> r[i] == s[i].1
  {
    seq(|s|, i requires 0 <= i < |s| => s[i].1)
  }

  /**
   * `@x, @y = @h.to_a.sort.transpose` on a non-empty table: x strictly
   * increasing, one entry per knot, and each y the value the table holds for
   * its x.
   */
  lemma SortedColumns(h: seq<(real, real)>)
    requires DistinctKeys(h)
    ensures var s := SortByKey(h);
            && StrictlyIncreasing(Xs(s)) && |Xs(s)| == |Ys(s)| == |h|
            && (forall i :: 0 <= i < |s| ==> Lookup(h, Xs(s)[i]) == Some(Ys(s)[i]))
            && (forall k :: Lookup(h, k).Some? ==> k in Xs(s))
  {
    var s := SortByKey(h);
    SortByKeySorted(h);
    SortByKeyPermutes(h);
    SortedXs(s);
    PermutedLookups(h, s);
    PermutedCovers(h, s);
  }

  /** Each entry of a rearrangement of a table with distinct keys is what Lookup finds for its x. */
  lemma PermutedLookups(h: seq<(real, real)>, s: seq<(real, real)>)
    requires DistinctKeys(h) && multiset(s) == multiset(h)
    ensures forall i :: 0 <= i < |s| ==> Lookup(h, s[i].0) == Some(s[i].1)
  {
    forall i | 0 <= i < |s| ensures Lookup(h, s[i].0) == Some(s[i].1) {
      assert s[i] in multiset(h);
      var k :| 0 <= k < |h| && h[k] == s[i];
      LookupAt(h, k);
    }
  }

  /** Every key a table holds is in the x column of a rearrangement of it. */
  lemma PermutedCovers(h: seq<(real, real)>, s: seq<(real, real)>)
    requires DistinctKeys(h) && multiset(s) == multiset(h)
    ensures forall k :: Lookup(h, k).Some? ==> k in Xs(s)
  {
    forall k | Lookup(h, k).Some? ensures k in Xs(s) {
      var j :| 0 <= j < |h| && h[j].0 == k;
      assert h[j] in multiset(s);
      var i :| 0 <= i < |s| && s[i] == h[j];
      assert Xs(s)[i] == k;
    }
  }


  /** The x column of a list sorted by x increases strictly. */
  lemma SortedXs(s: seq<(real, real)>)
    requires SortedByKey(s)
    ensures StrictlyIncreasing(Xs(s))
  {
    forall i, j | 0 <= i < j < |s| ensures Xs(s)[i] < Xs(s)[j] {
      assert Key(s, i) < Key(s, j);
    }
  }

  /** In a table with distinct keys, the entry at position k is what Lookup finds. */
  lemma {:induction false} LookupAt(h: seq<(real, real)>, k: nat)
    requires DistinctKeys(h) && k < |h|
    ensures Lookup(h, h[k].0) == Some(h[k].1)
  {
    if k > 0 {
      DistinctTail(h);
      LookupAt(h[1..], k - 1);
    }
  }

  // ------------------------------------------------------- ends of the table

  /** k is at or below every key of h. */
  ghost predicate LowerBound(h: seq<(real, real)>, k: real)
  {
    forall key :: Lookup(h, key).Some? ==> k <= key
  }

  /** k is at or above every key of h. */
  ghost predicate UpperBound(h: seq<(real, real)>, k: real)
  {
    forall key :: Lookup(h, key).Some? ==> key <= k
  }

  /** The first entry of the sorted table is a stored knot whose key is the least. */
  lemma FirstIsLeast(h: seq<(real, real)>)
    requires DistinctKeys(h) && |h| > 0
    ensures var s := SortByKey(h);
            |s| == |h| && Lookup(h, s[0].0) == Some(s[0].1) && LowerBound(h, s[0].0)
  {
    var s := SortByKey(h);
    SortedColumns(h);
    assert Xs(s)[0] == s[0].0 && Ys(s)[0] == s[0].1;
    forall key | Lookup(h, key).Some? ensures s[0].0 <= key {
      var i :| 0 <= i < |Xs(s)| && Xs(s)[i] == key;
      if i > 0 {
        assert Xs(s)[0] < Xs(s)[i];
      }
    }
  }

  /** The last entry of the sorted table is a stored knot whose key is the greatest. */
  lemma LastIsGreatest(h: seq<(real, real)>)
    requires DistinctKeys(h) && |h| > 0
    ensures var s := SortByKey(h);
            |s| == |h| && Lookup(h, s[|h| - 1].0) == Some(s[|h| - 1].1) && UpperBound(h, s[|h| - 1].0)
  {
    var s := SortByKey(h);
    SortedColumns(h);
    var n := |h| - 1;
    assert Xs(s)[n] == s[n].0 && Ys(s)[n] == s[n].1;
    forall key | Lookup(h, key).Some? ensures key <= s[n].0 {
      var i :| 0 <= i < |Xs(s)| && Xs(s)[i] == key;
      if i < n {
        assert Xs(s)[i] < Xs(s)[n];
      }
    }
  }

  /** A stored knot whose key is the least comes first once the table is sorted. */
  lemma LeastIsFirst(h: seq<(real, real)>, k: real, v: real)
    requires DistinctKeys(h) && Lookup(h, k) == Some(v) && LowerBound(h, k)
    ensures |h| > 0 && SortByKey(h)[0] == (k, v)
  {
    FirstIsLeast(h);
  }

  /** A stored knot whose key is the greatest comes last once the table is sorted. */
  lemma GreatestIsLast(h: seq<(real, real)>, k: real, v: real)
    requires DistinctKeys(h) && Lookup(h, k) == Some(v) && UpperBound(h, k)
    ensures |h| > 0 && SortByKey(h)[|h| - 1] == (k, v)
  {
    LastIsGreatest(h);
  }

  /** Storing a key below every key makes it the first knot and keeps the last one. */
  lemma StoreBelow(h: seq<(real, real)>, b: real, w: real)
    requires DistinctKeys(h) && LowerBound(h, b) && Lookup(h, b).None?
    ensures var r := Store(h, b, w);
            && DistinctKeys(r) && |r| == |h| + 1 && SortByKey(r)[0] == (b, w)
            && (|h| > 0 ==> SortByKey(r)[|r| - 1] == SortByKey(h)[|h| - 1])
  {
    var r := Store(h, b, w);
    StoreDistinct(h, b, w);
    LeastIsFirst(r, b, w);
    if |h| > 0 {
      LastIsGreatest(h);
      var last := SortByKey(h)[|h| - 1];
      GreatestIsLast(r, last.0, last.1);
    }
  }

  /** Storing a key above every key makes it the last knot and keeps the first one. */
  lemma StoreAbove(h: seq<(real, real)>, b: real, w: real)
    requires DistinctKeys(h) && UpperBound(h, b) && Lookup(h, b).None?
    ensures var r := Store(h, b, w);
            && DistinctKeys(r) && |r| == |h| + 1 && SortByKey(r)[|r| - 1] == (b, w)
            && (|h| > 0 ==> SortByKey(r)[0] == SortByKey(h)[0])
  {
    var r := Store(h, b, w);
    StoreDistinct(h, b, w);
    GreatestIsLast(r, b, w);
    if |h| > 0 {
      FirstIsLeast(h);
      var first := SortByKey(h)[0];
      LeastIsFirst(r, first.0, first.1);
    }
  }

  /** Knot columns a spline can be fitted to: at least two knots, x strictly increasing. */
  predicate Fit(x: seq<real>, y: seq<real>)
  {
    |x| >= 2 && |y| == |x| && StrictlyIncreasing(x)
  }

  /** The slope of the chord over interval j. */
  function Secant(x: seq<real>, y: seq<real>, j: nat): real
    requires Fit(x, y) && j + 1 < |x|
  {
    (y[j + 1] - y[j]) / (x[j + 1] - x[j])
  }

  /** Knot columns with one more column (gradients or second derivatives) aligned to them. */
  predicate Fitted(x: seq<real>, y: seq<real>, m: seq<real>)
  {
    Fit(x, y) && |m| == |x|
  }

  /** The sorted columns of a table with distinct keys are one entry per knot, x increasing. */
  lemma ColumnsFit(h: seq<(real, real)>)
    requires DistinctKeys(h)
    ensures |Xs(SortByKey(h))| == |Ys(SortByKey(h))| == |h|
    ensures StrictlyIncreasing(Xs(SortByKey(h)))
  {
    SortedColumns(h);
  }

  // ------------------------------------------------------------ binary search

  /**
   * The interval `find` settles on, scanning down from j: the largest index
   * i <= j that is 0 or whose knot is at or below pt.
   */
  function ScanDown(x: seq<real>, pt: real, j: nat): (i: nat)
    requires j < |x|
    ensures i <= j && (i == 0 || x[i] <= pt)
    ensures forall k :: i < k <= j ==> pt < x[k]
  {
    if j == 0 || x[j] <= pt then j else ScanDown(x, pt, j - 1)
  }

  /** The lower index of the bracketing interval: at most n-2. */
  function Locate(x: seq<real>, pt: real): (j: nat)
    requires |x| >= 2
    ensures j <= |x| - 2
  {
    ScanDown(x, pt, |x| - 2)
  }

  /**
   * The interval is pinned down by two facts: its lower knot is at or below pt
   * (or it is the first interval), and its upper knot is above pt (or it is
   * the last interval).
   */
  lemma LocateCharacterised(x: seq<real>, pt: real, j: nat)
    requires |x| >= 2 && StrictlyIncreasing(x) && j <= |x| - 2
    ensures j == Locate(x, pt) <==> (j == 0 || x[j] <= pt) && (j == |x| - 2 || pt < x[j + 1])
  {
    var l := Locate(x, pt);
    if j == l && j < |x| - 2 {
      assert pt < x[j + 1];
    }
  }

  /**
   * The jlo/jhi loop of `find`: halve [jlo, jhi] until the two are adjacent,
   * keeping the lower knot at or below x and the upper one above it.
   */
  method Bracket(x: seq<real>, pt: real) returns (jlo: nat, jhi: nat)
    requires |x| >= 2 && StrictlyIncreasing(x)
    ensures jhi == jlo + 1 && jhi <= |x| - 1
    ensures jlo == Locate(x, pt)
    ensures (jlo == 0 || x[jlo] <= pt) && (jhi == |x| - 1 || pt < x[jhi])
  {
    jlo, jhi := 0, |x| - 1;
    while jhi - jlo > 1
      invariant 0 <= jlo < jhi <= |x| - 1
      invariant jlo == 0 || x[jlo] <= pt
      invariant jhi == |x| - 1 || pt < x[jhi]
      decreases jhi - jlo
    {
      var j := (jlo + jhi) / 2;
      if x[j] > pt {
        jhi := j;
      } else {
        jlo := j;
      }
    }
    LocateCharacterised(x, pt, jlo);
  }

  /** Inside the domain, the interval found contains the point. */
  lemma LocateBrackets(x: seq<real>, pt: real)
    requires |x| >= 2 && StrictlyIncreasing(x) && x[0] <= pt <= x[|x| - 1]
    ensures var j := Locate(x, pt); x[j] <= pt <= x[j + 1]
  {
    var j := Locate(x, pt);
    LocateCharacterised(x, pt, j);
  }

  /** At a knot the interval found starts there, except at the last knot. */
  lemma LocateAtKnot(x: seq<real>, k: nat)
    requires |x| >= 2 && StrictlyIncreasing(x) && k < |x|
    ensures Locate(x, x[k]) == if k == |x| - 1 then k - 1 else k
  {
    var j := if k == |x| - 1 then k - 1 else k;
    LocateCharacterised(x, x[k], j);
  }
}
