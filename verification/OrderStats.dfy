/** Order statistics of the anomaly detector: sorting, the interpolated percentile and the median,
    how they move under affine maps, and how far a minority of outliers can drag them. */
module OrderStats {
  import opened Arithmetic

  ghost predicate IsSorted(s: seq<real>) {
    forall i, j :: 0 <= i <= j < |s| ==> s[i] <= s[j]
  }

  function Insert(x: real, s: seq<real>): (r: seq<real>)
    ensures |r| == |s| + 1
  {
    if s == [] then [x]
    else if x <= s[0] then [x] + s
    else [s[0]] + Insert(x, s[1..])
  }

  lemma {:induction false} InsertMultiset(x: real, s: seq<real>)
    ensures multiset(Insert(x, s)) == multiset(s) + multiset{x}
  {
    if s == [] || x <= s[0] {
      ConsMultiset(x, s);
    } else {
      var t := s[1..];
      InsertMultiset(x, t);
      InsertBehind(x, s);
      hide Insert;
      ConsMultiset(s[0], Insert(x, t));
      ConsMultiset(s[0], t);
    }
  }

  lemma {:induction false} InsertSorted(x: real, s: seq<real>)
    requires IsSorted(s)
    ensures IsSorted(Insert(x, s))
    ensures s != [] ==> Insert(x, s)[0] == if x <= s[0] then x else s[0]
  {
    if s != [] && x > s[0] {
      InsertSorted(x, s[1..]);
      Cons(s[0], Insert(x, s[1..]));
    } else if s != [] {
      Cons(x, s);
    }
  }

  lemma Cons(x: real, s: seq<real>)
    requires IsSorted(s) && (s == [] || x <= s[0])
    ensures IsSorted([x] + s)
  {
    forall i, j | 0 <= i <= j < |s| + 1 ensures ([x] + s)[i] <= ([x] + s)[j] {
      if i == 0 && j > 0 { assert s[0] <= s[j - 1]; }
    }
  }

  /** The library `sorted`. */
  function Sort(xs: seq<real>): (s: seq<real>)
    ensures |s| == |xs|
  {
    if xs == [] then [] else Insert(xs[0], Sort(xs[1..]))
  }

  lemma {:induction false} SortSorts(xs: seq<real>)
    ensures IsSorted(Sort(xs))
    ensures multiset(Sort(xs)) == multiset(xs)
  {
    if xs != [] {
      SortSorts(xs[1..]);
      InsertSorted(xs[0], Sort(xs[1..]));
      InsertMultiset(xs[0], Sort(xs[1..]));
      assert xs == [xs[0]] + xs[1..];
    }
  }

  lemma SortMembers(xs: seq<real>)
    ensures forall v :: v in Sort(xs) <==> v in xs
  {
    SortSorts(xs);
    assert forall v :: v in Sort(xs) <==> v in multiset(Sort(xs));
    assert forall v :: v in xs <==> v in multiset(xs);
  }

  lemma LeastFirst(s: seq<real>, v: real)
    requires IsSorted(s) && v in multiset(s)
    ensures s[0] <= v
  {
    assert v in s;
  }

  lemma TailMultiset(s: seq<real>)
    requires s != []
    ensures multiset(s[1..]) == multiset(s) - multiset{s[0]}
  {
    assert s == [s[0]] + s[1..];
  }

  /** A sorted sequence is determined by its multiset. */
  lemma {:induction false} SortedUnique(a: seq<real>, b: seq<real>)
    requires IsSorted(a) && IsSorted(b) && multiset(a) == multiset(b)
    ensures a == b
  {
    assert |a| == |multiset(a)| == |multiset(b)| == |b|;
    if a != [] {
      assert a[0] == b[0] by {
        assert a[0] in multiset(b) && b[0] in multiset(a);
        LeastFirst(a, b[0]);
        LeastFirst(b, a[0]);
      }
      TailMultiset(a);
      TailMultiset(b);
      SortedUnique(a[1..], b[1..]);
    }
  }

  function Reverse(s: seq<real>): (r: seq<real>)
    ensures |r| == |s| && forall i :: 0 <= i < |s| ==> r[i] == s[|s| - 1 - i]
  {
    seq(|s|, i requires 0 <= i < |s| => s[|s| - 1 - i])
  }

  lemma {:induction false} ReverseMultiset(s: seq<real>)
    ensures multiset(Reverse(s)) == multiset(s)
  {
    if s != [] {
      ReverseMultiset(s[1..]);
      assert Reverse(s) == Reverse(s[1..]) + [s[0]];
      assert s == [s[0]] + s[1..];
    }
  }

  function Map(f: real -> real, s: seq<real>): (r: seq<real>)
    ensures |r| == |s| && forall i :: 0 <= i < |s| ==> r[i] == f(s[i])
  {
    seq(|s|, i requires 0 <= i < |s| => f(s[i]))
  }

  lemma ConsMultiset(x: real, s: seq<real>)
    ensures multiset([x] + s) == multiset{x} + multiset(s)
  {
  }

  lemma MapCons(f: real -> real, x: real, s: seq<real>)
    ensures Map(f, [x] + s) == [f(x)] + Map(f, s)
  {
  }

  lemma {:induction false} MapInsertMultiset(f: real -> real, x: real, s: seq<real>)
    ensures multiset(Map(f, Insert(x, s))) == multiset(Map(f, s)) + multiset{f(x)}
  {
    if s == [] || x <= s[0] {
      assert Insert(x, s) == [x] + s;
      MapCons(f, x, s);
      ConsMultiset(f(x), Map(f, s));
    } else {
      var t := s[1..];
      MapInsertMultiset(f, x, t);
      InsertBehind(x, s);
      hide Insert, Map;
      MapCons(f, s[0], Insert(x, t));
      MapCons(f, s[0], t);
      ConsMultiset(f(s[0]), Map(f, Insert(x, t)));
      ConsMultiset(f(s[0]), Map(f, t));
    }
  }

  lemma InsertBehind(x: real, s: seq<real>)
    requires s != [] && x > s[0]
    ensures Insert(x, s) == [s[0]] + Insert(x, s[1..]) && s == [s[0]] + s[1..]
  {
  }

  lemma {:induction false} MapSortMultiset(f: real -> real, xs: seq<real>)
    ensures multiset(Map(f, Sort(xs))) == multiset(Map(f, xs))
  {
    if xs != [] {
      MapSortMultiset(f, xs[1..]);
      MapInsertMultiset(f, xs[0], Sort(xs[1..]));
      assert xs == [xs[0]] + xs[1..];
      hide Insert, Map;
      MapCons(f, xs[0], xs[1..]);
      ConsMultiset(f(xs[0]), Map(f, xs[1..]));
    }
  }

  ghost predicate Increasing(f: real -> real) {
    forall u: real, v: real :: u <= v ==> f(u) <= f(v)
  }

  ghost predicate Decreasing(f: real -> real) {
    forall u: real, v: real :: u <= v ==> f(v) <= f(u)
  }

  /** Sorting commutes with a monotone map, up to a reversal when the map reverses the order. */
  lemma SortMap(f: real -> real, xs: seq<real>)
    ensures Increasing(f) ==> Sort(Map(f, xs)) == Map(f, Sort(xs))
    ensures Decreasing(f) ==> Sort(Map(f, xs)) == Reverse(Map(f, Sort(xs)))
  {
    MapSortMultiset(f, xs);
    SortSorts(xs);
    SortSorts(Map(f, xs));
    if Increasing(f) { SortedUnique(Sort(Map(f, xs)), Map(f, Sort(xs))); }
    if Decreasing(f) {
      ReverseMultiset(Map(f, Sort(xs)));
      SortedUnique(Sort(Map(f, xs)), Reverse(Map(f, Sort(xs))));
    }
  }

  lemma ScaleOrder(a: real, u: real, v: real)
    requires u <= v
    ensures a >= 0.0 ==> a * u <= a * v
    ensures a <= 0.0 ==> a * v <= a * u
  {
    Distribute(a, v - u, u);
    if a >= 0.0 { ProductNonNegative(a, v - u); }
    if a <= 0.0 {
      ProductNonNegative(-a, v - u);
      Distribute(v - u, a, -a);
    }
  }

  // ---------------------------------------------------------------- interpolation

  /** The point a fraction f of the way from u to v. */
  function Between(u: real, v: real, f: real): real {
    u + (v - u) * f
  }

  /** Linear interpolation between the two neighbours of a fractional index. */
  function Interp(s: seq<real>, idx: real): real
    requires 0.0 <= idx <= (|s| - 1) as real
  {
    var lo := idx.Floor;
    var hi := if lo + 1 <= |s| - 1 then lo + 1 else |s| - 1;
    Between(s[lo], s[hi], idx - lo as real)
  }

  lemma BetweenSwap(u: real, v: real, f: real)
    ensures Between(v, u, 1.0 - f) == Between(u, v, f)
  {
    var d := v - u;
    Distribute(u - v, 1.0 - f, f);
    Distribute(f, u - v, d);
  }

  lemma BetweenInside(u: real, v: real, f: real)
    requires u <= v && 0.0 <= f <= 1.0
    ensures u <= Between(u, v, f) <= v
  {
    ProductNonNegative(v - u, f);
    ProductNonNegative(v - u, 1.0 - f);
    Distribute(v - u, 1.0 - f, f);
  }

  lemma BetweenFacts(u: real, v: real, f: real)
    ensures Between(u, v, 0.0) == u && Between(u, v, 1.0) == v && Between(u, u, f) == u
    ensures Between(v, u, 1.0 - f) == Between(u, v, f)
    ensures u <= v && 0.0 <= f <= 1.0 ==> u <= Between(u, v, f) <= v
  {
    BetweenSwap(u, v, f);
    if u <= v && 0.0 <= f <= 1.0 { BetweenInside(u, v, f); }
  }

  lemma BetweenMonotone(u: real, v: real, f: real, g: real)
    requires u <= v && f <= g
    ensures Between(u, v, f) <= Between(u, v, g)
  {
    ProductNonNegative(v - u, g - f);
    Distribute(v - u, g - f, f);
  }

  /** Maps that carry segments to segments. */
  ghost predicate Straight(f: real -> real) {
    forall u: real, v: real, t: real {:trigger f(Between(u, v, t))} :: f(Between(u, v, t)) == Between(f(u), f(v), t)
  }

  lemma BetweenFlat(u: real, v: real, f: real, g: real)
    requires f < g && Between(u, v, f) == Between(u, v, g)
    ensures u == v
  {
    Distribute(v - u, g - f, f);
    assert (v - u) * (g - f) == 0.0;
  }

  /** On [k, k+1], both ends included, interpolation runs along the segment from s[k] to s[k+1]. */
  lemma InterpOn(s: seq<real>, k: int, idx: real)
    requires 0 <= k < |s| - 1 && k as real <= idx <= (k + 1) as real
    ensures Interp(s, idx) == Between(s[k], s[k + 1], idx - k as real)
  {
    BetweenFacts(s[k], s[k + 1], 1.0);
    if idx < (k + 1) as real {
      assert idx.Floor == k;
    } else {
      assert idx.Floor == k + 1;
      var hi := if k + 2 <= |s| - 1 then k + 2 else |s| - 1;
      BetweenFacts(s[k + 1], s[hi], 0.0);
    }
  }

  /** The index as far from the end as idx is from the start. */
  function Mirror(n: nat, idx: real): (r: real)
    requires 0.0 <= idx <= (n - 1) as real
    ensures 0.0 <= r <= (n - 1) as real
  {
    (n - 1) as real - idx
  }

  lemma InterpReverse(s: seq<real>, idx: real)
    requires 0.0 <= idx <= (|s| - 1) as real
    ensures Interp(Reverse(s), Mirror(|s|, idx)) == Interp(s, idx)
  {
    var r := Reverse(s);
    if |s| > 1 {
      var k := if idx.Floor < |s| - 1 then idx.Floor else |s| - 2;
      InterpOn(s, k, idx);
      InterpOn(r, |s| - 2 - k, Mirror(|s|, idx));
      BetweenFacts(s[k], s[k + 1], idx - k as real);
    }
  }

  lemma InterpMap(f: real -> real, s: seq<real>, idx: real)
    requires Straight(f) && 0.0 <= idx <= (|s| - 1) as real
    ensures Interp(Map(f, s), idx) == f(Interp(s, idx))
  {
  }

  lemma InterpBetweenNeighbours(s: seq<real>, idx: real)
    requires IsSorted(s) && 0.0 <= idx <= (|s| - 1) as real
    ensures s[idx.Floor] <= Interp(s, idx)
    ensures idx.Floor + 1 < |s| ==> Interp(s, idx) <= s[idx.Floor + 1]
    ensures s[0] <= Interp(s, idx) <= s[|s| - 1]
  {
    var lo := idx.Floor;
    var hi := if lo + 1 <= |s| - 1 then lo + 1 else |s| - 1;
    BetweenFacts(s[lo], s[hi], idx - lo as real);
  }

  lemma InterpMonotone(s: seq<real>, i: real, j: real)
    requires IsSorted(s) && 0.0 <= i <= j <= (|s| - 1) as real
    ensures Interp(s, i) <= Interp(s, j)
  {
    if i.Floor == j.Floor {
      var lo := i.Floor;
      var hi := if lo + 1 <= |s| - 1 then lo + 1 else |s| - 1;
      BetweenMonotone(s[lo], s[hi], i - lo as real, j - lo as real);
    } else {
      assert i.Floor + 1 <= j.Floor < |s|;
      InterpBetweenNeighbours(s, i);
      InterpBetweenNeighbours(s, j);
    }
  }

  // ---------------------------------------------------------------- percentile and median

  /** The fractional index of the q-percentile in a sample of size n. */
  function Index(n: nat, q: real): (idx: real)
    requires n >= 1 && 0.0 <= q <= 1.0
    ensures 0.0 <= idx <= (n - 1) as real
  {
    Fraction(q, (n - 1) as real);
    Times(q, (n - 1) as real)
  }

  function Percentile(xs: seq<real>, q: real): real
    requires 0.0 <= q <= 1.0
  {
    if xs == [] then 0.0 else Interp(Sort(xs), Index(|xs|, q))
  }

  function Median(xs: seq<real>): real
    requires xs != []
  {
    var s := Sort(xs);
    var mid := |s| / 2;
    if |s| % 2 == 1 then s[mid] else (s[mid - 1] + s[mid]) / 2.0
  }

  lemma HalfIndex(n: nat)
    requires n >= 1
    ensures n % 2 == 1 ==> Index(n, 0.5) == (n / 2) as real
    ensures n % 2 == 0 ==> Index(n, 0.5) == (n / 2 - 1) as real + 0.5
  {
    assert n == 2 * (n / 2) + n % 2;
  }

  /** The middle of a sequence is its interpolation at half its last index. */
  lemma InterpMiddle(s: seq<real>)
    requires s != []
    ensures Interp(s, Index(|s|, 0.5)) == if |s| % 2 == 1 then s[|s| / 2] else (s[|s| / 2 - 1] + s[|s| / 2]) / 2.0
  {
    var k, idx := |s| / 2, Index(|s|, 0.5);
    HalfIndex(|s|);
    if |s| % 2 == 1 {
      BetweenFacts(s[k], s[if k + 1 <= |s| - 1 then k + 1 else |s| - 1], 0.0);
    } else {
      InterpOn(s, k - 1, idx);
    }
  }

  /** The two estimators of the middle agree. */
  lemma MedianIsPercentile(xs: seq<real>)
    requires xs != []
    ensures Median(xs) == Percentile(xs, 0.5)
  {
    InterpMiddle(Sort(xs));
  }

  /** Median and percentiles on any non-decreasing arrangement s of the sample: the middle one or the mean of
      the two middle ones; and, where q of the way from first to last falls t beyond number k, the value t of
      the way from s[k] to s[k+1]. */
  lemma MedianOf(xs: seq<real>, s: seq<real>)
    requires xs != [] && IsSorted(s) && multiset(s) == multiset(xs)
    ensures |s| == |xs| && Median(xs) == if |s| % 2 == 1 then s[|s| / 2] else (s[|s| / 2 - 1] + s[|s| / 2]) / 2.0
  {
    SortIs(xs, s);
  }

  lemma PercentileOf(xs: seq<real>, s: seq<real>, q: real, k: nat, t: real)
    requires xs != [] && IsSorted(s) && multiset(s) == multiset(xs) && 0.0 <= q <= 1.0
    requires 0.0 <= t < 1.0 && Times(q, (|xs| - 1) as real) == k as real + t
    ensures |s| == |xs| && k < |s| && (t > 0.0 ==> k + 1 < |s|)
    ensures Percentile(xs, q) == if t == 0.0 then s[k] else Between(s[k], s[k + 1], t)
  {
    SortIs(xs, s);
    IndexAt(|xs|, q, k, t);
    hide IsSorted, Sort, Index, Interp, Times, Between;
    if t > 0.0 { InterpWithin(s, k, t); } else { InterpAt(s, k); }
  }

  lemma SortIs(xs: seq<real>, s: seq<real>)
    requires IsSorted(s) && multiset(s) == multiset(xs)
    ensures Sort(xs) == s
  {
    SortSorts(xs);
    SortedUnique(Sort(xs), s);
  }

  lemma IndexAt(n: nat, q: real, k: nat, t: real)
    requires n >= 1 && 0.0 <= q <= 1.0 && 0.0 <= t < 1.0 && Times(q, (n - 1) as real) == k as real + t
    ensures Index(n, q) == k as real + t && k < n && (t > 0.0 ==> k + 1 < n)
  {
    Fraction(q, (n - 1) as real);
  }

  lemma InterpWithin(s: seq<real>, k: nat, t: real)
    requires k + 1 < |s| && 0.0 <= t < 1.0
    ensures Interp(s, k as real + t) == Between(s[k], s[k + 1], t)
  {
    InterpOn(s, k, k as real + t);
  }

  lemma InterpAt(s: seq<real>, k: nat)
    requires k < |s|
    ensures Interp(s, k as real) == s[k]
  {
    BetweenFacts(s[k], s[if k + 1 <= |s| - 1 then k + 1 else |s| - 1], 0.0);
  }

  lemma IndexMonotone(n: nat, p: real, q: real)
    requires n >= 1 && 0.0 <= p <= q <= 1.0
    ensures Index(n, p) <= Index(n, q)
  {
    hide Times;
    TimesMonotone(p, q, (n - 1) as real);
  }

  /** Percentiles are monotone in q. */
  lemma PercentileMonotone(xs: seq<real>, p: real, q: real)
    requires xs != [] && 0.0 <= p <= q <= 1.0
    ensures Percentile(xs, p) <= Percentile(xs, q)
  {
    hide Index, Interp;
    SortSorts(xs);
    IndexMonotone(|xs|, p, q);
    InterpMonotone(Sort(xs), Index(|xs|, p), Index(|xs|, q));
  }

  /** The fence quartiles enclose the median. */
  lemma QuartilesEncloseMedian(xs: seq<real>)
    requires xs != []
    ensures Percentile(xs, 0.25) <= Median(xs) <= Percentile(xs, 0.75)
  {
    MedianIsPercentile(xs);
    PercentileMonotone(xs, 0.25, 0.5);
    PercentileMonotone(xs, 0.5, 0.75);
  }

  /** Percentiles stay within any bounds of the sample. */
  lemma PercentileInRange(xs: seq<real>, q: real, lo: real, hi: real)
    requires xs != [] && 0.0 <= q <= 1.0
    requires forall x :: x in xs ==> lo <= x <= hi
    ensures lo <= Percentile(xs, q) <= hi
  {
    var s := Sort(xs);
    SortMembers(xs);
    SortSorts(xs);
    InterpBetweenNeighbours(s, Index(|xs|, q));
    assert s[0] in s && s[|s| - 1] in s;
  }

  lemma MedianInRange(xs: seq<real>, lo: real, hi: real)
    requires xs != []
    requires forall x :: x in xs ==> lo <= x <= hi
    ensures lo <= Median(xs) <= hi
  {
    MedianIsPercentile(xs);
    PercentileInRange(xs, 0.5, lo, hi);
  }

  lemma IndexReflects(n: nat, q: real)
    requires n >= 1 && 0.0 <= q <= 1.0
    ensures Index(n, 1.0 - q) == Mirror(n, Index(n, q))
  {
    hide Times;
    TimesComplement(q, (n - 1) as real);
  }

  /** A straight map carries the q-percentile to the q-percentile, or to the (1-q)-percentile when it
      reverses the order. */
  lemma PercentileIncreasing(f: real -> real, xs: seq<real>, q: real)
    requires Straight(f) && Increasing(f) && xs != [] && 0.0 <= q <= 1.0
    ensures Percentile(Map(f, xs), q) == f(Percentile(xs, q))
  {
    SortMap(f, xs);
    InterpMap(f, Sort(xs), Index(|xs|, q));
  }

  lemma InterpReversedMap(f: real -> real, s: seq<real>, idx: real)
    requires Straight(f) && 0.0 <= idx <= (|s| - 1) as real
    ensures Interp(Reverse(Map(f, s)), Mirror(|s|, idx)) == f(Interp(s, idx))
  {
    InterpReverse(Map(f, s), idx);
    InterpMap(f, s, idx);
  }

  lemma PercentileDecreasing(f: real -> real, xs: seq<real>, q: real)
    requires Straight(f) && Decreasing(f) && xs != [] && 0.0 <= q <= 1.0
    ensures Percentile(Map(f, xs), 1.0 - q) == f(Percentile(xs, q))
  {
    SortMap(f, xs);
    IndexReflects(|xs|, q);
    InterpReversedMap(f, Sort(xs), Index(|xs|, q));
  }

  lemma MedianMap(f: real -> real, xs: seq<real>)
    requires Straight(f) && (Increasing(f) || Decreasing(f)) && xs != []
    ensures Median(Map(f, xs)) == f(Median(xs))
  {
    MedianIsPercentile(xs);
    MedianIsPercentile(Map(f, xs));
    if Increasing(f) { PercentileIncreasing(f, xs, 0.5); } else { PercentileDecreasing(f, xs, 0.5); }
  }

  // ---------------------------------------------------------------- affine maps

  /** The map x -> a*x + b. */
  function Line(a: real, b: real): real -> real {
    x => a * x + b
  }

  lemma LineBetween(a: real, b: real, u: real, v: real, t: real)
    ensures Line(a, b)(Between(u, v, t)) == Between(Line(a, b)(u), Line(a, b)(v), t)
  {
    var d := v - u;
    assert (a * v + b) - (a * u + b) == a * d;
    assert a * d * t == a * (d * t);
    assert a * (u + d * t) == a * u + a * (d * t);
  }

  lemma LineStraight(a: real, b: real)
    ensures Straight(Line(a, b))
  {
    hide Line, Between;
    forall u: real, v: real, t: real
      ensures Line(a, b)(Between(u, v, t)) == Between(Line(a, b)(u), Line(a, b)(v), t)
    {
      LineBetween(a, b, u, v, t);
    }
  }

  lemma LineOrder(a: real, b: real, u: real, v: real)
    requires u <= v
    ensures a >= 0.0 ==> Line(a, b)(u) <= Line(a, b)(v)
    ensures a <= 0.0 ==> Line(a, b)(v) <= Line(a, b)(u)
  {
    ScaleOrder(a, u, v);
  }

  lemma LineMonotone(a: real, b: real)
    ensures a >= 0.0 ==> Increasing(Line(a, b))
    ensures a <= 0.0 ==> Decreasing(Line(a, b))
  {
    hide Line;
    forall u: real, v: real | u <= v
      ensures a >= 0.0 ==> Line(a, b)(u) <= Line(a, b)(v)
      ensures a <= 0.0 ==> Line(a, b)(v) <= Line(a, b)(u)
    {
      LineOrder(a, b, u, v);
    }
  }

  lemma MedianAffine(a: real, b: real, xs: seq<real>)
    requires xs != []
    ensures Median(Map(Line(a, b), xs)) == Line(a, b)(Median(xs))
  {
    LineStraight(a, b);
    LineMonotone(a, b);
    MedianMap(Line(a, b), xs);
  }

  /** The sample of a rescaled metric has the rescaled quartiles; a negative scale swaps them. */
  lemma PercentileAffine(a: real, b: real, xs: seq<real>, q: real)
    requires xs != [] && 0.0 <= q <= 1.0
    ensures Percentile(Map(Line(a, b), xs), if a >= 0.0 then q else 1.0 - q) == Line(a, b)(Percentile(xs, q))
  {
    LineStraight(a, b);
    LineMonotone(a, b);
    if a >= 0.0 { PercentileIncreasing(Line(a, b), xs, q); } else { PercentileDecreasing(Line(a, b), xs, q); }
  }

  // ---------------------------------------------------------------- median absolute deviation

  function Abs(x: real): real { if x < 0.0 then -x else x }

  function Deviations(xs: seq<real>, m: real): (r: seq<real>)
    ensures |r| == |xs| && forall i :: 0 <= i < |xs| ==> r[i] == Abs(xs[i] - m)
  {
    seq(|xs|, i requires 0 <= i < |xs| => Abs(xs[i] - m))
  }

  lemma MedianNonNegative(xs: seq<real>)
    requires xs != [] && forall i :: 0 <= i < |xs| ==> xs[i] >= 0.0
    ensures Median(xs) >= 0.0
  {
    SortMembers(xs);
    var s := Sort(xs);
    forall k | 0 <= k < |s| ensures s[k] >= 0.0 { assert s[k] in s; }
  }

  function Mad(xs: seq<real>): (d: real)
    requires xs != []
    ensures d >= 0.0
  {
    MedianNonNegative(Deviations(xs, Median(xs)));
    Median(Deviations(xs, Median(xs)))
  }

  lemma AbsProduct(a: real, u: real)
    ensures Abs(a * u) == Abs(a) * Abs(u)
  {
  }

  lemma LineDifference(a: real, b: real, u: real, v: real)
    ensures Abs(Line(a, b)(u) - Line(a, b)(v)) == Line(Abs(a), 0.0)(Abs(u - v))
  {
    AbsProduct(a, u - v);
    assert a * (u - v) == a * u - a * v;
  }

  lemma DeviationsAffine(a: real, b: real, xs: seq<real>, m: real)
    ensures Deviations(Map(Line(a, b), xs), Line(a, b)(m)) == Map(Line(Abs(a), 0.0), Deviations(xs, m))
  {
    var ds, es := Deviations(xs, m), Deviations(Map(Line(a, b), xs), Line(a, b)(m));
    forall i | 0 <= i < |xs| ensures es[i] == Line(Abs(a), 0.0)(ds[i]) { LineDifference(a, b, xs[i], m); }
  }

  lemma MadAffine(a: real, b: real, xs: seq<real>)
    requires xs != []
    ensures Mad(Map(Line(a, b), xs)) == Line(Abs(a), 0.0)(Mad(xs))
  {
    MedianAffine(a, b, xs);
    DeviationsAffine(a, b, xs, Median(xs));
    MedianAffine(Abs(a), 0.0, Deviations(xs, Median(xs)));
  }

  // ---------------------------------------------------------------- breakdown point

  function CountIn(xs: seq<real>, lo: real, hi: real): (n: nat)
    ensures n <= |xs|
  {
    if xs == [] then 0 else (if lo <= xs[0] <= hi then 1 else 0) + CountIn(xs[1..], lo, hi)
  }

  lemma {:induction false} CountInInsert(x: real, s: seq<real>, lo: real, hi: real)
    ensures CountIn(Insert(x, s), lo, hi) == CountIn([x], lo, hi) + CountIn(s, lo, hi)
  {
    if s == [] {
    } else if x <= s[0] {
      assert ([x] + s)[1..] == s;
    } else {
      CountInInsert(x, s[1..], lo, hi);
      assert ([s[0]] + Insert(x, s[1..]))[1..] == Insert(x, s[1..]);
    }
  }

  lemma {:induction false} CountInSort(xs: seq<real>, lo: real, hi: real)
    ensures CountIn(Sort(xs), lo, hi) == CountIn(xs, lo, hi)
  {
    if xs != [] {
      CountInSort(xs[1..], lo, hi);
      CountInInsert(xs[0], Sort(xs[1..]), lo, hi);
    }
  }

  lemma {:induction false} CountInConcat(a: seq<real>, b: seq<real>, lo: real, hi: real)
    ensures CountIn(a + b, lo, hi) == CountIn(a, lo, hi) + CountIn(b, lo, hi)
  {
    if a == [] {
      assert a + b == b;
    } else {
      assert (a + b)[1..] == a[1..] + b;
      CountInConcat(a[1..], b, lo, hi);
    }
  }

  lemma CountInSplit(s: seq<real>, k: nat, lo: real, hi: real)
    requires k <= |s|
    ensures CountIn(s, lo, hi) == CountIn(s[..k], lo, hi) + CountIn(s[k..], lo, hi)
  {
    hide CountIn;
    assert s == s[..k] + s[k..];
    CountInConcat(s[..k], s[k..], lo, hi);
  }

  lemma {:induction false} CountInNone(s: seq<real>, lo: real, hi: real)
    requires forall i :: 0 <= i < |s| ==> !(lo <= s[i] <= hi)
    ensures CountIn(s, lo, hi) == 0
  {
    if s != [] { CountInNone(s[1..], lo, hi); }
  }

  lemma {:induction false} CountInAll(s: seq<real>, lo: real, hi: real)
    requires forall i :: 0 <= i < |s| ==> lo <= s[i] <= hi
    ensures CountIn(s, lo, hi) == |s|
  {
    if s != [] { CountInAll(s[1..], lo, hi); }
  }

  /** In a sorted sequence the values inside an interval leave room for whatever lies outside it. */
  lemma SortedRank(s: seq<real>, k: int, lo: real, hi: real)
    requires IsSorted(s) && 0 <= k < |s|
    ensures s[k] < lo ==> CountIn(s, lo, hi) <= |s| - k - 1
    ensures s[k] > hi ==> CountIn(s, lo, hi) <= k
  {
    hide CountIn;
    if s[k] < lo {
      CountInSplit(s, k + 1, lo, hi);
      CountInNone(s[..k + 1], lo, hi);
    }
    if s[k] > hi {
      CountInSplit(s, k, lo, hi);
      CountInNone(s[k..], lo, hi);
    }
  }

  /** A strict majority inside [lo, hi] holds the median there, whatever the rest is. */
  lemma MedianBreakdown(xs: seq<real>, lo: real, hi: real)
    requires 2 * CountIn(xs, lo, hi) > |xs|
    ensures lo <= Median(xs) <= hi
  {
    var s := Sort(xs);
    var mid := |s| / 2;
    CountInSort(xs, lo, hi);
    SortSorts(xs);
    SortedRank(s, mid, lo, hi);
    if |s| % 2 == 0 { SortedRank(s, mid - 1, lo, hi); }
  }

  lemma {:induction false} CountDeviations(xs: seq<real>, m: real, lo: real, hi: real)
    requires lo <= m <= hi
    ensures CountIn(Deviations(xs, m), 0.0, hi - lo) >= CountIn(xs, lo, hi)
  {
    if xs != [] {
      CountDeviations(xs[1..], m, lo, hi);
      assert Deviations(xs, m)[1..] == Deviations(xs[1..], m);
    }
  }

  lemma MadAtMost(xs: seq<real>, w: real)
    requires xs != [] && 2 * CountIn(Deviations(xs, Median(xs)), 0.0, w) > |xs|
    ensures Mad(xs) <= w
  {
    MedianBreakdown(Deviations(xs, Median(xs)), 0.0, w);
  }

  /** ... and then the MAD cannot exceed the width of that interval. */
  lemma MadBreakdown(xs: seq<real>, lo: real, hi: real)
    requires 2 * CountIn(xs, lo, hi) > |xs|
    ensures Mad(xs) <= hi - lo
  {
    hide Median, Mad, CountIn, Deviations;
    MedianBreakdown(xs, lo, hi);
    CountDeviations(xs, Median(xs), lo, hi);
    MadAtMost(xs, hi - lo);
  }

  // ---------------------------------------------------------------- IQR = 0 implies MAD = 0

  /** A flat stretch of an increasing interpolation is flat on every piece it covers. */
  lemma FlatPiece(s: seq<real>, i: real, j: real, k: int, f: real, g: real)
    requires IsSorted(s) && 0.0 <= i <= f < g <= j <= (|s| - 1) as real
    requires 0 <= k < |s| - 1 && k as real <= f && g <= (k + 1) as real
    ensures Interp(s, i) == Interp(s, j) ==> s[k] == s[k + 1] == Interp(s, i)
  {
    InterpMonotone(s, i, f);
    InterpMonotone(s, f, g);
    InterpMonotone(s, g, j);
    InterpOn(s, k, f);
    InterpOn(s, k, g);
    if Interp(s, i) == Interp(s, j) {
      BetweenFlat(s[k], s[k + 1], f - k as real, g - k as real);
      BetweenFacts(s[k], s[k + 1], f - k as real);
    }
  }

  /** If interpolation takes the same value at i < j, every sample touched in between equals it. */
  lemma FlatInterp(s: seq<real>, i: real, j: real, k: int)
    requires IsSorted(s) && 0.0 <= i < j <= (|s| - 1) as real
    requires i.Floor <= k < |s| && (k - 1) as real < j
    ensures Interp(s, i) == Interp(s, j) ==> s[k] == Interp(s, i)
  {
    if k <= i.Floor + 1 {
      var lo := i.Floor;
      FlatPiece(s, i, j, lo, i, if (lo + 1) as real <= j then (lo + 1) as real else j);
    } else {
      FlatPiece(s, i, j, k - 1, (k - 1) as real, if k as real <= j then k as real else j);
    }
  }

  /** The indices touched by the quartiles are a strict majority. */
  lemma QuartileSpan(n: int) returns (a: int, b: int)
    requires n >= 2
    ensures 0 <= a <= b <= n - 1 && 2 * (b - a + 1) > n
    ensures a == Index(n, 0.25).Floor && (b - 1) as real < Index(n, 0.75)
  {
    a := (n - 1) / 4;
    b := (3 * (n - 1) + 3) / 4;
    assert Index(n, 0.25) == (n - 1) as real / 4.0;
    assert Index(n, 0.75) == (3 * (n - 1)) as real / 4.0;
  }

  lemma CountMiddle(s: seq<real>, a: int, b: int, m: real)
    requires 0 <= a <= b < |s| && forall k :: a <= k <= b ==> s[k] == m
    ensures CountIn(s, m, m) >= b - a + 1
  {
    var t := s[a..b + 1];
    assert s == s[..a] + (t + s[b + 1..]);
    CountInConcat(s[..a], t + s[b + 1..], m, m);
    CountInConcat(t, s[b + 1..], m, m);
    CountInAll(t, m, m);
  }

  /** The z-test never scores a history on which the Tukey fence is off: IQR = 0 forces MAD = 0. */
  lemma ZeroIqrZeroMad(xs: seq<real>)
    requires xs != []
    requires Percentile(xs, 0.75) - Percentile(xs, 0.25) == 0.0
    ensures Mad(xs) == 0.0
  {
    var s, m := Sort(xs), Percentile(xs, 0.25);
    CountInSort(xs, m, m);
    SortSorts(xs);
    if |xs| > 1 {
      var a, b := QuartileSpan(|xs|);
      forall k | a <= k <= b ensures s[k] == m { FlatInterp(s, Index(|xs|, 0.25), Index(|xs|, 0.75), k); }
      CountMiddle(s, a, b, m);
    } else {
      BetweenFacts(s[0], s[0], 0.0);
      CountMiddle(s, 0, 0, m);
    }
    MadBreakdown(xs, m, m);
  }
}
