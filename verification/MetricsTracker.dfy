/** Rolling request metrics of a model service: a ring buffer of the latest requests, lifetime counters,
    and nearest-rank latency percentiles over the window. */
module Metrics {
  import opened Arithmetic
  import opened OrderStats
  import opened Rounding
  import opened Windows

  datatype Sample = Sample(latency: real, confidence: real, isError: bool)

  // ---------------------------------------------------------------- nearest rank

  function Ceil(x: real): (c: int)
    ensures x <= c as real < x + 1.0
  {
    -((-x).Floor)
  }

  /** The rank ceil(q*n). */
  function Rank(n: nat, q: real): (k: nat)
    requires n > 0 && 0.0 <= q <= 1.0
    ensures k <= n && (q > 0.0 ==> k >= 1)
  {
    RankRange(n as real, q);
    Ceil(Times(q, n as real))
  }

  lemma RankRange(n: real, q: real)
    requires n > 0.0 && 0.0 <= q <= 1.0
    ensures 0.0 <= Times(q, n) <= n && (q > 0.0 ==> Times(q, n) > 0.0)
  {
    Fraction(q, n);
    if q > 0.0 && q * n == 0.0 { Cancel(q, n); }
  }

  function NearestRankIndex(n: nat, q: real): (k: nat)
    requires n > 0 && 0.0 <= q <= 1.0
    ensures k < n
  {
    var c := Rank(n, q) - 1;
    if c > 0 then c else 0
  }

  function NearestRank(sorted: seq<real>, q: real): real
    requires 0.0 <= q <= 1.0
  {
    if sorted == [] then 0.0 else sorted[NearestRankIndex(|sorted|, q)]
  }

  function CountAtMost(s: seq<real>, v: real): nat {
    if s == [] then 0 else (if s[0] <= v then 1 else 0) + CountAtMost(s[1..], v)
  }

  function CountAtLeast(s: seq<real>, v: real): nat {
    if s == [] then 0 else (if s[0] >= v then 1 else 0) + CountAtLeast(s[1..], v)
  }

  lemma {:induction false} CountPrefix(s: seq<real>, k: nat, v: real)
    requires k <= |s|
    ensures (forall i :: 0 <= i < k ==> s[i] <= v) ==> CountAtMost(s, v) >= k
    ensures (forall i :: k <= i < |s| ==> s[i] >= v) ==> CountAtLeast(s, v) >= |s| - k
  {
    if s != [] {
      if k > 0 { CountPrefix(s[1..], k - 1, v); } else { CountPrefix(s[1..], 0, v); }
    }
  }

  /** The nearest-rank percentile is a value of the sample with at least ceil(q*n) values at or below it
      and at least n - ceil(q*n) + 1 at or above it. */
  lemma NearestRankIsRank(sorted: seq<real>, q: real)
    requires IsSorted(sorted) && sorted != [] && 0.0 < q <= 1.0
    ensures NearestRank(sorted, q) in sorted
    ensures CountAtMost(sorted, NearestRank(sorted, q)) >= Rank(|sorted|, q)
    ensures CountAtLeast(sorted, NearestRank(sorted, q)) >= |sorted| - Rank(|sorted|, q) + 1
  {
    hide Rank, CountAtMost, CountAtLeast;
    var k := Rank(|sorted|, q) - 1;
    CountPrefix(sorted, k + 1, sorted[k]);
    CountPrefix(sorted, k, sorted[k]);
  }

  lemma RankMonotone(n: nat, p: real, q: real)
    requires n > 0 && 0.0 <= p <= q <= 1.0
    ensures Rank(n, p) <= Rank(n, q)
  {
    hide Times;
    TimesMonotone(p, q, n as real);
  }

  lemma NearestRankMonotone(sorted: seq<real>, p: real, q: real)
    requires IsSorted(sorted) && 0.0 <= p <= q <= 1.0
    ensures NearestRank(sorted, p) <= NearestRank(sorted, q)
  {
    if sorted != [] { RankMonotone(|sorted|, p, q); }
  }

  // ---------------------------------------------------------------- the snapshot

  function ErrorCount(s: seq<Sample>): (n: nat)
    ensures n <= |s|
  {
    if s == [] then 0 else ErrorCount(s[..|s| - 1]) + (if s[|s| - 1].isError then 1 else 0)
  }

  function Successes(s: seq<Sample>): (r: seq<Sample>)
    ensures |r| == |s| - ErrorCount(s)
    ensures forall x :: x in r ==> x in s && !x.isError
  {
    if s == [] then []
    else Successes(s[..|s| - 1]) + (if s[|s| - 1].isError then [] else [s[|s| - 1]])
  }

  /** Latency statistics use the successes, or every sample when nothing succeeded. */
  function LatencySource(s: seq<Sample>): (r: seq<Sample>)
    ensures s != [] ==> r != []
    ensures forall x :: x in r ==> x in s
  {
    if Successes(s) != [] then Successes(s) else s
  }

  function Latencies(s: seq<Sample>): (r: seq<real>)
    ensures |r| == |s| && forall i :: 0 <= i < |s| ==> r[i] == s[i].latency
  {
    seq(|s|, i requires 0 <= i < |s| => s[i].latency)
  }

  function Confidences(s: seq<Sample>): (r: seq<real>)
    ensures |r| == |s| && forall i :: 0 <= i < |s| ==> r[i] == s[i].confidence
  {
    seq(|s|, i requires 0 <= i < |s| => s[i].confidence)
  }

  function Total(xs: seq<real>): real {
    if xs == [] then 0.0 else Total(xs[..|xs| - 1]) + xs[|xs| - 1]
  }

  function Mean(xs: seq<real>): real {
    if xs == [] then 0.0 else Total(xs) / |xs| as real
  }

  datatype Snapshot = Snapshot(
    requestCount: nat, errorCount: nat, errorRate: real, avgLatency: real,
    p50: real, p95: real, p99: real, avgConfidence: real,
    lifetimeRequests: nat, lifetimeErrors: nat)

  function SnapshotOf(window: seq<Sample>, requests: nat, errors: nat): Snapshot {
    var latencies := Sort(Latencies(LatencySource(window)));
    Snapshot(|window|, ErrorCount(window),
             Round(if window == [] then 0.0 else ErrorCount(window) as real / |window| as real, 1000000.0),
             Round(Mean(latencies), 1000.0),
             Round(NearestRank(latencies, 0.50), 1000.0),
             Round(NearestRank(latencies, 0.95), 1000.0),
             Round(NearestRank(latencies, 0.99), 1000.0),
             Round(Mean(Confidences(Successes(window))), 1000000.0),
             requests, errors)
  }

  /** The reported latency percentiles are ordered, on every window. */
  lemma PercentilesOrdered(window: seq<Sample>, requests: nat, errors: nat)
    ensures var s := SnapshotOf(window, requests, errors); s.p50 <= s.p95 <= s.p99
  {
    hide NearestRank, Round, Sort, Latencies, Mean;
    var l := Sort(Latencies(LatencySource(window)));
    SortSorts(Latencies(LatencySource(window)));
    NearestRankMonotone(l, 0.50, 0.95);
    NearestRankMonotone(l, 0.95, 0.99);
    RoundMonotone(NearestRank(l, 0.50), NearestRank(l, 0.95), 1000.0);
    RoundMonotone(NearestRank(l, 0.95), NearestRank(l, 0.99), 1000.0);
  }

  /** A non-empty window never reports a percentile below its fastest request or above its slowest, even
      when every request failed: failures are not reported as 0. */
  lemma PercentileWithinWindow(window: seq<Sample>, q: real, lo: real, hi: real)
    requires window != [] && 0.0 <= q <= 1.0
    requires forall s :: s in window ==> lo <= s.latency <= hi
    ensures lo <= NearestRank(Sort(Latencies(LatencySource(window))), q) <= hi
  {
    hide NearestRankIndex, Sort, LatencySource;
    var l := Latencies(LatencySource(window));
    SortMembers(l);
    var r := NearestRank(Sort(l), q);
    assert r in Sort(l);
    assert r in l;
    var i :| 0 <= i < |l| && l[i] == r;
    assert LatencySource(window)[i] in LatencySource(window);
  }

  lemma {:induction false} TotalInRange(xs: seq<real>, lo: real, hi: real)
    requires forall i :: 0 <= i < |xs| ==> lo <= xs[i] <= hi
    ensures lo * |xs| as real <= Total(xs) <= hi * |xs| as real
  {
    if xs != [] {
      var n := |xs| - 1;
      TotalInRange(xs[..n], lo, hi);
      Distribute(lo, n as real, 1.0);
      Distribute(hi, n as real, 1.0);
      assert |xs| as real == n as real + 1.0;
    }
  }

  lemma MeanInRange(xs: seq<real>, lo: real, hi: real)
    requires xs != [] && forall i :: 0 <= i < |xs| ==> lo <= xs[i] <= hi
    ensures lo <= Mean(xs) <= hi
  {
    hide Total;
    var n := |xs| as real;
    TotalInRange(xs, lo, hi);
    QuotientMonotone(lo * n, Total(xs), n);
    QuotientMonotone(Total(xs), hi * n, n);
    Cancel(lo, n);
    Cancel(hi, n);
  }

  /** Nor does its average leave the range of its latencies. */
  lemma AverageWithinWindow(window: seq<Sample>, lo: real, hi: real)
    requires window != [] && forall s :: s in window ==> lo <= s.latency <= hi
    ensures lo <= Mean(Sort(Latencies(LatencySource(window)))) <= hi
  {
    hide Mean, Sort, LatencySource;
    var l := Latencies(LatencySource(window));
    SortMembers(l);
    forall i | 0 <= i < |l| ensures lo <= l[i] <= hi { assert LatencySource(window)[i] in LatencySource(window); }
    forall i | 0 <= i < |l| ensures lo <= Sort(l)[i] <= hi { assert Sort(l)[i] in Sort(l); assert Sort(l)[i] in l; }
    MeanInRange(Sort(l), lo, hi);
  }

  // ---------------------------------------------------------------- what a snapshot tells

  /** The positions of the failures. */
  function Failed(s: seq<Sample>): set<int> {
    set i | 0 <= i < |s| && s[i].isError
  }

  lemma ErrorCountSnoc(s: seq<Sample>, x: Sample)
    ensures ErrorCount(s + [x]) == ErrorCount(s) + if x.isError then 1 else 0
  {
    assert (s + [x])[..|s|] == s;
  }

  lemma SuccessesSnoc(s: seq<Sample>, x: Sample)
    ensures Successes(s + [x]) == Successes(s) + if x.isError then [] else [x]
  {
    assert (s + [x])[..|s|] == s;
  }

  lemma FailedSnoc(s: seq<Sample>, x: Sample)
    ensures Failed(s + [x]) == Failed(s) + if x.isError then {|s|} else {}
    ensures |s| !in Failed(s)
  {
  }

  lemma {:induction false} ErrorsAreFailures(s: seq<Sample>)
    ensures ErrorCount(s) == |Failed(s)|
  {
    if s != [] {
      var most, n := s[..|s| - 1], |s| - 1;
      ErrorsAreFailures(most);
      assert s == most + [s[n]];
      hide ErrorCount, Failed;
      ErrorCountSnoc(most, s[n]);
      FailedSnoc(most, s[n]);
    }
  }

  lemma SuccessesOne(x: Sample)
    ensures Successes([]) == [] && Successes([x]) == if x.isError then [] else [x]
  {
    SuccessesSnoc([], x);
    assert [] + [x] == [x];
  }

  /** The successes, in order: those of a concatenation are those of its parts. */
  lemma {:induction false} SuccessesOf(a: seq<Sample>, b: seq<Sample>, x: Sample)
    ensures Successes(a + b) == Successes(a) + Successes(b)
    ensures Successes([x]) == if x.isError then [] else [x]
    decreases |b|
  {
    SuccessesOne(x);
    hide *;
    if b == [] {
      assert a + b == a;
    } else {
      var most, y := b[..|b| - 1], b[|b| - 1];
      SuccessesOf(a, most, x);
      SuccessesLonger(a, most, y);
      assert b == most + [y];
    }
  }

  lemma SuccessesLonger(a: seq<Sample>, most: seq<Sample>, y: Sample)
    requires Successes(a + most) == Successes(a) + Successes(most)
    ensures Successes(a + (most + [y])) == Successes(a) + Successes(most + [y])
  {
    hide *;
    SuccessesSnoc(a + most, y);
    SuccessesSnoc(most, y);
    assert a + (most + [y]) == a + most + [y];
  }

  /** Latency statistics are over the successes if there are any, and over every request otherwise. */
  lemma LatencySourceIs(s: seq<Sample>)
    ensures |Failed(s)| < |s| ==> LatencySource(s) == Successes(s)
    ensures |Failed(s)| == |s| ==> LatencySource(s) == s
  {
    ErrorsAreFailures(s);
  }

  lemma {:induction false} TotalOf(a: seq<real>, b: seq<real>, x: real)
    ensures Total(a + b) == Total(a) + Total(b) && Total([x]) == x
    decreases |b|
  {
    assert Total([x]) == Total([x][..0]) + x;
    if b == [] {
      assert a + b == a;
    } else {
      TotalOf(a, b[..|b| - 1], x);
      assert (a + b)[..|a + b| - 1] == a + b[..|b| - 1];
    }
  }

  lemma {:induction false} TotalInsert(x: real, s: seq<real>)
    ensures Total(Insert(x, s)) == x + Total(s)
  {
    if s == [] || x <= s[0] {
      assert Insert(x, s) == [x] + s;
      TotalOf([x], s, x);
    } else {
      TotalInsert(x, s[1..]);
      InsertBehind(x, s);
      TotalOf([s[0]], Insert(x, s[1..]), s[0]);
      TotalOf([s[0]], s[1..], s[0]);
    }
  }

  lemma {:induction false} TotalSort(xs: seq<real>)
    ensures Total(Sort(xs)) == Total(xs)
  {
    if xs != [] {
      TotalSort(xs[1..]);
      TotalInsert(xs[0], Sort(xs[1..]));
      TotalOf([xs[0]], xs[1..], xs[0]);
      assert xs == [xs[0]] + xs[1..];
    }
  }

  lemma {:induction false} CountsInsert(x: real, s: seq<real>, v: real)
    ensures CountAtMost(Insert(x, s), v) == CountAtMost(s, v) + if x <= v then 1 else 0
    ensures CountAtLeast(Insert(x, s), v) == CountAtLeast(s, v) + if x >= v then 1 else 0
  {
    if s == [] || x <= s[0] {
      assert Insert(x, s) == [x] + s && ([x] + s)[1..] == s;
    } else {
      CountsInsert(x, s[1..], v);
      InsertBehind(x, s);
      assert ([s[0]] + Insert(x, s[1..]))[1..] == Insert(x, s[1..]);
    }
  }

  lemma {:induction false} CountsSort(xs: seq<real>, v: real)
    ensures CountAtMost(Sort(xs), v) == CountAtMost(xs, v)
    ensures CountAtLeast(Sort(xs), v) == CountAtLeast(xs, v)
  {
    if xs != [] {
      CountsSort(xs[1..], v);
      CountsInsert(xs[0], Sort(xs[1..]), v);
    }
  }

  predicate Near(x: real, y: real, slack: real) { y - slack <= x <= y + slack }

  /** v is a value of the sample with q of it at or below and the rest of it at or above. */
  ghost predicate AtRank(v: real, l: seq<real>, q: real) {
    v in l && CountAtMost(l, v) as real >= q * |l| as real && CountAtLeast(l, v) as real > (1.0 - q) * |l| as real
  }

  ghost predicate NearRank(r: real, l: seq<real>, q: real) {
    exists v: real :: AtRank(v, l, q) && Near(r, v, 0.0005)
  }

  /** What the fields of a snapshot say about the window. */
  ghost predicate Tells(r: Snapshot, window: seq<Sample>) {
    var l, c := Latencies(LatencySource(window)), Confidences(Successes(window));
    r.requestCount == |window| && r.errorCount == |Failed(window)| &&
    (r.errorCount == 0 ==> r.errorRate == 0.0) &&
    (r.errorCount > 0 ==> Near(r.errorRate, r.errorCount as real / r.requestCount as real, 0.0000005)) &&
    (r.errorCount > 0 && r.errorCount == r.requestCount ==> r.errorRate == 1.0) &&
    (window == [] ==> r.avgLatency == r.p50 == r.p95 == r.p99 == 0.0) &&
    (window != [] ==>
       Near(r.avgLatency, Total(l) / |l| as real, 0.0005) &&
       NearRank(r.p50, l, 0.50) && NearRank(r.p95, l, 0.95) && NearRank(r.p99, l, 0.99)) &&
    (c == [] ==> r.avgConfidence == 0.0) &&
    (c != [] ==> Near(r.avgConfidence, Total(c) / |c| as real, 0.0000005))
  }

  lemma RankAtRank(l: seq<real>, q: real)
    requires l != [] && 0.0 < q <= 1.0
    ensures AtRank(NearestRank(Sort(l), q), l, q)
  {
    var s, v := Sort(l), NearestRank(Sort(l), q);
    SortSorts(l);
    SortMembers(l);
    NearestRankIsRank(s, q);
    CountsSort(l, v);
    assert Rank(|l|, q) as real >= Times(q, |l| as real) > Rank(|l|, q) as real - 1.0;
    Distribute(|l| as real, 1.0 - q, q);
  }

  lemma PercentileTells(l: seq<real>, q: real)
    requires l != [] && 0.0 < q <= 1.0
    ensures NearRank(Round(NearestRank(Sort(l), q), 1000.0), l, q)
  {
    hide Round, NearestRank, AtRank, Sort;
    RankAtRank(l, q);
    RoundNear(NearestRank(Sort(l), q), 1000.0);
  }

  lemma AverageTells(l: seq<real>)
    requires l != []
    ensures Near(Round(Mean(Sort(l)), 1000.0), Total(l) / |l| as real, 0.0005)
  {
    TotalSort(l);
    assert Mean(Sort(l)) == Total(l) / |l| as real;
    hide *;
    RoundNear(Mean(Sort(l)), 1000.0);
    assert 0.5 / 1000.0 == 0.0005;
    NearIs(Round(Mean(Sort(l)), 1000.0), Mean(Sort(l)), 0.0005);
  }

  lemma NearIs(x: real, y: real, slack: real)
    ensures Near(x, y, slack) <==> y - slack <= x <= y + slack
  {
  }

  lemma ErrorRateTells(errors: nat, requests: nat)
    requires errors <= requests && requests > 0
    ensures var r := Round(errors as real / requests as real, 1000000.0);
            Near(r, errors as real / requests as real, 0.0000005) && (errors == 0 ==> r == 0.0) &&
            (errors == requests ==> r == 1.0)
  {
    hide Round;
    RoundNear(errors as real / requests as real, 1000000.0);
    RoundExact(0.0, 1000000.0, 0);
    RoundExact(1.0, 1000000.0, 1000000);
    Cancel(1.0, requests as real);
  }

  /** Every field of a snapshot, on every window. */
  lemma SnapshotTells(window: seq<Sample>, requests: nat, errors: nat)
    ensures Tells(SnapshotOf(window, requests, errors), window)
    ensures SnapshotOf(window, requests, errors).lifetimeRequests == requests
    ensures SnapshotOf(window, requests, errors).lifetimeErrors == errors
  {
    hide Round, NearestRank, Sort, Total, NearRank, Latencies, Confidences, LatencySource, Successes;
    var l, c := Latencies(LatencySource(window)), Confidences(Successes(window));
    ErrorsAreFailures(window);
    RoundExact(0.0, 1000.0, 0);
    RoundExact(0.0, 1000000.0, 0);
    if window == [] {
      NothingTells(window);
    } else {
      ErrorRateTells(ErrorCount(window), |window|);
      assert l != [] by { assert |l| == |LatencySource(window)|; }
      PercentileTells(l, 0.50);
      PercentileTells(l, 0.95);
      PercentileTells(l, 0.99);
      AverageTells(l);
    }
    if c != [] { RoundNear(Mean(c), 1000000.0); }
  }

  lemma NothingTells(window: seq<Sample>)
    requires window == []
    ensures var l := Sort(Latencies(LatencySource(window)));
            l == [] && NearestRank(l, 0.50) == NearestRank(l, 0.95) == NearestRank(l, 0.99) == Mean(l) == 0.0
  {
  }

  /** Average and percentiles lie, up to rounding, within any bounds of the latencies they are over, and the
      average confidence within those of the successes. */
  lemma SnapshotInRange(window: seq<Sample>, requests: nat, errors: nat, lo: real, hi: real)
    requires window != []
    ensures var r := SnapshotOf(window, requests, errors);
            ((forall s :: s in LatencySource(window) ==> lo <= s.latency <= hi) ==>
               lo - 0.0005 <= r.avgLatency <= hi + 0.0005 && lo - 0.0005 <= r.p50 <= r.p95 <= r.p99 <= hi + 0.0005) &&
            (Successes(window) != [] ==>
               (forall s :: s in Successes(window) ==> lo <= s.confidence <= hi) ==>
                 lo - 0.0000005 <= r.avgConfidence <= hi + 0.0000005)
  {
    hide Round, NearestRank, Sort, Total, Mean, LatencySource, Successes, Latencies;
    SnapshotTells(window, requests, errors);
    PercentilesOrdered(window, requests, errors);
    if forall s :: s in LatencySource(window) ==> lo <= s.latency <= hi {
      LatenciesInRange(window, requests, errors, lo, hi);
    }
    if Successes(window) != [] && forall s :: s in Successes(window) ==> lo <= s.confidence <= hi {
      ConfidencesInRange(window, requests, errors, lo, hi);
    }
  }

  lemma LatenciesInRange(window: seq<Sample>, requests: nat, errors: nat, lo: real, hi: real)
    requires window != [] && forall s :: s in LatencySource(window) ==> lo <= s.latency <= hi
    ensures var r := SnapshotOf(window, requests, errors);
            lo - 0.0005 <= r.avgLatency <= hi + 0.0005 && lo - 0.0005 <= r.p50 && r.p99 <= hi + 0.0005
  {
    hide Round, NearestRank, Sort, Total, LatencySource, Successes, Confidences;
    var l, r := Latencies(LatencySource(window)), SnapshotOf(window, requests, errors);
    SnapshotTells(window, requests, errors);
    assert forall i :: 0 <= i < |l| ==> LatencySource(window)[i] in LatencySource(window);
    MeanInRange(l, lo, hi);
    var v: real :| AtRank(v, l, 0.50) && Near(r.p50, v, 0.0005);
    var w: real :| AtRank(w, l, 0.99) && Near(r.p99, w, 0.0005);
    assert v in l && w in l;
  }

  lemma ConfidencesInRange(window: seq<Sample>, requests: nat, errors: nat, lo: real, hi: real)
    requires window != [] && Successes(window) != [] && forall s :: s in Successes(window) ==> lo <= s.confidence <= hi
    ensures lo - 0.0000005 <= SnapshotOf(window, requests, errors).avgConfidence <= hi + 0.0000005
  {
    hide Round, NearestRank, Sort, Total, LatencySource, Successes, Latencies, NearRank;
    var c := Confidences(Successes(window));
    SnapshotTells(window, requests, errors);
    assert forall i :: 0 <= i < |c| ==> Successes(window)[i] in Successes(window);
    MeanInRange(c, lo, hi);
  }

  // ---------------------------------------------------------------- the ring buffer

  lemma {:induction false} ErrorsInSuffix(s: seq<Sample>, k: nat)
    requires k <= |s|
    ensures ErrorCount(s[k..]) <= ErrorCount(s)
    ensures |s| - k - ErrorCount(s[k..]) <= |s| - ErrorCount(s)
    decreases |s|
  {
    if k < |s| {
      var most := s[..|s| - 1];
      ErrorsInSuffix(most, k);
      assert s[k..][..|s[k..]| - 1] == most[k..];
    }
  }

  lemma NewestErrors(s: seq<Sample>, n: nat)
    ensures |LastN(s, n)| <= |s| && ErrorCount(LastN(s, n)) <= ErrorCount(s)
  {
    if |s| > n { ErrorsInSuffix(s, |s| - n); }
  }

  class MetricsTracker {
    ghost var recorded: seq<Sample>
    var window: seq<Sample>
    var totalRequests: nat
    var totalErrors: nat
    const windowSize: nat

    ghost predicate Valid()
      reads this
    {
      window == LastN(recorded, windowSize) && totalRequests == |recorded| && totalErrors == ErrorCount(recorded)
    }

    constructor (windowSize: nat)
      ensures Valid() && recorded == [] && this.windowSize == windowSize
    {
      this.windowSize := windowSize;
      recorded, window, totalRequests, totalErrors := [], [], 0, 0;
    }

    method Record(latency: real, confidence: real, isError: bool)
      requires Valid()
      modifies this
      ensures Valid() && recorded == old(recorded) + [Sample(latency, confidence, isError)]
    {
      var s := Sample(latency, confidence, isError);
      totalRequests := totalRequests + 1;
      if isError { totalErrors := totalErrors + 1; }
      LastNPush(recorded, s, windowSize);
      window := LastN(window + [s], windowSize);
      recorded := recorded + [s];
    }

    /** The body of the metrics endpoint, over the latest requests; the window's counts never exceed the
        lifetime's. */
    method TakeSnapshot() returns (r: Snapshot)
      requires Valid()
      ensures r == SnapshotOf(LastN(recorded, windowSize), |recorded|, ErrorCount(recorded))
      ensures Tells(r, LastN(recorded, windowSize))
      ensures r.lifetimeRequests == |recorded| && r.lifetimeErrors == |Failed(recorded)|
      ensures r.requestCount <= r.lifetimeRequests && r.errorCount <= r.lifetimeErrors
      ensures r.p50 <= r.p95 <= r.p99
    {
      hide Round, Sort, Mean, NearestRank, Latencies, LatencySource, Successes;
      NewestErrors(recorded, windowSize);
      hide LastN, Tells, ErrorCount, Failed;
      PercentilesOrdered(window, totalRequests, totalErrors);
      SnapshotTells(window, totalRequests, totalErrors);
      ErrorsAreFailures(recorded);
      r := SnapshotOf(window, totalRequests, totalErrors);
    }
  }
}
