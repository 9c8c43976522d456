/** What the anomaly detector guarantees on every stream: it does not depend on the unit or the
    orientation of a metric, its alarms clear by themselves, and its EWMA never leaves the range of what
    it has seen. */
module AnomalyLaws {
  import opened Arithmetic
  import opened Schemas
  import opened OrderStats
  import opened AnomalyDetection
  import opened Windows
  import opened Decisions
  import opened DecisionLaws

  // ---------------------------------------------------------------- affine equivariance

  /** Which direction is bad once a metric is replaced by a*x + b. */
  predicate Oriented(a: real, higherWorse: bool) {
    if a > 0.0 then higherWorse else !higherWorse
  }

  /** The channel of the rescaled metric. */
  function Rescale(f: real -> real, ch: Channel): Channel {
    Channel(Map(f, ch.hist), if ch.ewma.Some? then Some(f(ch.ewma.value)) else None, ch.consec)
  }

  lemma RatioScale(a: real, u: real, d: real)
    requires a != 0.0 && d > 0.0
    ensures Abs(a) * d > 0.0
    ensures 0.6745 * (a * u) / (Abs(a) * d) == if a > 0.0 then 0.6745 * u / d else -(0.6745 * u / d)
  {
    var k := Abs(a);
    assert k > 0.0 && k * d > 0.0;
    var r := 0.6745 * u / d;
    assert r * d == 0.6745 * u;
    assert 0.6745 * (a * u) == a * (r * d);
    if a > 0.0 {
      assert a * (r * d) == r * (k * d);
      Cancel(r, k * d);
    } else {
      assert a * (r * d) == (-r) * (k * d);
      Cancel(-r, k * d);
    }
  }

  lemma RobustZAffine(a: real, b: real, x: real, past: seq<real>)
    requires a != 0.0 && past != []
    ensures RobustZ(Line(a, b)(x), Map(Line(a, b), past)) == if a > 0.0 then RobustZ(x, past) else -RobustZ(x, past)
  {
    hide Mad, Median;
    MadAffine(a, b, past);
    MedianAffine(a, b, past);
    var mad, med := Mad(past), Median(past);
    if mad > 0.0 {
      RatioScale(a, x - med, mad);
      assert Line(a, b)(x) - Line(a, b)(med) == a * (x - med);
    }
  }

  lemma DirectionalAffine(a: real, b: real, hw: bool, x: real, past: seq<real>)
    requires a != 0.0 && past != []
    ensures Directional(Oriented(a, hw), Line(a, b)(x), Map(Line(a, b), past)) == Directional(hw, x, past)
  {
    hide RobustZ;
    RobustZAffine(a, b, x, past);
  }

  lemma SignScale(a: real, d: real)
    ensures a > 0.0 ==> (a * d > 0.0 <==> d > 0.0)
    ensures a < 0.0 ==> (a * d < 0.0 <==> d > 0.0)
  {
    if a > 0.0 && d <= 0.0 { ScaleOrder(a, d, 0.0); }
    if a < 0.0 && d <= 0.0 { ScaleOrder(a, d, 0.0); }
  }

  lemma SignOf(a: real, d: real, e: real)
    requires e == a * d
    ensures a > 0.0 ==> (e > 0.0 <==> d > 0.0)
    ensures a < 0.0 ==> (e < 0.0 <==> d > 0.0)
  {
    SignScale(a, d);
  }

  lemma LineGap(a: real, b: real, u: real, v: real)
    ensures Line(a, b)(v) - Line(a, b)(u) == a * (v - u)
  {
    Distribute(a, v, -u);
  }

  lemma FenceScale(a: real, b: real, hw: bool, x: real, q1: real, q3: real)
    requires a != 0.0
    ensures BeyondFence(Oriented(a, hw), Line(a, b)(x), Line(a, b)(if a > 0.0 then q1 else q3),
                        Line(a, b)(if a > 0.0 then q3 else q1)) == BeyondFence(hw, x, q1, q3)
  {
    var over, under := x - (q3 + IQR_C * (q3 - q1)), (q1 - IQR_C * (q3 - q1)) - x;
    var y, p, r := Line(a, b)(x), Line(a, b)(q1), Line(a, b)(q3);
    LineGap(a, b, q1, q3);
    LineGap(a, b, q3, x);
    LineGap(a, b, x, q1);
    Distribute(a, x - q3, -IQR_C * (q3 - q1));
    Distribute(a, q1 - x, -IQR_C * (q3 - q1));
    hide Line;
    SignOf(a, q3 - q1, r - p);
    SignOf(a, over, y - (r + IQR_C * (r - p)));
    SignOf(a, under, (p - IQR_C * (r - p)) - y);
    if a > 0.0 { FenceUp(hw, x, q1, q3, y, p, r); } else { FenceDown(hw, x, q1, q3, y, p, r); }
  }

  lemma FenceUp(hw: bool, x: real, q1: real, q3: real, y: real, p: real, r: real)
    requires r - p > 0.0 <==> q3 - q1 > 0.0
    requires y - (r + IQR_C * (r - p)) > 0.0 <==> x - (q3 + IQR_C * (q3 - q1)) > 0.0
    requires (p - IQR_C * (r - p)) - y > 0.0 <==> (q1 - IQR_C * (q3 - q1)) - x > 0.0
    ensures BeyondFence(hw, y, p, r) == BeyondFence(hw, x, q1, q3)
  {
  }

  lemma FenceDown(hw: bool, x: real, q1: real, q3: real, y: real, p: real, r: real)
    requires r - p < 0.0 <==> q3 - q1 > 0.0
    requires y - (r + IQR_C * (r - p)) < 0.0 <==> x - (q3 + IQR_C * (q3 - q1)) > 0.0
    requires (p - IQR_C * (r - p)) - y < 0.0 <==> (q1 - IQR_C * (q3 - q1)) - x > 0.0
    ensures BeyondFence(!hw, y, r, p) == BeyondFence(hw, x, q1, q3)
  {
  }

  lemma IqrBreakAffine(a: real, b: real, hw: bool, x: real, past: seq<real>)
    requires a != 0.0 && past != []
    ensures IqrBreak(Oriented(a, hw), Line(a, b)(x), Map(Line(a, b), past)) == IqrBreak(hw, x, past)
  {
    hide Percentile, BeyondFence, Line;
    PercentileAffine(a, b, past, 0.25);
    PercentileAffine(a, b, past, 0.75);
    FenceScale(a, b, hw, x, Percentile(past, 0.25), Percentile(past, 0.75));
  }

  lemma SquareScale(a: real, b: real, p: real, m: real)
    ensures Square(Line(a, b)(p) - Line(a, b)(m)) == Square(a) * Square(p - m)
  {
    var d := p - m;
    assert Line(a, b)(p) - Line(a, b)(m) == a * d;
    assert (a * d) * (a * d) == (a * a) * (d * d);
  }

  lemma {:induction false} SumSquaresAffine(a: real, b: real, past: seq<real>, m: real)
    ensures SumSquares(Map(Line(a, b), past), Line(a, b)(m)) == Square(a) * SumSquares(past, m)
  {
    hide Square, Line;
    if past != [] {
      SumSquaresAffine(a, b, past[1..], m);
      SquareScale(a, b, past[0], m);
      assert Map(Line(a, b), past)[1..] == Map(Line(a, b), past[1..]);
      Distribute(Square(a), Square(past[0] - m), SumSquares(past[1..], m));
    }
  }

  lemma VarianceAffine(a: real, b: real, past: seq<real>, m: real)
    ensures Variance(Map(Line(a, b), past), Line(a, b)(m)) == Square(a) * Variance(past, m)
  {
    hide SumSquares, Square, Line;
    SumSquaresAffine(a, b, past, m);
    QuotientScale(Square(a), SumSquares(past, m), (if |past| - 1 > 1 then |past| - 1 else 1) as real);
  }

  lemma QuotientScale(k: real, u: real, d: real)
    requires d > 0.0
    ensures k * u / d == k * (u / d)
  {
    assert k * (u / d) * d == k * u;
    Cancel(k * (u / d), d);
  }

  lemma LimitScale(a: real, alpha: real, excess: real, variance: real, excess': real, variance': real)
    requires CanScore(alpha) && variance >= 0.0 && a != 0.0
    requires excess' == Abs(a) * excess && variance' == Square(a) * variance
    ensures BeyondLimit(alpha, excess', variance') == BeyondLimit(alpha, excess, variance)
  {
    var k, r := Abs(a), alpha / (2.0 - alpha);
    assert Square(a) == k * k;
    SignScale(k, excess);
    SignScale(k, variance);
    SignScale(k, k * variance);
    assert k * (k * variance) == (k * k) * variance;
    var gap := excess * excess - EWMA_L * EWMA_L * (variance * r);
    SignScale(k, gap);
    SignScale(k, k * gap);
    GapScale(k, excess, variance, r);
  }

  lemma GapScale(k: real, e: real, v: real, r: real)
    ensures k * (k * (e * e - EWMA_L * EWMA_L * (v * r))) == (k * e) * (k * e) - EWMA_L * EWMA_L * (((k * k) * v) * r)
  {
    assert (k * e) * (k * e) == k * (k * (e * e));
    assert ((k * k) * v) * r == k * (k * (v * r));
  }

  lemma ExcessScale(a: real, b: real, hw: bool, s: real, m: real)
    requires a != 0.0
    ensures Excess(Oriented(a, hw), Line(a, b)(s), Line(a, b)(m)) == Abs(a) * Excess(hw, s, m)
  {
    assert a * (s - m) == (a * s + b) - (a * m + b);
    assert a * (m - s) == (a * m + b) - (a * s + b);
  }

  lemma EwmaBreakAffine(a: real, b: real, alpha: real, hw: bool, s: real, past: seq<real>)
    requires CanScore(alpha) && a != 0.0 && past != []
    ensures EwmaBreak(alpha, Oriented(a, hw), Line(a, b)(s), Map(Line(a, b), past)) == EwmaBreak(alpha, hw, s, past)
  {
    hide Median, Variance, BeyondLimit, Square, Line, Oriented, Excess;
    var med := Median(past);
    MedianAffine(a, b, past);
    VarianceAffine(a, b, past, med);
    ExcessScale(a, b, hw, s, med);
    var past', s' := Map(Line(a, b), past), Line(a, b)(s);
    LimitScale(a, alpha, Excess(hw, s, med), Variance(past, med),
               Excess(Oriented(a, hw), s', Median(past')), Variance(past', Median(past')));
  }

  lemma SmoothAffine(a: real, b: real, alpha: real, x: real, prev: real)
    ensures Smooth(alpha, Line(a, b)(x), Line(a, b)(prev)) == Line(a, b)(Smooth(alpha, x, prev))
  {
    assert alpha * (a * x + b) == a * (alpha * x) + alpha * b;
    assert (1.0 - alpha) * (a * prev + b) == a * ((1.0 - alpha) * prev) + (1.0 - alpha) * b;
    assert a * (alpha * x + (1.0 - alpha) * prev) == a * (alpha * x) + a * ((1.0 - alpha) * prev);
  }

  lemma NextEwmaAffine(a: real, b: real, alpha: real, ch: Channel, x: real)
    requires ch.hist != []
    ensures NextEwma(alpha, Rescale(Line(a, b), ch), Line(a, b)(x)) == Line(a, b)(NextEwma(alpha, ch, x))
  {
    hide Median, Smooth, Line;
    MedianAffine(a, b, ch.hist);
    SmoothAffine(a, b, alpha, x, if ch.ewma.Some? then ch.ewma.value else Median(ch.hist));
  }

  lemma ScoreAffine(a: real, b: real, alpha: real, hw: bool, x: real, past: seq<real>, s: real)
    requires CanScore(alpha) && a != 0.0 && past != []
    ensures Score(alpha, Oriented(a, hw), Line(a, b)(x), Map(Line(a, b), past), Line(a, b)(s))
         == Score(alpha, hw, x, past, s)
  {
    hide Directional, IqrBreak, EwmaBreak, Oriented, Line;
    DirectionalAffine(a, b, hw, x, past);
    IqrBreakAffine(a, b, hw, x, past);
    EwmaBreakAffine(a, b, alpha, hw, s, past);
  }

  lemma PushMap(f: real -> real, hist: seq<real>, x: real)
    ensures Push(Map(f, hist), f(x)) == Map(f, Push(hist, x))
  {
    assert Map(f, hist + [x]) == Map(f, hist) + [f(x)];
    if hist != [] { assert Map(f, hist[1..] + [x]) == Map(f, hist)[1..] + [f(x)]; }
  }

  /** One sample of a rescaled metric is reported exactly as the sample itself. */
  lemma StepAffine(a: real, b: real, alpha: real, hw: bool, ch: Channel, x: real)
    requires CanScore(alpha) && a != 0.0
    ensures Step(alpha, Oriented(a, hw), Rescale(Line(a, b), ch), Line(a, b)(x))
         == (Rescale(Line(a, b), Step(alpha, hw, ch, x).0), Step(alpha, hw, ch, x).1)
  {
    hide Score, NextEwma, Push, Oriented, Line;
    PushMap(Line(a, b), ch.hist, x);
    if |ch.hist| >= W_MIN {
      NextEwmaAffine(a, b, alpha, ch, x);
      ScoreAffine(a, b, alpha, hw, x, ch.hist, NextEwma(alpha, ch, x));
    }
  }

  /** Affine equivariance of the detector: on every stream, from every channel state, a change of unit or
      origin (a, b), with the bad direction turned over when a < 0, changes no breach, score, test,
      pattern or streak at any sample. */
  lemma {:induction false} RunAffine(a: real, b: real, alpha: real, hw: bool, ch: Channel, xs: seq<real>)
    requires CanScore(alpha) && a != 0.0
    ensures Run(alpha, Oriented(a, hw), Rescale(Line(a, b), ch), Map(Line(a, b), xs)).1 == Run(alpha, hw, ch, xs).1
    ensures Run(alpha, Oriented(a, hw), Rescale(Line(a, b), ch), Map(Line(a, b), xs)).0
         == Rescale(Line(a, b), Run(alpha, hw, ch, xs).0)
    decreases |xs|
  {
    hide Step, Oriented, Line, Rescale;
    if xs != [] {
      StepAffine(a, b, alpha, hw, ch, xs[0]);
      assert Map(Line(a, b), xs)[1..] == Map(Line(a, b), xs[1..]);
      RunAffine(a, b, alpha, hw, Step(alpha, hw, ch, xs[0]).0, xs[1..]);
    }
  }

  // ---------------------------------------------------------------- buffer and warm-up

  /** The rolling buffer is exactly the newest W samples of the stream. */
  lemma {:induction false} BufferIsRecent(alpha: real, hw: bool, ch: Channel, all: seq<real>, xs: seq<real>)
    requires CanScore(alpha) && ch.hist == LastN(all, W)
    ensures Run(alpha, hw, ch, xs).0.hist == LastN(all + xs, W)
    decreases |xs|
  {
    hide Score, NextEwma, LastN;
    if xs == [] {
      assert all + xs == all;
    } else {
      LastNPush(all, xs[0], W);
      BufferIsRecent(alpha, hw, Step(alpha, hw, ch, xs[0]).0, all + [xs[0]], xs[1..]);
      assert all + [xs[0]] + xs[1..] == all + xs;
    }
  }

  /** Nothing is reported before W_MIN samples have been seen, however wild they are. */
  lemma {:induction false} WarmUpIsSilent(alpha: real, hw: bool, ch: Channel, xs: seq<real>)
    requires CanScore(alpha)
    ensures forall j :: 0 <= j < |xs| && |ch.hist| + j < W_MIN ==> Run(alpha, hw, ch, xs).1[j] == None
    decreases |xs|
  {
    hide Score, NextEwma;
    if xs != [] { WarmUpIsSilent(alpha, hw, Step(alpha, hw, ch, xs[0]).0, xs[1..]); }
  }

  // ---------------------------------------------------------------- the object and its streams

  /** What a metric's channel goes through over a series of evaluations, and what it contributes. */
  function Ticks(alpha: real, m: Metric, ch: Channel, ticks: seq<map<Metric, real>>): (Channel, seq<DetectionResult>)
    requires CanScore(alpha)
    decreases |ticks|
  {
    if ticks == [] then (ch, [])
    else
      var (next, found) := StepOf(alpha, m, ch, ticks[0]);
      var (last, more) := Ticks(alpha, m, next, ticks[1..]);
      (last, found + more)
  }

  /** The values a metric had on the evaluations that supplied one. */
  function Supplied(m: Metric, ticks: seq<map<Metric, real>>): seq<real> {
    if ticks == [] then [] else (if m in ticks[0] then [ticks[0][m]] else []) + Supplied(m, ticks[1..])
  }

  function Detections(m: Metric, xs: seq<real>, reports: seq<Option<Report>>): seq<DetectionResult>
    requires |xs| == |reports|
  {
    if xs == [] then []
    else
      (if reports[0].Some? then [Detection(m, xs[0], reports[0].value)] else []) +
      Detections(m, xs[1..], reports[1..])
  }

  lemma PlaceOf(k: nat)
    requires k < |METRICS|
    ensures forall m: Metric :: Place(m) == k <==> m == METRICS[k]
    ensures METRICS[..k + 1][..k] == METRICS[..k] && METRICS[..k + 1][k] == METRICS[k] && |METRICS[..k + 1]| == k + 1
  {
  }

  lemma SweptNext(alpha: real, chs: map<Metric, Channel>, metrics: map<Metric, real>, k: nat)
    requires k < |METRICS| && forall m: Metric :: m in chs
    ensures var m, before := METRICS[k], Swept(alpha, chs, metrics, METRICS[..k]);
            Swept(alpha, chs, metrics, METRICS[..k + 1]) ==
            if before.raised || m !in metrics then before
            else
              var (next, found) := Sample(alpha, m, before.chs[m], metrics[m]);
              Sweep(before.chs[m := next], before.results + (if found.Some? then found.value else []), found.None?)
  {
    hide Sample;
    PlaceOf(k);
  }

  lemma ResultsNext(alpha: real, chs: map<Metric, Channel>, metrics: map<Metric, real>, k: nat)
    requires k < |METRICS| && CanScore(alpha) && forall m: Metric :: m in chs
    ensures Results(alpha, chs, metrics, METRICS[..k + 1]) ==
            Results(alpha, chs, metrics, METRICS[..k]) + StepOf(alpha, METRICS[k], chs[METRICS[k]], metrics).1
  {
    hide StepOf;
    PlaceOf(k);
  }

  lemma SampleIsStep(alpha: real, m: Metric, ch: Channel, metrics: map<Metric, real>)
    requires CanScore(alpha)
    ensures m in metrics ==>
              StepOf(alpha, m, ch, metrics).0 == Sample(alpha, m, ch, metrics[m]).0 &&
              Sample(alpha, m, ch, metrics[m]).1 == Some(StepOf(alpha, m, ch, metrics).1)
    ensures m !in metrics ==> StepOf(alpha, m, ch, metrics) == (ch, [])
  {
    hide Step, Detection;
  }

  lemma PointwiseStep(alpha: real, chs: map<Metric, Channel>, metrics: map<Metric, real>, k: nat, m: Metric, s: Sweep)
    requires CanScore(alpha) && (forall x: Metric :: x in chs && x in s.chs)
    requires forall x: Metric :: Place(x) == k <==> x == m
    requires forall x: Metric :: s.chs[x] == if Place(x) < k then StepOf(alpha, x, chs[x], metrics).0 else chs[x]
    ensures m in metrics ==> Sample(alpha, m, s.chs[m], metrics[m]).1 == Some(StepOf(alpha, m, chs[m], metrics).1)
    ensures m !in metrics ==> StepOf(alpha, m, chs[m], metrics).1 == []
    ensures var t := if m in metrics then s.chs[m := Sample(alpha, m, s.chs[m], metrics[m]).0] else s.chs;
            forall x: Metric :: t[x] == if Place(x) < k + 1 then StepOf(alpha, x, chs[x], metrics).0 else chs[x]
  {
    hide Place, StepOf, Sample;
    SampleIsStep(alpha, m, chs[m], metrics);
  }

  /** Where the detector can score, an evaluation never raises and treats every metric by itself. */
  lemma {:induction false} SweptPointwise(alpha: real, chs: map<Metric, Channel>, metrics: map<Metric, real>, k: nat)
    requires CanScore(alpha) && k <= |METRICS| && forall m: Metric :: m in chs
    ensures var s := Swept(alpha, chs, metrics, METRICS[..k]);
            !s.raised && s.results == Results(alpha, chs, metrics, METRICS[..k]) &&
            forall m: Metric :: s.chs[m] == if Place(m) < k then StepOf(alpha, m, chs[m], metrics).0 else chs[m]
  {
    if k > 0 {
      SweptPointwise(alpha, chs, metrics, k - 1);
      hide Swept, Results, StepOf, Sample, Place;
      PlaceOf(k - 1);
      SweptNext(alpha, chs, metrics, k - 1);
      ResultsNext(alpha, chs, metrics, k - 1);
      PointwiseStep(alpha, chs, metrics, k - 1, METRICS[k - 1], Swept(alpha, chs, metrics, METRICS[..k - 1]));
    }
  }

  lemma SampleRaises(alpha: real, m: Metric, ch: Channel, x: real)
    requires !CanScore(alpha)
    ensures Sample(alpha, m, ch, x).1.None? <==> |ch.hist| >= W_MIN
  {
    hide NextEwma, Push;
  }

  lemma {:induction false} SweptRaises(alpha: real, chs: map<Metric, Channel>, metrics: map<Metric, real>, k: nat)
    requires !CanScore(alpha) && k <= |METRICS| && forall m: Metric :: m in chs
    ensures Swept(alpha, chs, metrics, METRICS[..k]).raised <==>
            exists m: Metric :: Place(m) < k && m in metrics && |chs[m].hist| >= W_MIN
    ensures forall m: Metric :: Place(m) >= k ==> Swept(alpha, chs, metrics, METRICS[..k]).chs[m] == chs[m]
  {
    if k > 0 {
      SweptRaises(alpha, chs, metrics, k - 1);
      hide Swept, Sample, Place;
      var m := METRICS[k - 1];
      PlaceOf(k - 1);
      SweptNext(alpha, chs, metrics, k - 1);
      if m in metrics { SampleRaises(alpha, m, chs[m], metrics[m]); }
    }
  }

  /** The evaluation of the whole table, for every configured smoothing: it raises exactly if the control
      limit is undefined and some supplied metric is past its warm-up. Otherwise every supplied metric is
      stepped from its own channel, and the findings come in table order. */
  lemma EvaluationRaisesIff(alpha: real, chs: map<Metric, Channel>, metrics: map<Metric, real>)
    requires forall m: Metric :: m in chs
    ensures Swept(alpha, chs, metrics, METRICS).raised <==>
            !CanScore(alpha) && exists m: Metric :: m in metrics && |chs[m].hist| >= W_MIN
    ensures CanScore(alpha) ==>
              var s := Swept(alpha, chs, metrics, METRICS);
              s.results == Results(alpha, chs, metrics, METRICS) &&
              forall m: Metric :: s.chs[m] == StepOf(alpha, m, chs[m], metrics).0
  {
    hide Swept, Results, StepOf;
    assert METRICS[..|METRICS|] == METRICS;
    if CanScore(alpha) {
      SweptPointwise(alpha, chs, metrics, |METRICS|);
    } else {
      SweptRaises(alpha, chs, metrics, |METRICS|);
    }
  }

  // ---------------------------------------------------------------- the severity of anomalies

  /** The sample of metric m is reported, for the fifth time in a row or more. */
  predicate Persists(alpha: real, m: Metric, ch: Channel, metrics: map<Metric, real>)
    requires CanScore(alpha)
  {
    m in metrics &&
    var report := Step(alpha, HigherWorse(m), ch, metrics[m]).1;
    report.Some? && report.value.pattern == Sustained
  }

  lemma {:induction false} ResultsMembers(alpha: real, chs: map<Metric, Channel>, metrics: map<Metric, real>,
                                          ms: seq<Metric>)
    requires CanScore(alpha) && forall m: Metric :: m in chs
    ensures forall d :: d in Results(alpha, chs, metrics, ms) ==>
              d.anomalyDetected && d.detector == Detector.AnomalyDetector
    ensures (exists d :: d in Results(alpha, chs, metrics, ms) && d.sustained) <==>
            exists m :: m in ms && Persists(alpha, m, chs[m], metrics)
  {
    hide Step;
    if ms != [] {
      var m, most := ms[|ms| - 1], ms[..|ms| - 1];
      ResultsMembers(alpha, chs, metrics, most);
      assert ms == most + [m];
      var last := StepOf(alpha, m, chs[m], metrics).1;
      assert Persists(alpha, m, chs[m], metrics) ==> last[0] in last && last[0].sustained;
      assert forall d :: d in Results(alpha, chs, metrics, ms) <==>
          d in Results(alpha, chs, metrics, most) || d in last;
    }
  }

  /** The severity of an evaluation's findings: MEDIUM if some metric's anomaly persists, else LOW, however
      many metrics are reported and however far off they are. */
  lemma AnomalySeverity(cfg: Settings, alpha: real, chs: map<Metric, Channel>, metrics: map<Metric, real>)
    requires CanScore(alpha) && forall m: Metric :: m in chs
    ensures Classify(cfg, Results(alpha, chs, metrics, METRICS)) ==
            if exists m: Metric :: Persists(alpha, m, chs[m], metrics) then Medium else Low
  {
    hide Step, Results, Classify, Persists;
    ResultsMembers(alpha, chs, metrics, METRICS);
    forall m: Metric ensures m in METRICS { assert METRICS[Place(m)] == m; }
    ClassifyIs(cfg, Results(alpha, chs, metrics, METRICS),
               if exists m: Metric :: Persists(alpha, m, chs[m], metrics) then Medium else Low);
  }

  /** Evaluations that lack a metric do not disturb it: its channel and its detections are those of the
      stream of values it did have, so every law of streams is a law of the object. */
  lemma {:induction false} TicksAreStream(alpha: real, m: Metric, ch: Channel, ticks: seq<map<Metric, real>>)
    requires CanScore(alpha)
    ensures var xs := Supplied(m, ticks);
            var (last, reports) := Run(alpha, HigherWorse(m), ch, xs);
            Ticks(alpha, m, ch, ticks) == (last, Detections(m, xs, reports))
    decreases |ticks|
  {
    hide Step, Detection;
    if ticks != [] {
      TicksAreStream(alpha, m, StepOf(alpha, m, ch, ticks[0]).0, ticks[1..]);
      if m in ticks[0] {
        var xs := Supplied(m, ticks);
        assert xs[1..] == Supplied(m, ticks[1..]);
      } else {
        assert [] + Supplied(m, ticks[1..]) == Supplied(m, ticks[1..]);
        assert [] + Ticks(alpha, m, ch, ticks[1..]).1 == Ticks(alpha, m, ch, ticks[1..]).1;
      }
    }
  }

  // ---------------------------------------------------------------- direction and robustness

  predicate AtLeastAsBad(hw: bool, x: real, y: real) {
    if hw then x <= y else y <= x
  }

  lemma RobustZMonotone(x: real, y: real, past: seq<real>)
    requires past != [] && x <= y
    ensures RobustZ(x, past) <= RobustZ(y, past)
  {
    hide Mad, Median;
    var m, d := Median(past), Mad(past);
    if d > 0.0 { QuotientMonotone(0.6745 * (x - m), 0.6745 * (y - m), d); }
  }

  lemma BeyondLimitMonotone(alpha: real, e: real, e': real, variance: real)
    requires CanScore(alpha) && e <= e' && BeyondLimit(alpha, e, variance)
    ensures BeyondLimit(alpha, e', variance)
  {
    ScaleOrder(e, e, e');
    ScaleOrder(e', e, e');
  }

  lemma EwmaBreakMonotone(alpha: real, hw: bool, x: real, y: real, past: seq<real>, prev: real)
    requires CanScore(alpha) && past != [] && AtLeastAsBad(hw, x, y)
    ensures EwmaBreak(alpha, hw, Smooth(alpha, x, prev), past) ==> EwmaBreak(alpha, hw, Smooth(alpha, y, prev), past)
  {
    hide Median, Variance, BeyondLimit;
    if hw { ScaleOrder(alpha, x, y); } else { ScaleOrder(alpha, y, x); }
    var med := Median(past);
    var e, e' := Excess(hw, Smooth(alpha, x, prev), med), Excess(hw, Smooth(alpha, y, prev), med);
    if BeyondLimit(alpha, e, Variance(past, med)) { BeyondLimitMonotone(alpha, e, e', Variance(past, med)); }
  }

  /** If a sample breaches, every sample at least as bad would have breached from the same state. */
  lemma WorseSampleBreaches(alpha: real, hw: bool, x: real, y: real, past: seq<real>, prev: real)
    requires CanScore(alpha) && past != [] && AtLeastAsBad(hw, x, y)
    requires Score(alpha, hw, x, past, Smooth(alpha, x, prev)).breached
    ensures Score(alpha, hw, y, past, Smooth(alpha, y, prev)).breached
  {
    hide RobustZ, Percentile, EwmaBreak, Smooth;
    if hw { RobustZMonotone(x, y, past); } else { RobustZMonotone(y, x, past); }
    EwmaBreakMonotone(alpha, hw, x, y, past, prev);
  }

  /** A gross outlier is caught even when up to half of the history is arbitrary: once a strict majority
      lies in [lo, hi], a sample K_R/0.6745 widths beyond that interval on the bad side breaches. */
  lemma OutlierCaught(alpha: real, hw: bool, x: real, past: seq<real>, s: real, lo: real, hi: real)
    requires CanScore(alpha) && 2 * CountIn(past, lo, hi) > |past| && Mad(past) > 0.0
    requires 0.6745 * (if hw then x - hi else lo - x) >= K_R * (hi - lo)
    ensures Score(alpha, hw, x, past, s).breached
  {
    hide Mad, Median, IqrBreak, EwmaBreak;
    MedianBreakdown(past, lo, hi);
    MadBreakdown(past, lo, hi);
    var m, d := Median(past), Mad(past);
    if hw {
      RatioAtLeast(0.6745 * (x - m), d, K_R);
    } else {
      RatioAtLeast(0.6745 * (m - x), d, K_R);
      assert 0.6745 * (m - x) / d == -(0.6745 * (x - m) / d);
    }
  }

  /** A sample on the good side of the median fires neither the z-test nor the fence. */
  lemma GoodSideIsQuiet(hw: bool, x: real, past: seq<real>)
    requires past != [] && AtLeastAsBad(hw, x, Median(past))
    ensures Directional(hw, x, past) <= 0.0 && !IqrBreak(hw, x, past)
  {
    hide Median, Mad, Percentile;
    QuartilesEncloseMedian(past);
    var m, d := Median(past), Mad(past);
    if d > 0.0 {
      if hw { QuotientMonotone(0.6745 * (x - m), 0.0, d); } else { QuotientMonotone(0.0, 0.6745 * (x - m), d); }
    }
  }

  // ---------------------------------------------------------------- spike or sustained

  /** The streak of a report is the number of consecutive reports ending at it: either a quiet sample
      precedes them, or they reach back to the start and continue the channel's streak. */
  ghost predicate StreakAt(rs: seq<Option<Report>>, j: nat, before: nat)
    requires j < |rs| && rs[j].Some?
  {
    var c := rs[j].value.consec;
    (c <= j && rs[j - c] == None && forall k :: j - c < k <= j ==> rs[k].Some?) ||
    (c == before + j + 1 && forall k :: 0 <= k <= j ==> rs[k].Some?)
  }

  lemma {:induction false} StreakCounts(alpha: real, hw: bool, ch: Channel, xs: seq<real>, j: nat)
    requires CanScore(alpha) && j < |xs| && (|ch.hist| < W_MIN ==> ch.consec == 0)
    requires Run(alpha, hw, ch, xs).1[j].Some?
    ensures StreakAt(Run(alpha, hw, ch, xs).1, j, ch.consec)
    ensures Run(alpha, hw, ch, xs).1[j].value.pattern == Sustained <==>
            Run(alpha, hw, ch, xs).1[j].value.consec >= N_SUSTAIN
    decreases |xs|
  {
    hide Score, NextEwma;
    var (next, report) := Step(alpha, hw, ch, xs[0]);
    if j > 0 {
      var rs, tail := Run(alpha, hw, ch, xs).1, Run(alpha, hw, next, xs[1..]).1;
      assert rs == [report] + tail;
      StreakCounts(alpha, hw, next, xs[1..], j - 1);
      assert StreakAt(tail, j - 1, next.consec);
      forall k | 0 < k <= j ensures rs[k] == tail[k - 1] { }
    }
  }

  /** On every stream a report says "sustained" exactly when it and the four samples before it were all
      reported. */
  lemma SustainedIsFiveInARow(alpha: real, hw: bool, xs: seq<real>, j: nat)
    requires CanScore(alpha) && j < |xs| && Run(alpha, hw, EMPTY, xs).1[j].Some?
    ensures Run(alpha, hw, EMPTY, xs).1[j].value.pattern == Sustained <==>
            j >= N_SUSTAIN - 1 && forall k :: j - N_SUSTAIN < k <= j ==> Run(alpha, hw, EMPTY, xs).1[k].Some?
  {
    hide Run;
    StreakCounts(alpha, hw, EMPTY, xs, j);
  }

  // ---------------------------------------------------------------- alarms clear by themselves

  predicate Flat(past: seq<real>, v: real) {
    forall i :: 0 <= i < |past| ==> past[i] == v
  }

  lemma {:induction false} FlatSumSquares(past: seq<real>, v: real)
    requires Flat(past, v)
    ensures SumSquares(past, v) == 0.0
  {
    if past != [] { FlatSumSquares(past[1..], v); }
  }

  lemma FlatStatistics(past: seq<real>, v: real)
    requires past != [] && Flat(past, v)
    ensures Median(past) == v && Mad(past) == 0.0
    ensures Percentile(past, 0.25) == Percentile(past, 0.75) == v
  {
    hide Median, Mad, Percentile;
    MedianInRange(past, v, v);
    PercentileInRange(past, 0.25, v, v);
    PercentileInRange(past, 0.75, v, v);
    CountInAll(past, v, v);
    MadBreakdown(past, v, v);
  }

  /** A sample equal to a flat history breaches none of the three tests, wherever the average stands. */
  lemma FlatHistoryIsQuiet(alpha: real, hw: bool, v: real, past: seq<real>, s: real)
    requires CanScore(alpha) && past != [] && Flat(past, v)
    ensures !Score(alpha, hw, v, past, s).breached
  {
    hide Median, Mad, Percentile, SumSquares;
    FlatStatistics(past, v);
    FlatSumSquares(past, v);
  }

  /** A metric that never changes is never reported. */
  lemma {:induction false} ConstantIsSilent(alpha: real, hw: bool, ch: Channel, v: real, xs: seq<real>)
    requires CanScore(alpha) && Flat(ch.hist, v) && Flat(xs, v)
    ensures forall j :: 0 <= j < |xs| ==> Run(alpha, hw, ch, xs).1[j] == None
    decreases |xs|
  {
    hide Score, NextEwma;
    if xs != [] {
      if ch.hist != [] { FlatHistoryIsQuiet(alpha, hw, v, ch.hist, NextEwma(alpha, ch, v)); }
      ConstantIsSilent(alpha, hw, Step(alpha, hw, ch, xs[0]).0, v, xs[1..]);
    }
  }

  /** The newest k values of a buffer all equal v. */
  predicate EndsFlat(hist: seq<real>, v: real, k: nat) {
    k <= |hist| <= W && forall i :: |hist| - k <= i < |hist| ==> hist[i] == v
  }

  function Grow(k: nat): nat { if k < W then k + 1 else W }

  lemma PushEndsFlat(hist: seq<real>, v: real, k: nat)
    requires EndsFlat(hist, v, k) && k <= W
    ensures EndsFlat(Push(hist, v), v, Grow(k))
  {
    var r := Push(hist, v);
    forall i | |r| - Grow(k) <= i < |r| ensures r[i] == v {
      if i < |r| - 1 {
        var o := if |hist| < W then i else i + 1;
        assert r[i] == hist[o];
      }
    }
  }

  lemma FlatStep(alpha: real, hw: bool, ch: Channel, v: real, k: nat)
    requires CanScore(alpha) && EndsFlat(ch.hist, v, k) && k <= W
    ensures EndsFlat(Step(alpha, hw, ch, v).0.hist, v, Grow(k))
    ensures k == W ==> Step(alpha, hw, ch, v).1 == None && Step(alpha, hw, ch, v).0.consec == 0
  {
    hide Score, NextEwma, Push, EndsFlat;
    PushEndsFlat(ch.hist, v, k);
    if k == W {
      assert |ch.hist| == W && Flat(ch.hist, v) by { FullyFlat(ch.hist, v); }
      FlatHistoryIsQuiet(alpha, hw, v, ch.hist, NextEwma(alpha, ch, v));
    }
  }

  lemma FullyFlat(hist: seq<real>, v: real)
    requires EndsFlat(hist, v, W)
    ensures |hist| == W && Flat(hist, v)
  {
  }

  /** From the sample on at which W equal values have been seen, equal samples are never reported, and
      each resets the streak. */
  lemma {:induction false} QuietAfter(alpha: real, hw: bool, ch: Channel, v: real, k: nat, xs: seq<real>)
    requires CanScore(alpha) && EndsFlat(ch.hist, v, k) && k <= W && Flat(xs, v)
    ensures forall j :: W - k <= j < |xs| ==> Run(alpha, hw, ch, xs).1[j] == None
    ensures |xs| > W - k || (k == W && ch.consec == 0) ==> Run(alpha, hw, ch, xs).0.consec == 0
    decreases |xs|
  {
    hide Step, EndsFlat;
    if xs != [] {
      FlatStep(alpha, hw, ch, v, k);
      QuietAfter(alpha, hw, Step(alpha, hw, ch, v).0, v, Grow(k), xs[1..]);
    }
  }

  function CountReports(rs: seq<Option<Report>>): nat {
    if rs == [] then 0 else (if rs[0].Some? then 1 else 0) + CountReports(rs[1..])
  }

  lemma {:induction false} CountReportsBound(rs: seq<Option<Report>>, n: nat)
    requires forall j :: n <= j < |rs| ==> rs[j] == None
    ensures CountReports(rs) <= n
  {
    if rs != [] { CountReportsBound(rs[1..], if n > 0 then n - 1 else 0); }
  }

  /** Whatever came before, a level shift that stays constant is reported at most W times, and after more
      than W equal samples the streak is back at zero. */
  lemma AlarmsSelfClear(alpha: real, hw: bool, ch: Channel, v: real, xs: seq<real>)
    requires CanScore(alpha) && |ch.hist| <= W && Flat(xs, v)
    ensures CountReports(Run(alpha, hw, ch, xs).1) <= W
    ensures |xs| > W ==> Run(alpha, hw, ch, xs).0.consec == 0
  {
    hide Run;
    QuietAfter(alpha, hw, ch, v, 0, xs);
    CountReportsBound(Run(alpha, hw, ch, xs).1, W);
  }

  // ---------------------------------------------------------------- the EWMA stays in range

  /** Everything a channel remembers lies in [lo, hi]. */
  predicate Within(ch: Channel, lo: real, hi: real) {
    (forall i :: 0 <= i < |ch.hist| ==> lo <= ch.hist[i] <= hi) &&
    (ch.ewma.Some? ==> lo <= ch.ewma.value <= hi)
  }

  /** The average moves towards the sample by a fraction alpha of the way. */
  lemma SmoothIsBetween(alpha: real, x: real, prev: real)
    ensures Smooth(alpha, x, prev) == Between(prev, x, alpha)
  {
    Distribute(alpha, x, -prev);
    Distribute(prev, 1.0, -alpha);
  }

  lemma SmoothWithin(alpha: real, x: real, prev: real, lo: real, hi: real)
    requires 0.0 <= alpha <= 1.0 && lo <= x <= hi && lo <= prev <= hi
    ensures lo <= Smooth(alpha, x, prev) <= hi
  {
    hide Smooth, Between;
    SmoothIsBetween(alpha, x, prev);
    BetweenSwap(prev, x, alpha);
    if prev <= x { BetweenInside(prev, x, alpha); } else { BetweenInside(x, prev, 1.0 - alpha); }
  }

  lemma StepWithin(alpha: real, hw: bool, ch: Channel, x: real, lo: real, hi: real)
    requires 0.0 <= alpha <= 1.0 && lo <= x <= hi && Within(ch, lo, hi)
    ensures Within(Step(alpha, hw, ch, x).0, lo, hi)
  {
    hide Score, Smooth, Median;
    if |ch.hist| >= W_MIN {
      MedianInRange(ch.hist, lo, hi);
      SmoothWithin(alpha, x, if ch.ewma.Some? then ch.ewma.value else Median(ch.hist), lo, hi);
    }
  }

  lemma {:induction false} RunWithin(alpha: real, hw: bool, ch: Channel, xs: seq<real>, lo: real, hi: real)
    requires 0.0 <= alpha <= 1.0 && Within(ch, lo, hi)
    requires forall i :: 0 <= i < |xs| ==> lo <= xs[i] <= hi
    ensures Within(Run(alpha, hw, ch, xs).0, lo, hi)
    decreases |xs|
  {
    hide Step, Within;
    if xs != [] {
      StepWithin(alpha, hw, ch, xs[0], lo, hi);
      RunWithin(alpha, hw, Step(alpha, hw, ch, xs[0]).0, xs[1..], lo, hi);
    }
  }

  /** On every stream, the average lies between any bounds of the samples seen so far. */
  ghost predicate EwmaStaysInRange(alpha: real)
    requires CanScore(alpha)
  {
    forall hw: bool, xs: seq<real>, lo: real, hi: real {:trigger Within(Run(alpha, hw, EMPTY, xs).0, lo, hi)} ::
      (forall i :: 0 <= i < |xs| ==> lo <= xs[i] <= hi) ==> Within(Run(alpha, hw, EMPTY, xs).0, lo, hi)
  }

  /** W_MIN zeros leave a channel that has not scored yet. */
  lemma {:induction false} WarmUp(alpha: real, ch: Channel, xs: seq<real>)
    requires CanScore(alpha) && |ch.hist| + |xs| <= W_MIN
    ensures Run(alpha, true, ch, xs).0 == ch.(hist := ch.hist + xs)
    decreases |xs|
  {
    if xs == [] {
      assert ch.hist + xs == ch.hist;
    } else {
      var next := Step(alpha, true, ch, xs[0]).0;
      WarmUp(alpha, next, xs[1..]);
      assert ch.hist + [xs[0]] + xs[1..] == ch.hist + xs;
    }
  }

  lemma {:induction false} RunConcat(alpha: real, hw: bool, ch: Channel, xs: seq<real>, ys: seq<real>)
    requires CanScore(alpha)
    ensures Run(alpha, hw, ch, xs + ys).0 == Run(alpha, hw, Run(alpha, hw, ch, xs).0, ys).0
    decreases |xs|
  {
    hide Step;
    if xs == [] {
      assert xs + ys == ys;
    } else {
      assert (xs + ys)[1..] == xs[1..] + ys;
      RunConcat(alpha, hw, Step(alpha, hw, ch, xs[0]).0, xs[1..], ys);
    }
  }

  lemma RunOne(alpha: real, hw: bool, ch: Channel, x: real)
    requires CanScore(alpha)
    ensures Run(alpha, hw, ch, [x]).0 == Step(alpha, hw, ch, x).0
  {
    hide Step;
  }

  lemma FirstAverage(alpha: real, zeros: seq<real>)
    requires CanScore(alpha) && |zeros| == W_MIN && Flat(zeros, 0.0)
    ensures Step(alpha, true, EMPTY.(hist := zeros), 1.0).0.ewma == Some(alpha)
  {
    hide Score, Median, Mad, Percentile;
    FlatStatistics(zeros, 0.0);
  }

  /** Twelve zeros and then a one put the average at alpha. */
  lemma Overshoot(alpha: real, zeros: seq<real>)
    requires CanScore(alpha) && |zeros| == W_MIN && Flat(zeros, 0.0)
    ensures Run(alpha, true, EMPTY, zeros + [1.0]).0.ewma == Some(alpha)
  {
    RunConcat(alpha, true, EMPTY, zeros, [1.0]);
    WarmUp(alpha, EMPTY, zeros);
    assert EMPTY.hist + zeros == zeros;
    hide Run;
    RunOne(alpha, true, EMPTY.(hist := zeros), 1.0);
    FirstAverage(alpha, zeros);
  }

  /** The configured smoothing keeps the average in range on every stream exactly when it is at most 1. */
  lemma EwmaInRangeIffConvex(alpha: real)
    requires CanScore(alpha)
    ensures EwmaStaysInRange(alpha) <==> alpha <= 1.0
  {
    hide Run;
    if alpha <= 1.0 {
      forall hw: bool, xs: seq<real>, lo: real, hi: real | forall i :: 0 <= i < |xs| ==> lo <= xs[i] <= hi
        ensures Within(Run(alpha, hw, EMPTY, xs).0, lo, hi)
      {
        RunWithin(alpha, hw, EMPTY, xs, lo, hi);
      }
    } else {
      var zeros := seq(W_MIN, _ => 0.0);
      Overshoot(alpha, zeros);
      assert !Within(Run(alpha, true, EMPTY, zeros + [1.0]).0, 0.0, 1.0);
    }
  }
}
