/** The three tests of the anomaly detector in plain terms: for each metric, exactly which sample is reported,
    what the report says and what the detector remembers. */
module AnomalyTests {
  import opened Arithmetic
  import opened Schemas
  import opened Rounding
  import opened OrderStats
  import opened AnomalyDetection
  import S = StabilityIndex

  /** How far `to` lies beyond `from` on the bad side: low is bad for confidence, high for everything else. */
  function Beyond(m: Metric, from: real, to: real): real {
    if m == AvgConfidence then from - to else to - from
  }

  /** The distances of a history from a point, and their squares. */
  ghost predicate DistancesFrom(ds: seq<real>, past: seq<real>, m: real) {
    |ds| == |past| && forall i :: 0 <= i < |ds| ==> ds[i] == if past[i] >= m then past[i] - m else m - past[i]
  }

  ghost predicate SquaresFrom(qs: seq<real>, past: seq<real>, m: real) {
    |qs| == |past| && forall i :: 0 <= i < |qs| ==> qs[i] == (past[i] - m) * (past[i] - m)
  }

  /** sigma is the standard deviation of the history about its median. */
  ghost predicate Deviation(sigma: real, past: seq<real>) {
    exists qs: seq<real> :: SquaresFrom(qs, past, if past == [] then 0.0 else Median(past)) &&
      sigma >= 0.0 && sigma * sigma * (|past| - 1) as real == S.Sum(qs)
  }

  /** rho is the root of alpha / (2 - alpha). */
  predicate Shrinkage(rho: real, alpha: real) { rho >= 0.0 && rho * rho * (2.0 - alpha) == alpha }

  /** mad is the median distance of the history from its median. */
  ghost predicate MedianDistance(mad: real, past: seq<real>)
    requires past != []
  {
    exists ds: seq<real> :: DistancesFrom(ds, past, Median(past)) && ds != [] && mad == Median(ds)
  }

  /** The new average, from the previous one or, at first, from the median. */
  function Average(alpha: real, ch: Channel, x: real): real
    requires ch.hist != []
  {
    alpha * x + (1.0 - alpha) * (match ch.ewma case Some(v) => v case None => Median(ch.hist))
  }

  predicate FarOut(m: Metric, x: real, past: seq<real>, mad: real)
    requires past != []
  {
    mad > 0.0 && 0.6745 * Beyond(m, Median(past), x) >= 3.5 * mad
  }

  predicate PastFence(m: Metric, x: real, past: seq<real>) {
    var q1, q3 := Percentile(past, 0.25), Percentile(past, 0.75);
    q3 > q1 && Beyond(m, if m == AvgConfidence then q1 else q3, x) > 1.5 * (q3 - q1)
  }

  predicate Shifted(m: Metric, s: real, past: seq<real>, limit: real)
    requires past != []
  {
    limit > 0.0 && Beyond(m, Median(past), s) > 3.0 * limit
  }

  // ---------------------------------------------------------------- the pieces

  lemma MadIs(mad: real, past: seq<real>)
    requires past != [] && MedianDistance(mad, past)
    ensures Mad(past) == mad
  {
    hide Median;
    var ds: seq<real> :| DistancesFrom(ds, past, Median(past)) && ds != [] && mad == Median(ds);
    assert ds == Deviations(past, Median(past));
  }

  lemma ZTest(m: Metric, x: real, past: seq<real>, mad: real)
    requires past != [] && Mad(past) == mad
    ensures Directional(HigherWorse(m), x, past) >= 3.5 <==> FarOut(m, x, past, mad)
    ensures Abs(Directional(HigherWorse(m), x, past)) ==
            if mad > 0.0 then 0.6745 * Abs(x - Median(past)) / mad else 0.0
  {
    hide Mad, Median;
    var d := x - Median(past);
    if mad > 0.0 {
      RatioAtLeast(0.6745 * d, mad, 3.5);
      RatioAtLeast(-(0.6745 * d), mad, 3.5);
      NegateQuotient(0.6745 * d, mad);
      SignedQuotient(0.6745 * d, mad);
    }
  }

  lemma SignedQuotient(n: real, d: real)
    requires d > 0.0
    ensures Abs(n / d) == Abs(n) / d
  {
    if n >= 0.0 { QuotientMonotone(0.0, n, d); } else { QuotientMonotone(n, 0.0, d); NegateQuotient(n, d); }
  }

  lemma Fence(m: Metric, x: real, past: seq<real>)
    ensures IqrBreak(HigherWorse(m), x, past) <==> PastFence(m, x, past)
  {
    hide Percentile;
  }

  lemma {:induction false} SumSquaresIs(qs: seq<real>, past: seq<real>, m: real)
    requires SquaresFrom(qs, past, m)
    ensures SumSquares(past, m) == S.Sum(qs)
  {
    if past != [] { SumSquaresIs(qs[1..], past[1..], m); }
  }

  lemma VarianceIs(sigma: real, past: seq<real>)
    requires |past| >= 2 && Deviation(sigma, past)
    ensures sigma >= 0.0 && sigma * sigma == Variance(past, Median(past))
  {
    hide Median, SumSquares;
    var qs: seq<real> :| SquaresFrom(qs, past, Median(past)) && sigma >= 0.0 &&
      sigma * sigma * (|past| - 1) as real == S.Sum(qs);
    SumSquaresIs(qs, past, Median(past));
    Cancel(sigma * sigma, (|past| - 1) as real);
  }

  lemma ShrinkageIs(rho: real, alpha: real)
    requires CanScore(alpha) && Shrinkage(rho, alpha)
    ensures rho * rho == alpha / (2.0 - alpha)
  {
    Cancel(rho * rho, 2.0 - alpha);
  }

  lemma ControlChart(alpha: real, m: Metric, s: real, past: seq<real>, sigma: real, rho: real)
    requires CanScore(alpha) && |past| >= 2 && Deviation(sigma, past) && Shrinkage(rho, alpha)
    ensures EwmaBreak(alpha, HigherWorse(m), s, past) <==> Shifted(m, s, past, sigma * rho)
  {
    hide Median, Variance, BeyondLimit, Deviation;
    VarianceIs(sigma, past);
    ShrinkageIs(rho, alpha);
    SquaredControlLimit(alpha, Excess(HigherWorse(m), s, Median(past)), Variance(past, Median(past)), sigma, rho);
  }

  // ---------------------------------------------------------------- what is reported

  /** After its warm-up a metric is reported exactly if the sample is 3.5 robust deviations out on the bad
      side, or 1.5 interquartile ranges beyond the quartile, or has moved the average more than three control
      limits; the score is the robust deviation, and the method named is the first test that fired. */
  lemma BreachIff(alpha: real, m: Metric, ch: Channel, x: real, mad: real, sigma: real, rho: real)
    requires 0.0 <= alpha < 2.0 && |ch.hist| >= 12
    requires MedianDistance(mad, ch.hist) && Deviation(sigma, ch.hist) && Shrinkage(rho, alpha)
    ensures var (far, past, shifted) := (FarOut(m, x, ch.hist, mad), PastFence(m, x, ch.hist),
                                         Shifted(m, Average(alpha, ch, x), ch.hist, sigma * rho));
            var (next, report) := Step(alpha, HigherWorse(m), ch, x);
            (report.Some? <==> far || past || shifted) &&
            (report.Some? ==>
               report.value.test == (if far then RobustZScore else if past then Iqr else EwmaChart) &&
               report.value.score == (if mad > 0.0 then 0.6745 * Abs(x - Median(ch.hist)) / mad else 0.0) &&
               report.value.consec == ch.consec + 1 &&
               (report.value.pattern == Sustained <==> ch.consec + 1 >= 5)) &&
            next.ewma == Some(Average(alpha, ch, x)) && next.consec == if far || past || shifted then ch.consec + 1
              else 0
  {
    hide Score, NextEwma, Push, FarOut, PastFence, Shifted, Average, Deviation, MedianDistance, HigherWorse, Shrinkage;
    AverageIs(alpha, ch, x);
    ScoreIs(alpha, m, x, ch.hist, Average(alpha, ch, x), mad, sigma, rho);
  }

  lemma AverageIs(alpha: real, ch: Channel, x: real)
    requires ch.hist != []
    ensures NextEwma(alpha, ch, x) == Average(alpha, ch, x)
  {
    hide Median;
  }

  lemma ScoreIs(alpha: real, m: Metric, x: real, past: seq<real>, s: real, mad: real, sigma: real, rho: real)
    requires CanScore(alpha) && |past| >= 2
    requires MedianDistance(mad, past) && Deviation(sigma, past) && Shrinkage(rho, alpha)
    ensures var (far, beyond, shifted) := (FarOut(m, x, past, mad), PastFence(m, x, past),
                                           Shifted(m, s, past, sigma * rho));
            Score(alpha, HigherWorse(m), x, past, s) ==
            Verdict(far || beyond || shifted, if mad > 0.0 then 0.6745 * Abs(x - Median(past)) / mad else 0.0,
                    if far then RobustZScore else if beyond then Iqr else EwmaChart)
  {
    hide Mad, Median, Directional, IqrBreak, EwmaBreak, FarOut, PastFence, Shifted, Deviation, HigherWorse,
         MedianDistance, Shrinkage;
    MadIs(mad, past);
    ZTest(m, x, past, mad);
    Fence(m, x, past);
    ControlChart(alpha, m, s, past, sigma, rho);
  }

  /** During the warm-up a sample is only stored. */
  lemma WarmUpOnlyStores(alpha: real, m: Metric, ch: Channel, x: real)
    requires 0.0 <= alpha < 2.0 && |ch.hist| < 12
    ensures Step(alpha, HigherWorse(m), ch, x) == (ch.(hist := ch.hist + [x]), None)
  {
    hide Score, NextEwma;
  }

  /** What a report is turned into. */
  lemma DetectionTells(m: Metric, x: real, r: Report)
    ensures var d := Detection(m, x, r);
            d.detector == Detector.AnomalyDetector && d.anomalyDetected && d.metric == Some(Anomaly(m, r.pattern)) &&
            (d.sustained <==> r.pattern == Sustained) &&
            d.observed.Some? && x - 0.0000005 <= d.observed.value <= x + 0.0000005 &&
            d.score.Some? && r.score - 0.00005 <= d.score.value <= r.score + 0.00005
  {
    RoundNear(x, 1000000.0);
    RoundNear(r.score, 10000.0);
  }

  /** The metrics are evaluated in this order, each once. */
  lemma TableOrder()
    ensures METRICS == [ErrorRate, AvgLatency, P95Latency, InferenceFailureRate, AvgConfidence]
  {
  }

  // ---------------------------------------------------------------- an input only the chart sees

  ghost predicate ElevenTensAndEleven(past: seq<real>) {
    |past| == 12 && past[11] == 11.0 && forall i :: 0 <= i < 11 ==> past[i] == 10.0
  }

  lemma TensCount(past: seq<real>)
    requires ElevenTensAndEleven(past)
    ensures CountIn(past, 10.0, 10.0) >= 11
  {
    CountMiddle(past, 0, 10, 10.0);
  }

  lemma TensQuartiles(past: seq<real>)
    requires ElevenTensAndEleven(past)
    ensures Percentile(past, 0.25) == Percentile(past, 0.75) == 10.0
  {
    assert IsSorted(past);
    SortSorts(past);
    SortedUnique(Sort(past), past);
    assert Index(12, 0.25) == 2.75 && Index(12, 0.75) == 8.25;
    hide Sort, Index;
    InterpBetweenNeighbours(past, 2.75);
    InterpBetweenNeighbours(past, 8.25);
  }

  lemma {:induction false} ZerosThenOne(qs: seq<real>, k: nat)
    requires |qs| == k + 1 && qs[k] == 1.0 && forall i :: 0 <= i < k ==> qs[i] == 0.0
    ensures S.Sum(qs) == 1.0
  {
    if k > 0 { ZerosThenOne(qs[1..], k - 1); }
  }

  lemma TensVariance(past: seq<real>)
    requires ElevenTensAndEleven(past)
    ensures Variance(past, 10.0) == 1.0 / 11.0
  {
    var qs := seq(12, i => if i < 11 then 0.0 else 1.0);
    SumSquaresIs(qs, past, 10.0);
    ZerosThenOne(qs, 11);
    hide SumSquares;
  }

  /** A shift of a latency from 10 to 20 that neither the z-test nor the fence can see, for the history has no
      spread in its middle, is reported by the control chart. */
  lemma OnlyTheChartSees(past: seq<real>)
    requires ElevenTensAndEleven(past)
    ensures var report := Step(0.3, HigherWorse(AvgLatency), Channel(past, None, 0), 20.0).1;
            report.Some? && report.value.test == EwmaChart && report.value.pattern == Spike
  {
    TensCount(past);
    TensQuartiles(past);
    TensVariance(past);
    hide CountIn, Median, Mad, Percentile, Variance, Push;
    MedianBreakdown(past, 10.0, 10.0);
    MadBreakdown(past, 10.0, 10.0);
    assert Smooth(0.3, 20.0, 10.0) == 13.0;
    assert BeyondLimit(0.3, 3.0, 1.0 / 11.0);
  }
}
