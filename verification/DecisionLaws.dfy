/** Laws of the severity pipeline. */
module DecisionLaws {
  import opened Schemas
  import opened Rounding
  import opened Decisions

  /** The severity of a list is an upper bound of its breaching signals, reached by one of them. */
  lemma {:induction false} MaxSeverityIsMax(cfg: Settings, ds: seq<DetectionResult>)
    requires ds != []
    ensures exists d :: d in ds && MaxSeverity(cfg, ds) == ClassifyDetection(cfg, d)
    ensures forall d :: d in ds ==> Rank(ClassifyDetection(cfg, d)) <= Rank(MaxSeverity(cfg, ds))
  {
    hide ClassifyDetection;
    assert ds[0] in ds;
    if |ds| > 1 {
      MaxSeverityIsMax(cfg, ds[1..]);
      assert ds == [ds[0]] + ds[1..];
    }
  }

  lemma ClassifyIsMax(cfg: Settings, ds: seq<DetectionResult>)
    ensures forall d :: d in ds && d.anomalyDetected ==> Rank(ClassifyDetection(cfg, d)) <= Rank(Classify(cfg, ds))
    ensures Classify(cfg, ds) == Low ||
            exists d :: d in ds && d.anomalyDetected && Classify(cfg, ds) == ClassifyDetection(cfg, d)
  {
    hide ClassifyDetection;
    if Breaching(ds) != [] { MaxSeverityIsMax(cfg, Breaching(ds)); }
  }

  lemma RankInjective(a: Severity, b: Severity)
    ensures Rank(a) == Rank(b) ==> a == b
    ensures Rank(a) >= 1
  {
  }

  /** Whatever is claimed of a severity that bounds every breaching signal and is reached holds of
      Classify. */
  lemma ClassifyIs(cfg: Settings, ds: seq<DetectionResult>, s: Severity)
    requires forall d :: d in ds && d.anomalyDetected ==> Rank(ClassifyDetection(cfg, d)) <= Rank(s)
    requires s == Low || exists d :: d in ds && d.anomalyDetected && s == ClassifyDetection(cfg, d)
    ensures Classify(cfg, ds) == s
  {
    hide ClassifyDetection, Classify;
    ClassifyIsMax(cfg, ds);
    RankInjective(Classify(cfg, ds), s);
  }

  /** Classification turns concatenation of evidence into maximum. */
  lemma ClassifyConcat(cfg: Settings, a: seq<DetectionResult>, b: seq<DetectionResult>)
    ensures Classify(cfg, a + b) == Worse(Classify(cfg, a), Classify(cfg, b))
  {
    hide ClassifyDetection, Classify;
    ClassifyIsMax(cfg, a);
    ClassifyIsMax(cfg, b);
    RankInjective(Classify(cfg, a), Classify(cfg, b));
    ClassifyIs(cfg, a + b, Worse(Classify(cfg, a), Classify(cfg, b)));
  }

  /** No combination of signals is ever CRITICAL. */
  lemma NeverCritical(cfg: Settings, ds: seq<DetectionResult>)
    ensures Classify(cfg, ds) != Critical
  {
    ClassifyIsMax(cfg, ds);
    forall d ensures ClassifyDetection(cfg, d) != Critical { NotCritical(cfg, d); }
  }

  lemma NotCritical(cfg: Settings, d: DetectionResult)
    ensures ClassifyDetection(cfg, d) != Critical
  {
  }

  /** A decision carries evidence exactly when something breached, and then its severity is the severity
      of that evidence. */
  lemma EvidenceMatchesSeverity(cfg: Settings, ds: seq<DetectionResult>, active: ModelName, backup: ModelName,
                                backupHealthy: bool, gated: bool)
    ensures var d := MakeDecision(cfg, ds, active, backup, backupHealthy, gated);
            (d.evidence.Some? <==> exists x :: x in ds && x.anomalyDetected) &&
            (d.evidence.Some? ==> d.evidence.value in ds && d.evidence.value.anomalyDetected &&
                                  d.severity == ClassifyDetection(cfg, d.evidence.value)) &&
            (d.evidence.None? ==> d.severity == Low)
  {
    hide ClassifyDetection;
    var b := Breaching(ds);
    if b != [] {
      assert b[0] in b;
      ClassifyIs(cfg, ds, ClassifyDetection(cfg, MaxDetection(cfg, b)));
    }
  }

  /** Ties go to the earliest signal. */
  lemma {:induction false} EvidenceIsFirstWorst(cfg: Settings, ds: seq<DetectionResult>)
    requires ds != []
    ensures exists i :: 0 <= i < |ds| && ds[i] == MaxDetection(cfg, ds) &&
              forall j :: 0 <= j < i ==> Rank(ClassifyDetection(cfg, ds[j])) < Rank(ClassifyDetection(cfg, ds[i]))
  {
    hide ClassifyDetection, Rank;
    if |ds| == 1 || MaxDetection(cfg, ds) == ds[0] {
      assert ds[0] == MaxDetection(cfg, ds);
    } else {
      EvidenceIsFirstWorst(cfg, ds[1..]);
      var i :| 0 <= i < |ds[1..]| && ds[1..][i] == MaxDetection(cfg, ds[1..]) &&
        forall j :: 0 <= j < i ==> Rank(ClassifyDetection(cfg, ds[1..][j])) < Rank(ClassifyDetection(cfg, ds[1..][i]));
      forall j | 0 <= j < i + 1 ensures Rank(ClassifyDetection(cfg, ds[j])) < Rank(ClassifyDetection(cfg, ds[i + 1])) {
        if j > 0 { assert ds[j] == ds[1..][j - 1]; }
      }
      assert ds[i + 1] == MaxDetection(cfg, ds);
    }
  }

  // ---------------------------------------------------------------- one finding

  predicate IsRate(m: Option<Signal>) { m == Some(Breach(ErrorRate)) || m == Some(Breach(InferenceFailureRate)) }

  /** A finding is HIGH exactly if it is a threshold finding beyond the configured value of its signal, half
      of the features drifted, or accuracy dropped by ten points. */
  lemma HighFindings(cfg: Settings, d: DetectionResult)
    ensures var v := if d.observed.Some? then d.observed.value else 0.0;
            var w := if d.score.Some? then d.score.value else 0.0;
            ClassifyDetection(cfg, d) == High <==>
            (d.detector.ThresholdDetector? &&
             ((IsRate(d.metric) && v > cfg.errorRateThreshold) ||
              (d.metric == Some(Breach(P95Latency)) && v > cfg.p95Threshold) ||
              (d.metric == Some(Breach(AvgConfidence)) && v < cfg.confidenceFloor) ||
              (d.metric == Some(LowConfidenceRatio) && v >= cfg.lowConfidenceHigh) ||
              (d.metric == Some(ServiceUp) && v >= cfg.failuresToSwitch as real))) ||
            (d.detector.DriftDetector? &&
             ((d.metric == Some(DataDriftAggregate) && w >= 0.5) || (d.metric == Some(ConceptDriftPerf) && w >= 0.1)))
  {
  }

  /** It is above LOW exactly if it is HIGH, a threshold finding beyond the fixed middle value of its signal, a
      service that is down, a sustained anomaly, three tenths of the features drifted, or a drop in accuracy that
      breaches. Anything else, a finding of an unknown detector or on an unknown signal included, is LOW. */
  lemma RaisedFindings(cfg: Settings, d: DetectionResult)
    ensures var v := if d.observed.Some? then d.observed.value else 0.0;
            var w := if d.score.Some? then d.score.value else 0.0;
            ClassifyDetection(cfg, d) != Low <==>
            ClassifyDetection(cfg, d) == High ||
            (d.detector.ThresholdDetector? &&
             ((IsRate(d.metric) && v > 0.03) || (d.metric == Some(Breach(P95Latency)) && v > 300.0) ||
              (d.metric == Some(Breach(AvgConfidence)) && v < cfg.confidenceMedFloor) ||
              (d.metric == Some(LowConfidenceRatio) && v >= cfg.lowConfidenceMed) || d.metric == Some(ServiceUp))) ||
            (d.detector.AnomalyDetector? && d.sustained) ||
            (d.detector.DriftDetector? &&
             ((d.metric == Some(DataDriftAggregate) && w >= 0.3) ||
              (d.metric == Some(ConceptDriftPerf) && d.anomalyDetected)))
  {
  }

  /** The shipped bands: HIGH above an error rate of 10 percent or a p95 of 800 ms, or below a confidence of
      0.55, or at two failures in a row; MEDIUM above 3 percent or 300 ms, or below 0.70, or at one. */
  lemma ShippedBands(v: real)
    ensures var at := (m: Signal) => ClassifyDetection(DEFAULTS, Threshold(m, v));
            at(Breach(ErrorRate)) == at(Breach(InferenceFailureRate)) == Band(v > 0.10, v > 0.03) &&
            at(Breach(P95Latency)) == Band(v > 800.0, v > 300.0) &&
            at(Breach(AvgConfidence)) == Band(v < 0.55, v < 0.70) && at(ServiceUp) == Band(v >= 2.0, true) &&
            at(LowConfidenceRatio) == Band(v >= 0.40, v >= 0.20)
  {
  }

  // ---------------------------------------------------------------- emission floors and bands

  /** The detector's floor on a rate hides nothing the classifier would raise exactly if the configured
      threshold is not below that floor. */
  lemma RateFloorAligned(cfg: Settings, m: Metric)
    requires m == ErrorRate || m == InferenceFailureRate
    ensures (forall r: real :: r <= FLOOR ==> ClassifyDetection(cfg, Threshold(Breach(m), Round6(r))) == Low) <==>
            cfg.errorRateThreshold >= FLOOR
  {
    hide Round;
    RoundExact(FLOOR, 1000000.0, 10000);
    assert Round6(FLOOR) == FLOOR;
    forall r: real | r <= FLOOR ensures Round6(r) <= FLOOR { RoundMonotone(r, FLOOR, 1000000.0); }
  }

  lemma LatencyFloorAligned(cfg: Settings)
    ensures (forall r: real :: r <= P95_FLOOR ==>
             ClassifyDetection(cfg, Threshold(Breach(P95Latency), Round(r, 1000.0))) == Low) <==>
            cfg.p95Threshold >= P95_FLOOR
  {
    hide Round;
    RoundExact(P95_FLOOR, 1000.0, 150000);
    forall r: real | r <= P95_FLOOR ensures Round(r, 1000.0) <= P95_FLOOR { RoundMonotone(r, P95_FLOOR, 1000.0); }
  }

  /** For confidence the notable edge, brought to six decimals from above, must not lie below either band
      edge. */
  lemma ConfidenceEdgeAligned(cfg: Settings)
    ensures var edge := NearestFromAbove(cfg.confidenceNotableFloor * 1000000.0) as real / 1000000.0;
            (forall c: real :: c > cfg.confidenceNotableFloor ==>
               ClassifyDetection(cfg, Threshold(Breach(AvgConfidence), Round6(c))) == Low) <==>
            edge >= cfg.confidenceFloor && edge >= cfg.confidenceMedFloor
  {
    hide NearestFromAbove;
    var e := cfg.confidenceNotableFloor * 1000000.0;
    var edge := NearestFromAbove(e) as real / 1000000.0;
    forall c: real | c > cfg.confidenceNotableFloor ensures Round6(c) >= edge { NearestAbove(e, c * 1000000.0); }
    var y := NearestJustAbove(e);
    assert y / 1000000.0 > cfg.confidenceNotableFloor && Round6(y / 1000000.0) == edge;
  }

  // ---------------------------------------------------------------- what a finding says

  /** A threshold finding. */
  function Beyond(metric: Signal, observed: real, score: Option<real>): DetectionResult {
    DetectionResult(ThresholdDetector, true, Some(metric), Some(observed), score, false)
  }

  lemma InSignals(cfg: Settings, ctx: Context, d: DetectionResult)
    ensures d in Signals(cfg, ctx) <==>
            d in HealthSignal(ctx) || d in RateSignal(InferenceFailureRate, ctx.failureRate) ||
            (ctx.metrics.Some? &&
             (d in RateSignal(ErrorRate, ctx.metrics.value.errorRate) ||
              d in LatencySignal(ctx.metrics.value.p95Latency) ||
              d in ConfidenceSignal(cfg, ctx.metrics.value.avgConfidence) ||
              d in LowConfidenceSignal(cfg, ctx.lowConfidenceRatio)))
  {
    hide HealthSignal, RateSignal, LatencySignal, ConfidenceSignal, LowConfidenceSignal;
  }

  /** The threshold detector reports a signal exactly if it lies beyond its floor, each under its own name and
      with its rounded value. */
  lemma SignalsAre(cfg: Settings, ctx: Context, d: DetectionResult)
    ensures d in Signals(cfg, ctx) <==>
            ((!ctx.health.reachable || ctx.health.status == Unhealthy) &&
             d == Beyond(ServiceUp, ctx.healthFailures as real, None)) ||
            (ctx.failureRate > 0.01 &&
             d == Beyond(Breach(InferenceFailureRate), Round(ctx.failureRate, 1000000.0), None)) ||
            (ctx.metrics.Some? && ctx.metrics.value.errorRate > 0.01 &&
             d == Beyond(Breach(ErrorRate), Round(ctx.metrics.value.errorRate, 1000000.0), None)) ||
            (ctx.metrics.Some? && ctx.metrics.value.p95Latency > 150.0 &&
             d == Beyond(Breach(P95Latency), Round(ctx.metrics.value.p95Latency, 1000.0), None)) ||
            (ctx.metrics.Some? && 0.0 < ctx.metrics.value.avgConfidence <= cfg.confidenceNotableFloor &&
             d == Beyond(Breach(AvgConfidence), Round(ctx.metrics.value.avgConfidence, 1000000.0), None)) ||
            (ctx.metrics.Some? && cfg.confidenceGating && ctx.lowConfidenceRatio >= cfg.lowConfidenceMed &&
             d == Beyond(LowConfidenceRatio, Round(ctx.lowConfidenceRatio, 1000000.0),
                         Some(Round(ctx.lowConfidenceRatio, 1000000.0))))
  {
    hide Round, Signals;
    InSignals(cfg, ctx, d);
  }

  // ---------------------------------------------------------------- the severity table

  /** What each signal must show for HIGH, and for more than LOW, in terms of the observation. */
  predicate ServiceHigh(cfg: Settings, ctx: Context) { Down(ctx.health) && ctx.healthFailures >= cfg.failuresToSwitch }

  predicate RateHigh(cfg: Settings, r: real) { r > FLOOR && Round6(r) > cfg.errorRateThreshold }

  predicate RateRaised(cfg: Settings, r: real) { RateHigh(cfg, r) || (r > FLOOR && Round6(r) > 0.03) }

  predicate LatencyHigh(cfg: Settings, p95: real) { p95 > P95_FLOOR && Round(p95, 1000.0) > cfg.p95Threshold }

  predicate LatencyRaised(cfg: Settings, p95: real) {
    LatencyHigh(cfg, p95) || (p95 > P95_FLOOR && Round(p95, 1000.0) > P95_MED)
  }

  predicate ConfidenceHigh(cfg: Settings, c: real) {
    0.0 < c <= cfg.confidenceNotableFloor && Round6(c) < cfg.confidenceFloor
  }

  predicate ConfidenceRaised(cfg: Settings, c: real) {
    ConfidenceHigh(cfg, c) || (0.0 < c <= cfg.confidenceNotableFloor && Round6(c) < cfg.confidenceMedFloor)
  }

  predicate LowShareHigh(cfg: Settings, r: real) {
    cfg.confidenceGating && r >= cfg.lowConfidenceMed && Round6(r) >= cfg.lowConfidenceHigh
  }

  predicate LowShareRaised(cfg: Settings, r: real) {
    LowShareHigh(cfg, r) || (cfg.confidenceGating && r >= cfg.lowConfidenceMed && Round6(r) >= cfg.lowConfidenceMed)
  }

  /** Some signal other than the mean confidence is HIGH, or above LOW. */
  predicate HighElsewhere(cfg: Settings, ctx: Context) {
    ServiceHigh(cfg, ctx) || RateHigh(cfg, ctx.failureRate) ||
    (ctx.metrics.Some? &&
     (RateHigh(cfg, ctx.metrics.value.errorRate) || LatencyHigh(cfg, ctx.metrics.value.p95Latency) ||
                           LowShareHigh(cfg, ctx.lowConfidenceRatio)))
  }

  predicate RaisedElsewhere(cfg: Settings, ctx: Context) {
    Down(ctx.health) || RateRaised(cfg, ctx.failureRate) ||
    (ctx.metrics.Some? &&
     (RateRaised(cfg, ctx.metrics.value.errorRate) || LatencyRaised(cfg, ctx.metrics.value.p95Latency) ||
                           LowShareRaised(cfg, ctx.lowConfidenceRatio)))
  }

  function Band(high: bool, raised: bool): Severity {
    if high then Severity.High else if raised then Medium else Low
  }

  lemma BandJoin(cfg: Settings, a: seq<DetectionResult>, b: seq<DetectionResult>, h: bool, r: bool, h': bool, r': bool)
    requires Classify(cfg, a) == Band(h, r) && Classify(cfg, b) == Band(h', r') && (h ==> r) && (h' ==> r')
    ensures Classify(cfg, a + b) == Band(h || h', r || r')
  {
    hide Classify;
    ClassifyConcat(cfg, a, b);
  }

  lemma SignalBands(cfg: Settings, ctx: Context, m: Metric, rate: real, p95: real, c: real, low: real)
    requires m == ErrorRate || m == InferenceFailureRate
    ensures Classify(cfg, HealthSignal(ctx)) == Band(ServiceHigh(cfg, ctx), Down(ctx.health))
    ensures Classify(cfg, RateSignal(m, rate)) == Band(RateHigh(cfg, rate), RateRaised(cfg, rate))
    ensures Classify(cfg, LatencySignal(p95)) == Band(LatencyHigh(cfg, p95), LatencyRaised(cfg, p95))
    ensures Classify(cfg, ConfidenceSignal(cfg, c)) == Band(ConfidenceHigh(cfg, c), ConfidenceRaised(cfg, c))
    ensures Classify(cfg, LowConfidenceSignal(cfg, low)) == Band(LowShareHigh(cfg, low), LowShareRaised(cfg, low))
  {
    hide Classify, Round;
    ClassifyWhen(cfg, Down(ctx.health), Threshold(ServiceUp, ctx.healthFailures as real));
    ClassifyWhen(cfg, rate > FLOOR, Threshold(Breach(m), Round6(rate)));
    ClassifyWhen(cfg, p95 > P95_FLOOR, Threshold(Breach(P95Latency), Round(p95, 1000.0)));
    ClassifyWhen(cfg, 0.0 < c <= cfg.confidenceNotableFloor, Threshold(Breach(AvgConfidence), Round6(c)));
    ClassifyWhen(cfg, cfg.confidenceGating && low >= cfg.lowConfidenceMed,
                 DetectionResult(ThresholdDetector, true, Some(LowConfidenceRatio), Some(Round6(low)),
                                 Some(Round6(low)), false));
  }

  /** The severity of the threshold channel, read off the observation and the settings. */
  lemma SeverityTable(cfg: Settings, ctx: Context)
    ensures var c := if ctx.metrics.Some? then ctx.metrics.value.avgConfidence else 0.0;
            Classify(cfg, Signals(cfg, ctx)) ==
            Band(HighElsewhere(cfg, ctx) || ConfidenceHigh(cfg, c),
                 RaisedElsewhere(cfg, ctx) || ConfidenceRaised(cfg, c))
  {
    hide Classify, Round, Round6, HealthSignal, RateSignal, LatencySignal, ConfidenceSignal, LowConfidenceSignal, Band;
    var f, low := ctx.failureRate, ctx.lowConfidenceRatio;
    SignalBands(cfg, ctx, InferenceFailureRate, f, 0.0, 0.0, low);
    BandJoin(cfg, HealthSignal(ctx), RateSignal(InferenceFailureRate, f), ServiceHigh(cfg, ctx), Down(ctx.health),
             RateHigh(cfg, f), RateRaised(cfg, f));
    if ctx.metrics.Some? {
      var m := ctx.metrics.value;
      SignalBands(cfg, ctx, ErrorRate, m.errorRate, m.p95Latency, m.avgConfidence, low);
      var s := OutsideSignals(ctx);
      var h, r := ServiceHigh(cfg, ctx) || RateHigh(cfg, f), Down(ctx.health) || RateRaised(cfg, f);
      BandJoin(cfg, s, RateSignal(ErrorRate, m.errorRate), h, r, RateHigh(cfg, m.errorRate),
               RateRaised(cfg, m.errorRate));
      s := s + RateSignal(ErrorRate, m.errorRate);
      h, r := h || RateHigh(cfg, m.errorRate), r || RateRaised(cfg, m.errorRate);
      BandJoin(cfg, s, LatencySignal(m.p95Latency), h, r, LatencyHigh(cfg, m.p95Latency),
               LatencyRaised(cfg, m.p95Latency));
      s := s + LatencySignal(m.p95Latency);
      h, r := h || LatencyHigh(cfg, m.p95Latency), r || LatencyRaised(cfg, m.p95Latency);
      BandJoin(cfg, s, ConfidenceSignal(cfg, m.avgConfidence), h, r,
               ConfidenceHigh(cfg, m.avgConfidence), ConfidenceRaised(cfg, m.avgConfidence));
      s := s + ConfidenceSignal(cfg, m.avgConfidence);
      h, r := h || ConfidenceHigh(cfg, m.avgConfidence), r || ConfidenceRaised(cfg, m.avgConfidence);
      BandJoin(cfg, s, LowConfidenceSignal(cfg, low), h, r, LowShareHigh(cfg, low), LowShareRaised(cfg, low));
    }
  }

  // ---------------------------------------------------------------- monotone, end to end

  /** The second observation is at least as bad in every signal; a confidence may only fall to a positive
      value. */
  predicate AtLeastAsBad(x: Context, y: Context) {
    (Down(x.health) ==> Down(y.health)) && x.healthFailures <= y.healthFailures &&
    x.failureRate <= y.failureRate && x.lowConfidenceRatio <= y.lowConfidenceRatio &&
    (x.metrics.None? <==> y.metrics.None?) &&
    (x.metrics.Some? ==>
      x.metrics.value.errorRate <= y.metrics.value.errorRate &&
      x.metrics.value.p95Latency <= y.metrics.value.p95Latency &&
      (y.metrics.value.avgConfidence == x.metrics.value.avgConfidence ||
       0.0 < y.metrics.value.avgConfidence <= x.metrics.value.avgConfidence))
  }

  predicate NoLower(cfg: Settings, a: seq<DetectionResult>, b: seq<DetectionResult>) {
    Rank(Classify(cfg, a)) <= Rank(Classify(cfg, b))
  }

  lemma ClassifyWhen(cfg: Settings, c: bool, d: DetectionResult)
    requires d.anomalyDetected
    ensures Classify(cfg, When(c, d)) == if c then ClassifyDetection(cfg, d) else Low
  {
    hide ClassifyDetection;
    if c { ClassifyIs(cfg, [d], ClassifyDetection(cfg, d)); }
  }

  lemma HealthMonotone(cfg: Settings, x: Context, y: Context)
    requires (Down(x.health) ==> Down(y.health)) && x.healthFailures <= y.healthFailures
    ensures NoLower(cfg, HealthSignal(x), HealthSignal(y))
  {
    hide Classify;
    ClassifyWhen(cfg, Down(x.health), Threshold(ServiceUp, x.healthFailures as real));
    ClassifyWhen(cfg, Down(y.health), Threshold(ServiceUp, y.healthFailures as real));
  }

  lemma RateMonotone(cfg: Settings, m: Metric, r: real, s: real)
    requires (m == ErrorRate || m == InferenceFailureRate) && r <= s
    ensures NoLower(cfg, RateSignal(m, r), RateSignal(m, s))
  {
    hide Classify, Round;
    RoundMonotone(r, s, 1000000.0);
    ClassifyWhen(cfg, r > FLOOR, Threshold(Breach(m), Round6(r)));
    ClassifyWhen(cfg, s > FLOOR, Threshold(Breach(m), Round6(s)));
  }

  lemma LatencyMonotone(cfg: Settings, r: real, s: real)
    requires r <= s
    ensures NoLower(cfg, LatencySignal(r), LatencySignal(s))
  {
    hide Classify, Round;
    RoundMonotone(r, s, 1000.0);
    ClassifyWhen(cfg, r > P95_FLOOR, Threshold(Breach(P95Latency), Round(r, 1000.0)));
    ClassifyWhen(cfg, s > P95_FLOOR, Threshold(Breach(P95Latency), Round(s, 1000.0)));
  }

  lemma LowConfidenceMonotone(cfg: Settings, r: real, s: real)
    requires r <= s
    ensures NoLower(cfg, LowConfidenceSignal(cfg, r), LowConfidenceSignal(cfg, s))
  {
    hide Classify, Round;
    RoundMonotone(r, s, 1000000.0);
    ClassifyWhen(cfg, cfg.confidenceGating && r >= cfg.lowConfidenceMed,
                 DetectionResult(ThresholdDetector, true, Some(LowConfidenceRatio), Some(Round6(r)), Some(Round6(r)),
                                 false));
    ClassifyWhen(cfg, cfg.confidenceGating && s >= cfg.lowConfidenceMed,
                 DetectionResult(ThresholdDetector, true, Some(LowConfidenceRatio), Some(Round6(s)), Some(Round6(s)),
                                 false));
  }

  /** A falling mean confidence never lowers its severity exactly when it stays positive or was not below
      a band edge: a collapse to 0 reads as "no data" and silences the signal. */
  lemma ConfidenceFall(cfg: Settings, c: real, d: real)
    requires d <= c
    ensures NoLower(cfg, ConfidenceSignal(cfg, c), ConfidenceSignal(cfg, d)) <==> d > 0.0 || !ConfidenceRaised(cfg, c)
  {
    hide Classify, Round;
    RoundMonotone(d, c, 1000000.0);
    ClassifyWhen(cfg, 0.0 < c <= cfg.confidenceNotableFloor, Threshold(Breach(AvgConfidence), Round6(c)));
    ClassifyWhen(cfg, 0.0 < d <= cfg.confidenceNotableFloor, Threshold(Breach(AvgConfidence), Round6(d)));
  }

  function WithConfidence(ctx: Context, d: real): Context
    requires ctx.metrics.Some?
  {
    ctx.(metrics := Some(ctx.metrics.value.(avgConfidence := d)))
  }

  /** End to end, whatever the other detectors add: when only the mean confidence falls, overall severity does
      not drop exactly if it stays positive, or every band it was in is also reached by another signal. */
  lemma ConfidenceFallOverall(cfg: Settings, ctx: Context, d: real, rest: seq<DetectionResult>)
    requires ctx.metrics.Some? && d <= ctx.metrics.value.avgConfidence
    ensures var c := ctx.metrics.value.avgConfidence;
            NoLower(cfg, Signals(cfg, ctx) + rest, Signals(cfg, WithConfidence(ctx, d)) + rest) <==>
            d > 0.0 ||
              ((ConfidenceHigh(cfg, c) ==> HighElsewhere(cfg, ctx) || Classify(cfg, rest) == High) &&
               (ConfidenceRaised(cfg, c) ==> RaisedElsewhere(cfg, ctx) || Classify(cfg, rest) != Low))
  {
    hide Classify, Round, Signals;
    var y := WithConfidence(ctx, d);
    SeverityTable(cfg, ctx);
    SeverityTable(cfg, y);
    ClassifyConcat(cfg, Signals(cfg, ctx), rest);
    ClassifyConcat(cfg, Signals(cfg, y), rest);
    NeverCritical(cfg, rest);
    RoundMonotone(d, ctx.metrics.value.avgConfidence, 1000000.0);
  }

  function Quiet(confidence: real): Context {
    Context(Some(MetricSnapshot("model_a", "1", 100, 0.0, 20.0, 20.0, confidence)), HealthProbe(true, Healthy), 0,
            0.0, 0.0)
  }

  /** With the shipped settings, a mean confidence of 0.5 is HIGH and a collapse to 0 is LOW. */
  lemma ConfidenceCollapse()
    ensures Classify(DEFAULTS, Signals(DEFAULTS, Quiet(0.5))) == High
    ensures Classify(DEFAULTS, Signals(DEFAULTS, Quiet(0.0))) == Low
  {
    SeverityTable(DEFAULTS, Quiet(0.5));
    SeverityTable(DEFAULTS, Quiet(0.0));
    RoundExact(0.5, 1000000.0, 500000);
    hide Classify, Round, Signals;
  }

  lemma NoLowerConcat(cfg: Settings, a: seq<DetectionResult>, b: seq<DetectionResult>, c: seq<DetectionResult>,
                      d: seq<DetectionResult>)
    requires NoLower(cfg, a, c) && NoLower(cfg, b, d)
    ensures NoLower(cfg, a + b, c + d)
  {
    hide Classify;
    ClassifyConcat(cfg, a, b);
    ClassifyConcat(cfg, c, d);
  }

  lemma ConfidenceNoLower(cfg: Settings, c: real, d: real)
    requires d == c || 0.0 < d <= c
    ensures NoLower(cfg, ConfidenceSignal(cfg, c), ConfidenceSignal(cfg, d))
  {
    hide ConfidenceSignal, Classify;
    if d != c { ConfidenceFall(cfg, c, d); }
  }

  lemma OutsideMonotone(cfg: Settings, x: Context, y: Context)
    requires AtLeastAsBad(x, y)
    ensures NoLower(cfg, OutsideSignals(x), OutsideSignals(y))
  {
    hide NoLower, HealthSignal, RateSignal;
    HealthMonotone(cfg, x, y);
    RateMonotone(cfg, InferenceFailureRate, x.failureRate, y.failureRate);
    NoLowerConcat(cfg, HealthSignal(x), RateSignal(InferenceFailureRate, x.failureRate),
                  HealthSignal(y), RateSignal(InferenceFailureRate, y.failureRate));
  }

  /** For any settings, detection followed by classification never drops when the observation gets
      worse. */
  lemma SeverityMonotone(cfg: Settings, x: Context, y: Context)
    requires AtLeastAsBad(x, y)
    ensures NoLower(cfg, Signals(cfg, x), Signals(cfg, y))
  {
    hide NoLower, OutsideSignals, RateSignal, LatencySignal, ConfidenceSignal, LowConfidenceSignal;
    OutsideMonotone(cfg, x, y);
    if x.metrics.Some? {
      var m, n := x.metrics.value, y.metrics.value;
      RateMonotone(cfg, ErrorRate, m.errorRate, n.errorRate);
      LatencyMonotone(cfg, m.p95Latency, n.p95Latency);
      ConfidenceNoLower(cfg, m.avgConfidence, n.avgConfidence);
      LowConfidenceMonotone(cfg, x.lowConfidenceRatio, y.lowConfidenceRatio);
      var a, b := OutsideSignals(x), OutsideSignals(y);
      NoLowerConcat(cfg, a, RateSignal(ErrorRate, m.errorRate), b, RateSignal(ErrorRate, n.errorRate));
      a, b := a + RateSignal(ErrorRate, m.errorRate), b + RateSignal(ErrorRate, n.errorRate);
      NoLowerConcat(cfg, a, LatencySignal(m.p95Latency), b, LatencySignal(n.p95Latency));
      a, b := a + LatencySignal(m.p95Latency), b + LatencySignal(n.p95Latency);
      NoLowerConcat(cfg, a, ConfidenceSignal(cfg, m.avgConfidence), b, ConfidenceSignal(cfg, n.avgConfidence));
      a, b := a + ConfidenceSignal(cfg, m.avgConfidence), b + ConfidenceSignal(cfg, n.avgConfidence);
      NoLowerConcat(cfg, a, LowConfidenceSignal(cfg, x.lowConfidenceRatio), b,
                    LowConfidenceSignal(cfg, y.lowConfidenceRatio));
    }
  }

  /** A service that is down is at least MEDIUM, and HIGH from the configured number of failures on,
      whatever the other detectors add. */
  lemma DownIsSevere(cfg: Settings, ctx: Context, rest: seq<DetectionResult>)
    requires Down(ctx.health)
    ensures Classify(cfg, Signals(cfg, ctx) + rest) != Low
    ensures ctx.healthFailures >= cfg.failuresToSwitch ==> Classify(cfg, Signals(cfg, ctx) + rest) == High
  {
    hide Classify, RateSignal, LatencySignal, ConfidenceSignal, LowConfidenceSignal;
    var ds := Signals(cfg, ctx) + rest;
    var d := Threshold(ServiceUp, ctx.healthFailures as real);
    assert d in ds by { assert ds[0] == d; }
    ClassifyIsMax(cfg, ds);
    NeverCritical(cfg, ds);
  }
}
