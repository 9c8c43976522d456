/** From signals to a decision: the static threshold detector, the severity bands, the policy table and
    the decision that carries its worst evidence. */
module Decisions {
  import opened Schemas
  import opened Rounding

  const FLOOR := 0.01
  const P95_FLOOR := 150.0
  const P95_MED := 300.0
  const DRIFT_SHARE_MED := 0.30
  const DRIFT_SHARE_HIGH := 0.50

  // ---------------------------------------------------------------- threshold detector

  /** What the observe phase hands to the detectors. */
  datatype Context = Context(
    metrics: Option<MetricSnapshot>,
    health: HealthProbe,
    healthFailures: nat,
    failureRate: real,
    lowConfidenceRatio: real)

  predicate Down(h: HealthProbe) { !h.reachable || h.status == Unhealthy }

  function Threshold(metric: Signal, observed: real): DetectionResult {
    DetectionResult(ThresholdDetector, true, Some(metric), Some(observed), None, false)
  }

  function When(c: bool, d: DetectionResult): seq<DetectionResult> { if c then [d] else [] }

  function Round6(x: real): real { Round(x, 1000000.0) }

  function HealthSignal(ctx: Context): seq<DetectionResult> {
    When(Down(ctx.health), Threshold(ServiceUp, ctx.healthFailures as real))
  }

  function RateSignal(metric: Metric, rate: real): seq<DetectionResult> {
    When(rate > FLOOR, Threshold(Breach(metric), Round6(rate)))
  }

  function LatencySignal(p95: real): seq<DetectionResult> {
    When(p95 > P95_FLOOR, Threshold(Breach(P95Latency), Round(p95, 1000.0)))
  }

  /** Lower confidence is worse, and 0 means no data. */
  function ConfidenceSignal(cfg: Settings, c: real): seq<DetectionResult> {
    When(0.0 < c <= cfg.confidenceNotableFloor, Threshold(Breach(AvgConfidence), Round6(c)))
  }

  function LowConfidenceSignal(cfg: Settings, r: real): seq<DetectionResult> {
    When(cfg.confidenceGating && r >= cfg.lowConfidenceMed,
         DetectionResult(ThresholdDetector, true, Some(LowConfidenceRatio), Some(Round6(r)), Some(Round6(r)), false))
  }

  /** The signals that need none of the service's own metrics. */
  function OutsideSignals(ctx: Context): seq<DetectionResult> {
    HealthSignal(ctx) + RateSignal(InferenceFailureRate, ctx.failureRate)
  }

  function Signals(cfg: Settings, ctx: Context): seq<DetectionResult> {
    if ctx.metrics.None? then OutsideSignals(ctx)
    else
      var m := ctx.metrics.value;
      OutsideSignals(ctx) + RateSignal(ErrorRate, m.errorRate) + LatencySignal(m.p95Latency) +
      ConfidenceSignal(cfg, m.avgConfidence) + LowConfidenceSignal(cfg, ctx.lowConfidenceRatio)
  }

  lemma AppendNone(s: seq<DetectionResult>)
    ensures s + [] == s
  {
  }

  /** The detector, appending one finding per signal beyond its floor. */
  method Detect(cfg: Settings, ctx: Context) returns (results: seq<DetectionResult>)
    ensures results == Signals(cfg, ctx)
  {
    hide Round6, Round;
    results := [];
    if !ctx.health.reachable || ctx.health.status == Unhealthy {
      results := results + [Threshold(ServiceUp, ctx.healthFailures as real)];
    }
    AppendNone(results);
    if ctx.failureRate > FLOOR {
      results := results + [Threshold(Breach(InferenceFailureRate), Round6(ctx.failureRate))];
    }
    assert results == OutsideSignals(ctx);
    if ctx.metrics.None? { return; }
    var m := ctx.metrics.value;
    AppendNone(results);
    if m.errorRate > FLOOR {
      results := results + [Threshold(Breach(ErrorRate), Round6(m.errorRate))];
    }
    AppendNone(results);
    if m.p95Latency > P95_FLOOR {
      results := results + [Threshold(Breach(P95Latency), Round(m.p95Latency, 1000.0))];
    }
    AppendNone(results);
    if 0.0 < m.avgConfidence <= cfg.confidenceNotableFloor {
      results := results + [Threshold(Breach(AvgConfidence), Round6(m.avgConfidence))];
    }
    AppendNone(results);
    if cfg.confidenceGating && ctx.lowConfidenceRatio >= cfg.lowConfidenceMed {
      var r := Round6(ctx.lowConfidenceRatio);
      results := results +
        [DetectionResult(ThresholdDetector, true, Some(LowConfidenceRatio), Some(r), Some(r), false)];
    }
  }

  // ---------------------------------------------------------------- severity bands

  function BandAscending(v: real, low: real, med: real, high: real): Severity {
    if v > high then High else if v > med then Medium else Low
  }

  function ClassifyThreshold(cfg: Settings, d: DetectionResult): Severity {
    var v := if d.observed.Some? then d.observed.value else 0.0;
    match d.metric
    case Some(Breach(ErrorRate)) => BandAscending(v, 0.01, 0.03, cfg.errorRateThreshold)
    case Some(Breach(InferenceFailureRate)) => BandAscending(v, 0.01, 0.03, cfg.errorRateThreshold)
    case Some(Breach(P95Latency)) => BandAscending(v, P95_FLOOR, P95_MED, cfg.p95Threshold)
    case Some(Breach(AvgConfidence)) =>
      if v < cfg.confidenceFloor then High else if v < cfg.confidenceMedFloor then Medium else Low
    case Some(LowConfidenceRatio) =>
      if v >= cfg.lowConfidenceHigh then High else if v >= cfg.lowConfidenceMed then Medium else Low
    case Some(ServiceUp) => if v >= cfg.failuresToSwitch as real then High else Medium
    case _ => Low
  }

  function ClassifyDrift(d: DetectionResult): Severity {
    var score := if d.score.Some? then d.score.value else 0.0;
    match d.metric
    case Some(DataDriftAggregate) =>
      if score >= DRIFT_SHARE_HIGH then High else if score >= DRIFT_SHARE_MED then Medium else Low
    case Some(ConceptDriftPerf) =>
      if score >= 0.10 then High else if d.anomalyDetected then Medium else Low
    case _ => Low
  }

  function ClassifyDetection(cfg: Settings, d: DetectionResult): Severity {
    match d.detector
    case ThresholdDetector => ClassifyThreshold(cfg, d)
    case AnomalyDetector => if d.sustained then Medium else Low
    case DriftDetector => ClassifyDrift(d)
    case UnknownDetector => Low
  }

  function Worse(a: Severity, b: Severity): Severity {
    if Rank(b) > Rank(a) then b else a
  }

  function Breaching(ds: seq<DetectionResult>): (r: seq<DetectionResult>)
    ensures forall d :: d in r <==> d in ds && d.anomalyDetected
  {
    if ds == [] then []
    else
      assert ds == [ds[0]] + ds[1..];
      (if ds[0].anomalyDetected then [ds[0]] else []) + Breaching(ds[1..])
  }

  /** The first of the highest-ranked results, as `max` picks it. */
  function MaxDetection(cfg: Settings, ds: seq<DetectionResult>): (m: DetectionResult)
    requires ds != []
    ensures m in ds
    ensures forall d :: d in ds ==> Rank(ClassifyDetection(cfg, d)) <= Rank(ClassifyDetection(cfg, m))
  {
    if |ds| == 1 then ds[0]
    else
      var m := MaxDetection(cfg, ds[1..]);
      assert ds == [ds[0]] + ds[1..];
      if Rank(ClassifyDetection(cfg, m)) > Rank(ClassifyDetection(cfg, ds[0])) then m else ds[0]
  }

  function MaxSeverity(cfg: Settings, ds: seq<DetectionResult>): Severity
    requires ds != []
  {
    if |ds| == 1 then ClassifyDetection(cfg, ds[0])
    else Worse(ClassifyDetection(cfg, ds[0]), MaxSeverity(cfg, ds[1..]))
  }

  /** Overall severity: the worst band over the breaching signals, LOW if there is none. */
  function Classify(cfg: Settings, ds: seq<DetectionResult>): Severity {
    var b := Breaching(ds);
    if b == [] then Low else MaxSeverity(cfg, b)
  }

  // ---------------------------------------------------------------- policy and decision

  function ChooseAction(severity: Severity, backupHealthy: bool, gated: bool): ActionType {
    if severity == High then
      if gated then Alert else if backupHealthy then SwitchBackup else DisablePredictions
    else if severity == Medium then Alert
    else NoOp
  }

  datatype ModelName = ModelA | ModelB

  datatype Decision = Decision(action: ActionType, severity: Severity, target: ModelName,
                               evidence: Option<DetectionResult>)

  function Worst(cfg: Settings, ds: seq<DetectionResult>): Option<DetectionResult> {
    var b := Breaching(ds);
    if b == [] then None else Some(MaxDetection(cfg, b))
  }

  function MakeDecision(cfg: Settings, ds: seq<DetectionResult>, active: ModelName, backup: ModelName,
                        backupHealthy: bool, gated: bool): Decision
  {
    var severity := Classify(cfg, ds);
    var action := ChooseAction(severity, backupHealthy, gated);
    Decision(action, severity, if action == SwitchBackup then backup else active, Worst(cfg, ds))
  }
}
