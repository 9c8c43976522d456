/** The typed objects passed between the phases of the loop, and the settings that steer it. */
module Schemas {
  datatype Option<+T> = None | Some(value: T)

  datatype HealthStatus = Healthy | Degraded | Unhealthy

  datatype Severity = Low | Medium | High | Critical

  /** Ascending order of severities. */
  function Rank(s: Severity): int {
    match s
    case Low => 1
    case Medium => 2
    case High => 3
    case Critical => 4
  }

  datatype ActionType = NoOp | Alert | Rollback | SwitchBackup | Retrain | DisablePredictions

  datatype Outcome = Pending | Success | Failed | Skipped

  /** The metrics tracked per model. */
  datatype Metric = ErrorRate | AvgLatency | P95Latency | InferenceFailureRate | AvgConfidence

  datatype Pattern = Spike | Sustained

  datatype Detector = ThresholdDetector | AnomalyDetector | DriftDetector | UnknownDetector

  /** What a detection is about. */
  datatype Signal =
    | ServiceUp
    | Breach(metric: Metric)
    | LowConfidenceRatio
    | Anomaly(of: Metric, pattern: Pattern)
    | DataDriftPsi
    | DataDriftAggregate
    | ConceptDriftPerf
    | OtherSignal

  /** One detector finding. `sustained` stands for the tag the classifier looks for in the message. */
  datatype DetectionResult = DetectionResult(
    detector: Detector,
    anomalyDetected: bool,
    metric: Option<Signal>,
    observed: Option<real>,
    score: Option<real>,
    sustained: bool)

  datatype MetricSnapshot = MetricSnapshot(
    modelName: string,
    modelVersion: string,
    requestCount: int,
    errorRate: real,
    avgLatency: real,
    p95Latency: real,
    avgConfidence: real)

  datatype HealthProbe = HealthProbe(reachable: bool, status: HealthStatus)

  datatype Settings = Settings(
    confirmN: int,
    cooldownCycles: int,
    verifyRetries: int,
    verifyBackoff: real,
    errorRateThreshold: real,
    p95Threshold: real,
    failuresToSwitch: int,
    confidenceFloor: real,
    confidenceMedFloor: real,
    confidenceNotableFloor: real,
    confidenceGating: bool,
    lowConfidenceMed: real,
    lowConfidenceHigh: real)

  /** The shipped defaults. */
  const DEFAULTS := Settings(2, 3, 3, 10.0, 0.10, 800.0, 2, 0.55, 0.70, 0.78, false, 0.20, 0.40)

  const EWMA_ALPHA := 0.3
}
