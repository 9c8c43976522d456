/** A run that shows the bounds of the control loop are attained: the default detectors watch a service that
    is slow but otherwise stands still, and every switch to its backup fails verification. */
module SlowService {
  import opened Arithmetic
  import opened Schemas
  import opened Rounding
  import opened Decisions
  import opened DecisionLaws
  import opened Retry
  import opened Agent
  import opened AgentRuns
  import A = AnomalyDetection
  import L = AnomalyLaws

  // ---------------------------------------------------------------- the default detectors

  function Shown(s: MetricSnapshot, failureRate: real, m: Metric): real {
    match m
    case ErrorRate => s.errorRate
    case AvgLatency => s.avgLatency
    case P95Latency => s.p95Latency
    case InferenceFailureRate => failureRate
    case AvgConfidence => s.avgConfidence
  }

  /** What the adapter hands to the anomaly detector. */
  function Adapted(s: MetricSnapshot, failureRate: real): (metrics: map<Metric, real>)
    ensures forall m: Metric :: m in metrics && metrics[m] == Shown(s, failureRate, m)
  {
    map m: Metric | true :: Shown(s, failureRate, m)
  }

  /** Each channel of the anomaly detector gets the metric of its name, the failure rate from the agent's own
      predictions and the others from the snapshot. */
  lemma AdapterFeeds(s: MetricSnapshot, failureRate: real)
    ensures Adapted(s, failureRate) ==
            map[ErrorRate := s.errorRate, AvgLatency := s.avgLatency, P95Latency := s.p95Latency,
                InferenceFailureRate := failureRate, AvgConfidence := s.avgConfidence]
  {
    var full := map[ErrorRate := s.errorRate, AvgLatency := s.avgLatency, P95Latency := s.p95Latency,
                    InferenceFailureRate := failureRate, AvgConfidence := s.avgConfidence];
    forall m: Metric ensures m in full && full[m] == Adapted(s, failureRate)[m] {
      match m case ErrorRate => case AvgLatency => case P95Latency => case InferenceFailureRate => case AvgConfidence =>
    }
  }

  const FRESH: map<Metric, A.Channel> := map m: Metric | true :: A.EMPTY

  type Channels = chs: map<Metric, A.Channel> | forall m: Metric :: m in chs
    witness FRESH

  function AnomalyFinds(chs: Channels, ctx: Context): seq<DetectionResult> {
    if ctx.metrics.None? then [] else A.Results(EWMA_ALPHA, chs, Adapted(ctx.metrics.value, ctx.failureRate), A.METRICS)
  }

  /** The threshold detector, the anomaly detector with what it remembers, and the drift detector without a
      reference. */
  function DefaultStack(cfg: Settings, chs: Channels): seq<DetectStep> {
    [(ctx: Context) => Signals(cfg, ctx), (ctx: Context) => AnomalyFinds(chs, ctx), (ctx: Context) => []]
  }

  // ---------------------------------------------------------------- the service

  /** A latency that is HIGH under these settings. */
  function SlowLatency(cfg: Settings): real {
    (if cfg.p95Threshold > P95_FLOOR then cfg.p95Threshold else P95_FLOOR) + 1.0
  }

  function SlowMetrics(cfg: Settings): MetricSnapshot {
    MetricSnapshot("model_a", "1", 100, 0.0, 20.0, SlowLatency(cfg), 0.9)
  }

  function SlowValues(cfg: Settings): (metrics: map<Metric, real>)
    ensures forall m: Metric :: m in metrics
  {
    Adapted(SlowMetrics(cfg), 0.0)
  }

  /** What the detectors are shown, tick after tick. */
  function Standing(cfg: Settings): Context {
    Context(Some(SlowMetrics(cfg)), HealthProbe(true, Healthy), 0, 0.0, 0.0)
  }

  /** What the anomaly detector remembers after k such ticks. */
  function ChannelsAfter(cfg: Settings, k: nat): Channels {
    if k == 0 then FRESH
    else
      var chs := ChannelsAfter(cfg, k - 1);
      map m: Metric | m in chs :: A.StepOf(EWMA_ALPHA, m, chs[m], SlowValues(cfg)).0
  }

  /** The backup looks healthy, and its error rate is out of bounds once it has traffic. */
  function FailingProbe(cfg: Settings): Probe {
    Probe(HealthProbe(true, Healthy),
          Some(MetricSnapshot("model_b", "1", 100, cfg.errorRateThreshold + 1.0, 20.0, 20.0, 0.9)))
  }

  function SlowTick(cfg: Settings, k: nat): TickInput {
    TickInput(
      Observed(HealthProbe(true, Healthy), Some(SlowMetrics(cfg)), HealthProbe(true, Healthy), 0.0, 0.0),
      DefaultStack(cfg, ChannelsAfter(cfg, k)), true, (i: nat) => FailingProbe(cfg), None)
  }

  function SlowRun(cfg: Settings, n: nat): (t: Trace)
    ensures t.cfg == cfg && |t.ins| == n && Fresh(t) && forall k :: 0 <= k < n ==> t.ins[k] == SlowTick(cfg, k)
  {
    Trace(cfg, Start(ModelA), seq(n, k requires 0 <= k => SlowTick(cfg, k)))
  }

  // ---------------------------------------------------------------- the anomaly detector stays silent

  lemma StepKeepsFlat(m: Metric, ch: A.Channel, metrics: map<Metric, real>)
    requires m in metrics && L.Flat(ch.hist, metrics[m])
    ensures L.Flat(A.StepOf(EWMA_ALPHA, m, ch, metrics).0.hist, metrics[m])
  {
    hide A.Score, A.NextEwma, A.Detection;
  }

  lemma {:induction false} HistoryIsFlat(cfg: Settings, k: nat, m: Metric)
    ensures L.Flat(ChannelsAfter(cfg, k)[m].hist, SlowValues(cfg)[m])
  {
    hide SlowValues, A.StepOf, L.Flat;
    if k == 0 {
      EmptyIsFlat(SlowValues(cfg)[m]);
    } else {
      HistoryIsFlat(cfg, k - 1, m);
      StepKeepsFlat(m, ChannelsAfter(cfg, k - 1)[m], SlowValues(cfg));
    }
  }

  lemma EmptyIsFlat(v: real)
    ensures L.Flat([], v)
  {
  }

  lemma FlatIsQuiet(m: Metric, ch: A.Channel, metrics: map<Metric, real>)
    requires m in metrics && L.Flat(ch.hist, metrics[m])
    ensures A.StepOf(EWMA_ALPHA, m, ch, metrics).1 == []
  {
    hide A.Score, A.NextEwma, A.Detection;
    var hw, v := A.HigherWorse(m), metrics[m];
    L.ConstantIsSilent(EWMA_ALPHA, hw, ch, v, [v]);
    assert A.Run(EWMA_ALPHA, hw, ch, [v]).1[0] == A.Step(EWMA_ALPHA, hw, ch, v).1;
  }

  lemma {:induction false} QuietResults(chs: Channels, metrics: map<Metric, real>, ms: seq<Metric>)
    requires forall m: Metric :: A.StepOf(EWMA_ALPHA, m, chs[m], metrics).1 == []
    ensures A.Results(EWMA_ALPHA, chs, metrics, ms) == []
  {
    hide A.StepOf;
    if ms != [] { QuietResults(chs, metrics, ms[..|ms| - 1]); }
  }

  lemma AnomaliesSilent(cfg: Settings, k: nat)
    ensures AnomalyFinds(ChannelsAfter(cfg, k), Standing(cfg)) == []
  {
    hide A.StepOf, A.Results, ChannelsAfter, SlowMetrics, L.Flat;
    forall m: Metric ensures A.StepOf(EWMA_ALPHA, m, ChannelsAfter(cfg, k)[m], SlowValues(cfg)).1 == [] {
      HistoryIsFlat(cfg, k, m);
      FlatIsQuiet(m, ChannelsAfter(cfg, k)[m], SlowValues(cfg));
    }
    QuietResults(ChannelsAfter(cfg, k), SlowValues(cfg), A.METRICS);
  }

  lemma StackFindings(cfg: Settings, chs: Channels, ctx: Context)
    requires AnomalyFinds(chs, ctx) == []
    ensures Collect(DefaultStack(cfg, chs), ctx) == Signals(cfg, ctx)
  {
    hide Signals, AnomalyFinds;
    var ds := DefaultStack(cfg, chs);
    assert Collect(ds[..2], ctx) == Collect(ds[..2][..1], ctx) + [];
    assert Collect(ds[..1], ctx) == Collect(ds[..1][..0], ctx) + Signals(cfg, ctx);
    assert ds[..2][..1] == ds[..1];
  }

  // ---------------------------------------------------------------- every tick is HIGH and no switch verifies

  lemma SlowIsSlow(cfg: Settings)
    ensures LatencyHigh(cfg, SlowLatency(cfg))
  {
    var x := SlowLatency(cfg);
    QuotientMonotone(x * 1000.0 - 0.5, Nearest(x * 1000.0) as real, 1000.0);
  }

  lemma SlowIsHigh(cfg: Settings, s: Runtime, k: nat)
    ensures SeverityOf(cfg, s, SlowTick(cfg, k)) == Severity.High
    ensures BackupHealthy(SlowTick(cfg, k).obs) && SlowTick(cfg, k).executorOk
  {
    hide LatencyHigh, Signals, Classify, ChannelsAfter, AnomalyFinds, SlowLatency;
    var ctx := ContextOf(s, SlowTick(cfg, k).obs);
    assert ctx == Standing(cfg);
    SlowIsSlow(cfg);
    AnomaliesSilent(cfg, k);
    StackFindings(cfg, ChannelsAfter(cfg, k), ctx);
    SeverityTable(cfg, ctx);
  }

  lemma SlowRunIsSteady(cfg: Settings, n: nat)
    ensures Steady(SlowRun(cfg, n))
  {
    hide StateAt, SeverityOf, BackupHealthy, SlowTick;
    var t := SlowRun(cfg, n);
    forall k: nat | k < n ensures t.High(k) && t.BackupOk(k) && t.ins[k].executorOk {
      assert t.ins[k] == SlowTick(cfg, k);
      SlowIsHigh(cfg, t.At(k), k);
    }
  }

  lemma NeverVerified(cfg: Settings, k: nat)
    ensures !Recovered(cfg, SlowTick(cfg, k).probes)
  {
    hide ChannelsAfter;
    RecoveredIffSomeProbe(cfg, SlowTick(cfg, k).probes);
  }

  /** The bound of BoundedResponse cannot be lowered: for every setting the default detectors on a slow
      service give one tick fewer of consecutive HIGH severity without an action. */
  lemma BoundIsTight(cfg: Settings) returns (n: nat, a: nat)
    ensures a + Max3(1, cfg.confirmN, cfg.cooldownCycles) - 1 <= n
    ensures forall k: nat :: a <= k < a + Max3(1, cfg.confirmN, cfg.cooldownCycles) - 1 ==>
              SlowRun(cfg, n).High(k) && !Acts(SlowRun(cfg, n).Act(k))
  {
    hide StateAt, SeverityOf, Action, BackupHealthy, SlowTick;
    var m, p := Max3(1, cfg.confirmN, cfg.cooldownCycles), Lead(cfg);
    n := p + m;
    var t := SlowRun(cfg, n);
    SlowRunIsSteady(cfg, n);
    forall k: nat | k < p ensures !Acts(t.Act(k)) { ActionFromTrace(t, k); }
    if cfg.confirmN == m || m == 1 {
      a := 0;
    } else {
      a := p + 1;
      SteadySwitches(t, p);
      forall k: nat | a <= k < a + m - 1 ensures !Acts(t.Act(k)) {
        assert t.CoolingDown(k);
        ActionFromTrace(t, k);
      }
    }
  }
}
