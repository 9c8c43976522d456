/** What a tick and a run make of the fields observed, told without the functions that compute it. */
module TickLaws {
  import opened Schemas
  import opened Rounding
  import opened Decisions
  import opened DecisionLaws
  import opened Retry
  import opened Agent
  import opened AgentRuns

  // ---------------------------------------------------------------- what the detectors are shown

  /** Every detector is shown what was observed, with the failure this tick may add. A failed observation
      is shown as an unreachable service all of whose predictions failed. */
  lemma DetectorsAreShown(s: Runtime, i: TickInput)
    ensures FindingsOf(s, i) == Collect(i.detectors,
              match i.obs
              case ObserveFailed => Context(None, HealthProbe(false, Unhealthy), s.healthFailures + 1, 1.0, 0.0)
              case Observed(h, m, _, rate, low) =>
                Context(m, h, if h.reachable && h.status != Unhealthy then 0 else s.healthFailures + 1, rate, low))
  {
  }

  /** Each detector contributes all it finds, in the order of the detectors. */
  lemma {:induction false} FindingsInOrder(a: seq<DetectStep>, b: seq<DetectStep>, d: DetectStep, ctx: Context)
    ensures Collect(a + b, ctx) == Collect(a, ctx) + Collect(b, ctx)
    ensures Collect([d], ctx) == d(ctx) && Collect([], ctx) == []
    decreases |b|
  {
    assert Collect([d], ctx) == Collect([d][..0], ctx) + d(ctx);
    if b == [] {
      assert a + b == a;
    } else {
      FindingsInOrder(a, b[..|b| - 1], d, ctx);
      assert (a + b)[..|a + b| - 1] == a + b[..|b| - 1];
    }
  }

  // ---------------------------------------------------------------- severity, from the fields

  /** The observation alone, at this number of earlier failures in a row, makes a tick HIGH. */
  predicate MakesHigh(cfg: Settings, failures: nat, o: Observation) {
    match o
    case ObserveFailed => failures + 1 >= cfg.failuresToSwitch || cfg.errorRateThreshold < 1.0
    case Observed(h, m, _, rate, low) =>
      ((!h.reachable || h.status == Unhealthy) && failures + 1 >= cfg.failuresToSwitch) ||
      (rate > 0.01 && Round(rate, 1000000.0) > cfg.errorRateThreshold) ||
      (m.Some? &&
        ((m.value.errorRate > 0.01 && Round(m.value.errorRate, 1000000.0) > cfg.errorRateThreshold) ||
         (m.value.p95Latency > 150.0 && Round(m.value.p95Latency, 1000.0) > cfg.p95Threshold) ||
         (0.0 < m.value.avgConfidence <= cfg.confidenceNotableFloor &&
          Round(m.value.avgConfidence, 1000000.0) < cfg.confidenceFloor) ||
         (cfg.confidenceGating && low >= cfg.lowConfidenceMed && Round(low, 1000000.0) >= cfg.lowConfidenceHigh)))
  }

  /** The observation alone makes a tick more than LOW. */
  predicate Raises(cfg: Settings, failures: nat, o: Observation) {
    match o
    case ObserveFailed => true
    case Observed(h, m, _, rate, low) =>
      MakesHigh(cfg, failures, o) || !h.reachable || h.status == Unhealthy ||
      (rate > 0.01 && Round(rate, 1000000.0) > 0.03) ||
      (m.Some? &&
        ((m.value.errorRate > 0.01 && Round(m.value.errorRate, 1000000.0) > 0.03) ||
         (m.value.p95Latency > 150.0 && Round(m.value.p95Latency, 1000.0) > 300.0) ||
         (0.0 < m.value.avgConfidence <= cfg.confidenceNotableFloor &&
          Round(m.value.avgConfidence, 1000000.0) < cfg.confidenceMedFloor) ||
         (cfg.confidenceGating && low >= cfg.lowConfidenceMed && Round(low, 1000000.0) >= cfg.lowConfidenceMed)))
  }

  /** The same tick without its first detector. */
  function Others(i: TickInput): TickInput
    requires |i.detectors| > 0
  {
    i.(detectors := i.detectors[1..])
  }

  lemma FirstAndOthers(s: Runtime, i: TickInput)
    requires |i.detectors| > 0
    ensures FindingsOf(s, i) == i.detectors[0](ContextOf(s, i.obs)) + FindingsOf(s, Others(i))
  {
    hide ContextOf;
    FindingsInOrder(i.detectors[..1], i.detectors[1..], i.detectors[0], ContextOf(s, i.obs));
    assert i.detectors[..1] + i.detectors[1..] == i.detectors;
    assert i.detectors[..1] == [i.detectors[0]];
  }

  lemma ObservedBand(cfg: Settings, s: Runtime, o: Observation)
    ensures Classify(cfg, Signals(cfg, ContextOf(s, o))) ==
            Band(MakesHigh(cfg, s.healthFailures, o), Raises(cfg, s.healthFailures, o))
  {
    hide Round, Classify, Signals;
    SeverityTable(cfg, ContextOf(s, o));
    RoundExact(1.0, 1000000.0, 1000000);
  }

  /** With the threshold detector in front, a tick is HIGH exactly if what it observed makes it so or the
      other detectors do, and LOW exactly if neither raises it. */
  lemma SeverityFromFields(cfg: Settings, s: Runtime, i: TickInput)
    requires ThresholdFirst(cfg, i)
    ensures SeverityOf(cfg, s, i) == Severity.High <==>
            MakesHigh(cfg, s.healthFailures, i.obs) || SeverityOf(cfg, s, Others(i)) == Severity.High
    ensures SeverityOf(cfg, s, i) != Low <==>
            Raises(cfg, s.healthFailures, i.obs) || SeverityOf(cfg, s, Others(i)) != Low
    ensures |i.detectors| == 1 ==> SeverityOf(cfg, s, Others(i)) == Low
  {
    hide Classify, Signals, MakesHigh, Raises, ContextOf;
    FirstAndOthers(s, i);
    ObservedBand(cfg, s, i.obs);
    if MakesHigh(cfg, s.healthFailures, i.obs) { HighRaises(cfg, s.healthFailures, i.obs); }
    ClassifyConcat(cfg, i.detectors[0](ContextOf(s, i.obs)), FindingsOf(s, Others(i)));
    NeverCritical(cfg, FindingsOf(s, Others(i)));
    if |i.detectors| == 1 { NothingIsLow(cfg, s, Others(i)); }
  }

  lemma HighRaises(cfg: Settings, failures: nat, o: Observation)
    requires MakesHigh(cfg, failures, o)
    ensures Raises(cfg, failures, o)
  {
  }

  lemma NothingIsLow(cfg: Settings, s: Runtime, i: TickInput)
    requires i.detectors == []
    ensures SeverityOf(cfg, s, i) == Low
  {
  }

  // ---------------------------------------------------------------- the decision, from the fields

  /** What a tick decides: nothing when LOW, an alert when MEDIUM. When HIGH, an alert until as many ticks in
      a row as configured were above LOW and the cooldown is over; then a switch if the backup was
      observed, reached and healthy, and failing closed if not. */
  lemma DecidedAs(cfg: Settings, s: Runtime, i: TickInput)
    ensures var d, sev := DecisionOf(cfg, s, i), SeverityOf(cfg, s, i);
            d.severity == sev &&
            (sev == Low ==> d.action == NoOp) && (sev == Medium ==> d.action == Alert) &&
            (sev == Severity.High && (s.nonLow + 1 < cfg.confirmN || s.cooldown > 0) ==> d.action == Alert) &&
            (sev == Severity.High && s.nonLow + 1 >= cfg.confirmN && s.cooldown <= 0 ==>
               match i.obs
               case ObserveFailed => d.action == DisablePredictions
               case Observed(_, _, backup, _, _) =>
                 d.action == if backup == HealthProbe(true, Healthy) then SwitchBackup else DisablePredictions) &&
            (d.action == SwitchBackup ==> d.target != s.active) && (d.action != SwitchBackup ==> d.target == s.active)
  {
    hide FindingsOf, Classify;
  }

  /** The runtime after a tick that does not switch, after one that keeps its switch, and after one that
      undoes it. */
  lemma LeavesRuntime(cfg: Settings, s: Runtime, i: TickInput)
    ensures var t, switched := Next(cfg, s, i), Action(cfg, s, i) == SwitchBackup && i.executorOk;
            (!switched ==> t.active == s.active && t.previous == s.previous && t.attempts == s.attempts &&
                           t.cooldown == if s.cooldown > 0 then s.cooldown - 1 else s.cooldown) &&
            (switched ==> t.attempts == s.attempts + 1 &&
                          t.cooldown == if cfg.cooldownCycles > 0 then cfg.cooldownCycles - 1
                                        else cfg.cooldownCycles) &&
            (switched && Recovered(cfg, i.probes) ==> t.active != s.active && t.previous == Some(s.active)) &&
            (switched && !Recovered(cfg, i.probes) ==> t.active == s.active && t.previous == None) &&
            (t.serving <==> s.serving && Action(cfg, s, i) != DisablePredictions) &&
            t.nonLow == (if SeverityOf(cfg, s, i) == Low then 0 else s.nonLow + 1) &&
            t.healthFailures == if i.obs.Observed? && i.obs.health.reachable && i.obs.health.status != Unhealthy
                                then 0 else s.healthFailures + 1
  {
    hide Action, SeverityOf, Recovered;
  }

  // ---------------------------------------------------------------- trouble is answered

  /** What makes a first failure HIGH makes a later one HIGH too. */
  lemma EarlierFailuresOnlyAdd(cfg: Settings, failures: nat, o: Observation)
    requires MakesHigh(cfg, 0, o)
    ensures MakesHigh(cfg, failures, o)
  {
  }

  /** Whatever the trouble, failing predictions, errors, slowness, low confidence or an outage: as many ticks
      in a row that observe it as the largest of 1, confirm_n and cooldown_cycles contain one that acts.
      It switches if its backup was observed healthy, and fails closed if not. */
  lemma TroubleAnswered(t: Trace, a: nat) returns (k: nat)
    requires Fresh(t) && a + Max3(1, t.cfg.confirmN, t.cfg.cooldownCycles) <= |t.ins|
    requires forall k: nat :: a <= k < a + Max3(1, t.cfg.confirmN, t.cfg.cooldownCycles) ==>
               ThresholdFirst(t.cfg, t.ins[k]) && MakesHigh(t.cfg, 0, t.ins[k].obs)
    ensures a <= k < a + Max3(1, t.cfg.confirmN, t.cfg.cooldownCycles)
    ensures t.Act(k) == if t.ins[k].obs.Observed? && t.ins[k].obs.backup == HealthProbe(true, Healthy)
                        then SwitchBackup else DisablePredictions
  {
    hide StateAt, SeverityOf, Action, Max3, MakesHigh, ThresholdFirst, DecisionOf;
    var m := Max3(1, t.cfg.confirmN, t.cfg.cooldownCycles);
    forall k: nat | a <= k < a + m ensures t.High(k) {
      EarlierFailuresOnlyAdd(t.cfg, t.At(k).healthFailures, t.ins[k].obs);
      SeverityFromFields(t.cfg, t.At(k), t.ins[k]);
    }
    BoundedResponse(t, a);
    k :| a <= k < a + m && Acts(t.Act(k));
    assert t.High(k) && t.Act(k) == DecisionOf(t.cfg, t.At(k), t.ins[k]).action;
    DecidedAs(t.cfg, t.At(k), t.ins[k]);
  }

  /** Half of the agent's own predictions fail; active service and backup look healthy. */
  function HalfFailing(m: Option<MetricSnapshot>, low: real): Observation {
    Observed(HealthProbe(true, Healthy), m, HealthProbe(true, Healthy), 0.5, low)
  }

  /** With the shipped settings such a tick is HIGH, whatever else was seen: the first one alerts and the
      second one switches. */
  lemma HalfFailingSwitches(i: TickInput, m: Option<MetricSnapshot>, low: real, active: ModelName)
    requires ThresholdFirst(DEFAULTS, i) && i.obs == HalfFailing(m, low)
    ensures SeverityOf(DEFAULTS, Start(active), i) == Severity.High
    ensures Action(DEFAULTS, Start(active), i) == Alert
    ensures Action(DEFAULTS, Next(DEFAULTS, Start(active), i), i) == SwitchBackup
  {
    hide SeverityOf, Action, Next, Round, ThresholdFirst, DecisionOf, Recovered;
    RoundExact(0.5, 1000000.0, 500000);
    var s := Start(active);
    SeverityFromFields(DEFAULTS, s, i);
    DecidedAs(DEFAULTS, s, i);
    LeavesRuntime(DEFAULTS, s, i);
    var t := Next(DEFAULTS, s, i);
    SeverityFromFields(DEFAULTS, t, i);
    DecidedAs(DEFAULTS, t, i);
  }

  // ---------------------------------------------------------------- what a tick sends and reports

  /** The drift score told to the control plane is that of the first drift aggregate, 0 without one. */
  lemma {:induction false} DriftScoreIs(a: seq<DetectionResult>, d: DetectionResult, b: seq<DetectionResult>)
    requires forall x :: x in a ==> x.metric != Some(DataDriftAggregate)
    ensures DriftScore(a) == Some(0.0)
    ensures d.metric == Some(DataDriftAggregate) ==> DriftScore(a + [d] + b) == d.score
  {
    if a != [] {
      DriftScoreIs(a[1..], d, b);
      assert (a + [d] + b)[1..] == a[1..] + [d] + b;
      assert a[0] in a;
    }
  }

  /** The drifted features among the findings. */
  function Drifted(ds: seq<DetectionResult>): set<int> {
    set i | 0 <= i < |ds| && ds[i].metric == Some(DataDriftPsi)
  }

  /** The count told is that of the features reported as drifted. */
  lemma {:induction false} DriftedCountIs(ds: seq<DetectionResult>)
    ensures DriftedCount(ds) == |Drifted(ds)|
  {
    if ds != [] {
      var n := |ds| - 1;
      DriftedCountIs(ds[..n]);
      assert Drifted(ds) == Drifted(ds[..n]) + if ds[n].metric == Some(DataDriftPsi) then {n} else {};
    }
  }

  /** Everything a tick sends, in order and in full: the switch, the metrics if there are any, the decision
      with its severity, target and evidence, the undoing of the switch and the verdict on it. */
  lemma Sends(cfg: Settings, s: Runtime, i: TickInput)
    ensures var d := DecisionOf(cfg, s, i);
            var switched := d.action == SwitchBackup && i.executorOk;
            var outcome := if d.action != SwitchBackup then Success else if i.executorOk then Pending else Failed;
            var recovered := Recovered(cfg, i.probes);
            Messages(cfg, s, i) ==
              (if switched then [SetActive(d.target)] else []) +
              (match i.obs
               case Observed(_, Some(m), _, _, _) =>
                 [PostMetrics(m.modelName, m.modelVersion, DriftScore(FindingsOf(s, i)),
                              DriftedCount(FindingsOf(s, i)))]
               case _ => []) +
              [PostAction(d.action, d.severity, d.target, outcome, d.evidence)] +
              (if switched && !recovered then [SetActive(s.active)] else []) +
              (if switched && i.reply.Some? then [PatchAction(i.reply.value, recovered, !recovered)] else [])
  {
    hide FindingsOf, DecisionOf, Recovered, Action, DriftScore, DriftedCount;
    assert Action(cfg, s, i) == DecisionOf(cfg, s, i).action;
  }

  lemma DecisionMade(cfg: Settings, s: Runtime, i: TickInput)
    ensures DecisionOf(cfg, s, i) == MakeDecision(cfg, FindingsOf(s, i), s.active, Other(s.active),
                                                  BackupHealthy(i.obs), Gated(cfg, s, i))
  {
  }

  /** What the control plane is told of an action is what was decided, and the posted severity is that of the
      posted evidence. */
  lemma PostsItsEvidence(cfg: Settings, s: Runtime, i: TickInput, m: Message)
    requires m in Messages(cfg, s, i) && m.PostAction?
    ensures m.severity == SeverityOf(cfg, s, i) && m.action == Action(cfg, s, i)
    ensures m.model == if m.action == SwitchBackup then Other(s.active) else s.active
    ensures m.evidence.Some? ==> m.evidence.value in FindingsOf(s, i) && m.evidence.value.anomalyDetected &&
                                 m.severity == ClassifyDetection(cfg, m.evidence.value)
    ensures m.evidence.None? ==> m.severity == Low
  {
    hide *;
    Sends(cfg, s, i);
    var d := DecisionOf(cfg, s, i);
    assert m == PostAction(d.action, d.severity, d.target, m.outcome, d.evidence);
    DecisionMade(cfg, s, i);
    EvidenceMatchesSeverity(cfg, FindingsOf(s, i), s.active, Other(s.active), BackupHealthy(i.obs), Gated(cfg, s, i));
  }

  /** An episode tells the tick's number, its severity and decision, the models before and after, the verdict
      on an executed switch, and the error rate to three decimals. Only a switch the executor refused is
      reported as failed. */
  lemma EpisodeTells(cfg: Settings, s: Runtime, i: TickInput, tick: nat)
    ensures var e := EpisodeOf(cfg, s, i, tick);
            e.tick == tick && e.active == s.active && e.nowActive == Next(cfg, s, i).active &&
            e.severity == SeverityOf(cfg, s, i) && e.action == DecisionOf(cfg, s, i).action &&
            (e.nowActive != e.active <==> e.recovered == Some(true)) &&
            (e.recovered.Some? <==> e.action == SwitchBackup && i.executorOk) &&
            (e.recovered.Some? ==> e.recovered.value == Recovered(cfg, i.probes)) &&
            (e.outcome == Pending <==> e.recovered == Some(true)) &&
            (e.outcome == Failed <==> e.action == SwitchBackup && !i.executorOk) && e.outcome != Skipped &&
            (e.backupHealthy <==> i.obs.Observed? && i.obs.backup == HealthProbe(true, Healthy)) &&
            (e.errorRate.Some? <==> i.obs.Observed? && i.obs.metrics.Some?) &&
            (e.errorRate.Some? ==>
               i.obs.metrics.value.errorRate - 0.0005 <= e.errorRate.value <= i.obs.metrics.value.errorRate + 0.0005)
  {
    hide Recovered, Round, SeverityOf, Action, FindingsOf, DecisionOf;
    assert Action(cfg, s, i) == DecisionOf(cfg, s, i).action;
    if i.obs.Observed? && i.obs.metrics.Some? { RoundNear(i.obs.metrics.value.errorRate, 1000.0); }
  }

  /** The episodes of a run are a chain: each starts on the model the one before ended on, and two differ
      exactly by a switch that was kept. */
  lemma EpisodesChain(t: Trace, k: nat)
    requires k < |t.ins|
    ensures var es := EpisodesBy(t.cfg, t.start, t.ins, |t.ins|);
            es[k].tick == k + 1 && es[k].active == t.At(k).active && es[k].nowActive == t.At(k + 1).active &&
            (k + 1 < |t.ins| ==> es[k].nowActive == es[k + 1].active) &&
            (k == 0 ==> es[k].active == t.start.active) &&
            (es[k].nowActive != es[k].active <==> t.SwitchKept(k)) &&
            (es[k].recovered.Some? <==> t.Switched(k))
  {
    hide Next, EpisodeOf, Recovered, SeverityOf, Action, FindingsOf, DecisionOf;
    EpisodeAt(t, |t.ins|, k);
    EpisodeTells(t.cfg, t.At(k), t.ins[k], k + 1);
    if k + 1 < |t.ins| {
      EpisodeAt(t, |t.ins|, k + 1);
      EpisodeTells(t.cfg, t.At(k + 1), t.ins[k + 1], k + 2);
    }
    assert t.Act(k) == DecisionOf(t.cfg, t.At(k), t.ins[k]).action;
  }

  lemma {:induction false} EpisodeAt(t: Trace, n: nat, k: nat)
    requires k < n <= |t.ins|
    ensures EpisodesBy(t.cfg, t.start, t.ins, n)[k] == EpisodeOf(t.cfg, t.At(k), t.ins[k], k + 1)
  {
    hide Next, EpisodeOf;
    if k < n - 1 { EpisodeAt(t, n - 1, k); }
  }
}
