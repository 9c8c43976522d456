/** The control loop: the runtime's counters, the actions that change it, the rollback guard and one
    observe-detect-decide-act-verify tick. Probe results, the detectors (any functions of the context
    they are shown), the executor's answer and the backend's reply are inputs of a tick. */
module Agent {
  import opened Schemas
  import opened Rounding
  import opened Decisions
  import opened Retry

  function Other(m: ModelName): (o: ModelName)
    ensures o != m
  {
    if m == ModelA then ModelB else ModelA
  }

  function NameOf(m: ModelName): string { if m == ModelA then "model_a" else "model_b" }

  function FromName(s: string): (m: Option<ModelName>)
    ensures m.Some? <==> s == "model_a" || s == "model_b"
    ensures m.Some? ==> NameOf(m.value) == s
  {
    if s == "model_a" then Some(ModelA) else if s == "model_b" then Some(ModelB) else None
  }

  datatype ActionResult = ActionResult(action: ActionType, target: ModelName, executed: bool, outcome: Outcome)

  /** What the agent tells the control plane. */
  datatype Message =
    | PostMetrics(modelName: string, modelVersion: string, driftScore: Option<real>, driftedCount: nat)
    | SetActive(target: ModelName)
    | PostAction(action: ActionType, severity: Severity, model: ModelName, outcome: Outcome,
                 evidence: Option<DetectionResult>)
    | PatchAction(id: nat, recovered: bool, escalate: bool)

  datatype Observation =
    | ObserveFailed
    | Observed(health: HealthProbe, metrics: Option<MetricSnapshot>, backup: HealthProbe,
               failureRate: real, lowConfidenceRatio: real)

  /** A detector in the state it is in at this tick: what it finds in the context it is shown. */
  type DetectStep = Context -> seq<DetectionResult>

  /** Everything a tick reads from outside: the observation, the detectors, whether the executor succeeds,
      the verification probes, and the id the backend returns for the posted action. */
  datatype TickInput = TickInput(
    obs: Observation,
    detectors: seq<DetectStep>,
    executorOk: bool,
    probes: nat -> Probe,
    reply: Option<nat>)

  datatype Runtime = Runtime(
    active: ModelName,
    previous: Option<ModelName>,
    serving: bool,
    nonLow: nat,
    healthFailures: nat,
    cooldown: int,
    attempts: nat)

  datatype Episode = Episode(
    tick: nat, active: ModelName, nowActive: ModelName, severity: Severity, action: ActionType, outcome: Outcome,
    errorRate: Option<real>, backupHealthy: bool, recovered: Option<bool>)

  function Start(m: ModelName): Runtime { Runtime(m, None, true, 0, 0, 0, 0) }

  // ---------------------------------------------------------------- what a tick amounts to

  function Health(o: Observation): HealthProbe {
    if o.ObserveFailed? then HealthProbe(false, Unhealthy) else o.health
  }

  function MetricsOf(o: Observation): Option<MetricSnapshot> {
    if o.ObserveFailed? then None else o.metrics
  }

  predicate BackupHealthy(o: Observation) {
    o.Observed? && o.backup.reachable && o.backup.status == Healthy
  }

  function Failures(s: Runtime, o: Observation): nat {
    if Down(Health(o)) then s.healthFailures + 1 else 0
  }

  /** What the detectors are shown. */
  function ContextOf(s: Runtime, o: Observation): Context {
    Context(MetricsOf(o), Health(o), Failures(s, o), if o.ObserveFailed? then 1.0 else o.failureRate,
            if o.ObserveFailed? then 0.0 else o.lowConfidenceRatio)
  }

  /** What the detectors find, in their order. */
  function Collect(detectors: seq<DetectStep>, ctx: Context): seq<DetectionResult> {
    if detectors == [] then [] else Collect(detectors[..|detectors| - 1], ctx) + detectors[|detectors| - 1](ctx)
  }

  function FindingsOf(s: Runtime, i: TickInput): seq<DetectionResult> {
    Collect(i.detectors, ContextOf(s, i.obs))
  }

  function SeverityOf(cfg: Settings, s: Runtime, i: TickInput): Severity {
    Classify(cfg, FindingsOf(s, i))
  }

  /** The score of the first drift aggregate, 0 without one. */
  function DriftScore(ds: seq<DetectionResult>): Option<real> {
    if ds == [] then Some(0.0)
    else if ds[0].metric == Some(DataDriftAggregate) then ds[0].score
    else DriftScore(ds[1..])
  }

  /** The number of features reported as drifted. */
  function DriftedCount(ds: seq<DetectionResult>): nat {
    if ds == [] then 0
    else DriftedCount(ds[..|ds| - 1]) + (if ds[|ds| - 1].metric == Some(DataDriftPsi) then 1 else 0)
  }

  function NonLow(cfg: Settings, s: Runtime, i: TickInput): nat {
    if SeverityOf(cfg, s, i) != Low then s.nonLow + 1 else 0
  }

  predicate Gated(cfg: Settings, s: Runtime, i: TickInput) {
    NonLow(cfg, s, i) < cfg.confirmN || s.cooldown > 0
  }

  function Action(cfg: Settings, s: Runtime, i: TickInput): ActionType {
    ChooseAction(SeverityOf(cfg, s, i), BackupHealthy(i.obs), Gated(cfg, s, i))
  }

  function DecisionOf(cfg: Settings, s: Runtime, i: TickInput): (d: Decision)
    ensures d.action == Action(cfg, s, i) && d.severity == SeverityOf(cfg, s, i)
    ensures d.target == if d.action == SwitchBackup then Other(s.active) else s.active
  {
    MakeDecision(cfg, FindingsOf(s, i), s.active, Other(s.active), BackupHealthy(i.obs), Gated(cfg, s, i))
  }

  /** The tick decides to switch and the executor carries it out. */
  predicate Switches(cfg: Settings, s: Runtime, i: TickInput) {
    Action(cfg, s, i) == SwitchBackup && i.executorOk
  }

  function Decrement(c: int): int { if c > 0 then c - 1 else c }

  /** The runtime after a tick. */
  function Next(cfg: Settings, s: Runtime, i: TickInput): Runtime {
    var switched := Switches(cfg, s, i);
    var recovered := Recovered(cfg, i.probes);
    Runtime(
      if switched && recovered then Other(s.active) else s.active,
      if !switched then s.previous else if recovered then Some(s.active) else None,
      s.serving && Action(cfg, s, i) != DisablePredictions,
      NonLow(cfg, s, i),
      Failures(s, i.obs),
      Decrement(if switched then cfg.cooldownCycles else s.cooldown),
      if switched then s.attempts + 1 else s.attempts)
  }

  function OutcomeOf(cfg: Settings, s: Runtime, i: TickInput): Outcome {
    if Action(cfg, s, i) == SwitchBackup then (if i.executorOk then Pending else Failed) else Success
  }

  /** The call that mirrors the switch, and the one that undoes it. */
  function SwitchMessages(cfg: Settings, s: Runtime, i: TickInput): seq<Message> {
    if Switches(cfg, s, i) then [SetActive(Other(s.active))] else []
  }

  function ReportMessages(cfg: Settings, s: Runtime, i: TickInput): seq<Message> {
    MetricsMessages(s, i) + [ActionMessage(DecisionOf(cfg, s, i), OutcomeOf(cfg, s, i))]
  }

  function MetricsMessages(s: Runtime, i: TickInput): seq<Message> {
    var m, ds := MetricsOf(i.obs), FindingsOf(s, i);
    if m.Some? then [PostMetrics(m.value.modelName, m.value.modelVersion, DriftScore(ds), DriftedCount(ds))] else []
  }

  function ActionMessage(d: Decision, outcome: Outcome): Message {
    PostAction(d.action, d.severity, d.target, outcome, d.evidence)
  }

  function VerifyMessages(cfg: Settings, s: Runtime, i: TickInput): seq<Message> {
    if !Switches(cfg, s, i) then []
    else
      var recovered := Recovered(cfg, i.probes);
      (if recovered then [] else [SetActive(s.active)]) +
      (if i.reply.Some? then [PatchAction(i.reply.value, recovered, !recovered)] else [])
  }

  function Messages(cfg: Settings, s: Runtime, i: TickInput): seq<Message> {
    SwitchMessages(cfg, s, i) + ReportMessages(cfg, s, i) + VerifyMessages(cfg, s, i)
  }

  function ErrorRateOf(o: Observation): Option<real> {
    var m := MetricsOf(o);
    if m.Some? then Some(Round(m.value.errorRate, 1000.0)) else None
  }

  function EpisodeOf(cfg: Settings, s: Runtime, i: TickInput, tick: nat): Episode {
    var switched, recovered := Switches(cfg, s, i), Recovered(cfg, i.probes);
    Episode(tick, s.active, Next(cfg, s, i).active, SeverityOf(cfg, s, i), Action(cfg, s, i),
            if switched && !recovered then Success else OutcomeOf(cfg, s, i),
            ErrorRateOf(i.obs), BackupHealthy(i.obs), if switched then Some(recovered) else None)
  }

  // ---------------------------------------------------------------- the objects

  class DjangoClient {
    var outbox: seq<Message>

    constructor ()
      ensures outbox == []
    {
      outbox := [];
    }

    method Send(m: Message)
      modifies this
      ensures outbox == old(outbox) + [m]
    {
      outbox := outbox + [m];
    }

    /** Nothing is patched when the action could not be recorded. */
    method SendPatch(id: Option<nat>, v: Verification)
      modifies this
      ensures outbox == old(outbox) + (if id.Some? then [PatchAction(id.value, v.recovered, v.escalateToHuman)] else [])
    {
      if id.None? { return; }
      Send(PatchAction(id.value, v.recovered, v.escalateToHuman));
    }
  }

  class Verification {
    const recovered: bool
    var escalateToHuman: bool

    constructor (recovered: bool)
      ensures this.recovered == recovered && !escalateToHuman
    {
      this.recovered := recovered;
      escalateToHuman := false;
    }
  }

  class AgentRuntime {
    var activeModel: ModelName
    var previousModel: Option<ModelName>
    var servingEnabled: bool
    var consecutiveNonLow: nat
    var consecutiveHealthFailures: nat
    var cooldownRemaining: int
    var recoveryAttempts: nat

    constructor (active: ModelName)
      ensures State() == Start(active)
    {
      activeModel, previousModel, servingEnabled := active, None, true;
      consecutiveNonLow, consecutiveHealthFailures, cooldownRemaining, recoveryAttempts := 0, 0, 0, 0;
    }

    function State(): Runtime
      reads this
    {
      Runtime(activeModel, previousModel, servingEnabled, consecutiveNonLow, consecutiveHealthFailures,
              cooldownRemaining, recoveryAttempts)
    }
  }

  /** Switch traffic to the decision's target, or fail closed. A failed executor changes nothing. */
  method Execute(d: Decision, runtime: AgentRuntime, dj: DjangoClient, executorOk: bool) returns (r: ActionResult)
    modifies runtime, dj
    ensures d.action == DisablePredictions ==>
              runtime.State() == old(runtime.State()).(serving := false) && dj.outbox == old(dj.outbox) &&
              r == ActionResult(d.action, d.target, true, Success)
    ensures d.action != DisablePredictions && d.target == old(runtime.activeModel) ==>
              runtime.State() == old(runtime.State()) && dj.outbox == old(dj.outbox) &&
              r == ActionResult(d.action, d.target, false, Skipped)
    ensures d.action != DisablePredictions && d.target != old(runtime.activeModel) && !executorOk ==>
              runtime.State() == old(runtime.State()) && dj.outbox == old(dj.outbox) &&
              r == ActionResult(SwitchBackup, d.target, false, Failed)
    ensures d.action != DisablePredictions && d.target != old(runtime.activeModel) && executorOk ==>
              runtime.State() == old(runtime.State()).(active := d.target,
                                                       previous := Some(old(runtime.activeModel))) &&
              dj.outbox == old(dj.outbox) + [SetActive(d.target)] &&
              r == ActionResult(SwitchBackup, d.target, true, Pending)
  {
    if d.action == DisablePredictions {
      runtime.servingEnabled := false;
      return ActionResult(d.action, d.target, true, Success);
    }
    var previous, target := runtime.activeModel, d.target;
    if target == previous { return ActionResult(d.action, target, false, Skipped); }
    if !executorOk { return ActionResult(SwitchBackup, target, false, Failed); }
    runtime.previousModel := Some(previous);
    runtime.activeModel := target;
    dj.Send(SetActive(target));
    r := ActionResult(SwitchBackup, target, true, Pending);
  }

  /** The handler table: everything but a switch or a disable leaves the runtime alone. */
  method Dispatch(d: Decision, runtime: AgentRuntime, dj: DjangoClient, executorOk: bool) returns (r: ActionResult)
    modifies runtime, dj
    ensures var elsewhere := d.target != old(runtime.activeModel);
            var switched := d.action == SwitchBackup && elsewhere && executorOk;
            runtime.State() == (if switched
                                then old(runtime.State()).(active := d.target,
                                                           previous := Some(old(runtime.activeModel)))
                                else old(runtime.State()).(serving := old(runtime.servingEnabled) &&
                                                                      d.action != DisablePredictions)) &&
            dj.outbox == old(dj.outbox) + (if switched then [SetActive(d.target)] else []) &&
            r == ActionResult(d.action, d.target, d.action == SwitchBackup ==> switched,
                              if d.action != SwitchBackup then Success
                              else if !elsewhere then Skipped else if executorOk then Pending else Failed)
  {
    if d.action == SwitchBackup || d.action == DisablePredictions {
      r := Execute(d, runtime, dj, executorOk);
    } else {
      r := ActionResult(d.action, d.target, true, Success);
    }
  }

  /** Undo a switch that did not verify, and always escalate then. */
  method Guard(v: Verification, runtime: AgentRuntime, dj: DjangoClient) returns (r: Option<ActionResult>)
    modifies v, runtime, dj
    ensures v.recovered ==> r == None && v.escalateToHuman == old(v.escalateToHuman)
    ensures v.recovered ==> runtime.State() == old(runtime.State()) && dj.outbox == old(dj.outbox)
    ensures !v.recovered ==> v.escalateToHuman
    ensures !v.recovered &&
            (old(runtime.previousModel) == None || old(runtime.previousModel) == Some(old(runtime.activeModel))) ==>
              runtime.State() == old(runtime.State()) && dj.outbox == old(dj.outbox) &&
              r == Some(ActionResult(Alert, old(runtime.activeModel), true, Failed))
    ensures !v.recovered && old(runtime.previousModel).Some? &&
            old(runtime.previousModel).value != old(runtime.activeModel) ==>
              runtime.State() == old(runtime.State()).(active := old(runtime.previousModel).value, previous := None) &&
              dj.outbox == old(dj.outbox) + [SetActive(old(runtime.previousModel).value)] &&
              r == Some(ActionResult(Rollback, old(runtime.previousModel).value, true, Success))
  {
    if v.recovered { return None; }
    var previous := runtime.previousModel;
    if previous.None? || previous.value == runtime.activeModel {
      v.escalateToHuman := true;
      return Some(ActionResult(Alert, runtime.activeModel, true, Failed));
    }
    runtime.activeModel := previous.value;
    runtime.previousModel := None;
    v.escalateToHuman := true;
    dj.Send(SetActive(previous.value));
    r := Some(ActionResult(Rollback, previous.value, true, Success));
  }

  /** The detector loop. */
  method RunDetectors(detectors: seq<DetectStep>, ctx: Context) returns (detections: seq<DetectionResult>)
    ensures detections == Collect(detectors, ctx)
  {
    detections := [];
    for k := 0 to |detectors|
      invariant detections == Collect(detectors[..k], ctx)
    {
      assert detectors[..k + 1][..k] == detectors[..k];
      detections := detections + detectors[k](ctx);
    }
    assert detectors[..|detectors|] == detectors;
  }

  /** Observe, detect, decide; the counters are brought up to date, and the detectors are shown the new
      failure count. */
  method ObserveAndDecide(cfg: Settings, runtime: AgentRuntime, i: TickInput)
    returns (detections: seq<DetectionResult>, d: Decision)
    modifies runtime
    ensures runtime.State() == old(runtime.State()).(nonLow := NonLow(cfg, old(runtime.State()), i),
                                                     healthFailures := Failures(old(runtime.State()), i.obs))
    ensures detections == FindingsOf(old(runtime.State()), i)
    ensures d == DecisionOf(cfg, old(runtime.State()), i)
  {
    hide Classify, MakeDecision, Collect;
    ghost var s := runtime.State();
    var active, health := runtime.activeModel, Health(i.obs);
    if !health.reachable || health.status == Unhealthy {
      runtime.consecutiveHealthFailures := runtime.consecutiveHealthFailures + 1;
    } else {
      runtime.consecutiveHealthFailures := 0;
    }
    var ctx := Context(MetricsOf(i.obs), health, runtime.consecutiveHealthFailures,
                       if i.obs.ObserveFailed? then 1.0 else i.obs.failureRate,
                       if i.obs.ObserveFailed? then 0.0 else i.obs.lowConfidenceRatio);
    assert ctx == ContextOf(s, i.obs);
    detections := RunDetectors(i.detectors, ctx);
    var severity := Classify(cfg, detections);
    runtime.consecutiveNonLow := if severity != Low then runtime.consecutiveNonLow + 1 else 0;
    var confirmed := runtime.consecutiveNonLow >= cfg.confirmN;
    var gated := !confirmed || runtime.cooldownRemaining > 0;
    d := MakeDecision(cfg, detections, active, Other(active), BackupHealthy(i.obs), gated);
  }

  /** Verify a switch and roll it back if it did not recover. Right after a switch there is always a
      target to roll back to. */
  method VerifyAndGuard(cfg: Settings, runtime: AgentRuntime, dj: DjangoClient, i: TickInput, result: ActionResult)
    returns (recovered: bool, final: ActionResult)
    requires runtime.previousModel == Some(Other(runtime.activeModel))
    modifies runtime, dj
    ensures recovered == Recovered(cfg, i.probes)
    ensures runtime.State() == if recovered then old(runtime.State())
                               else old(runtime.State()).(active := Other(old(runtime.activeModel)), previous := None)
    ensures dj.outbox == old(dj.outbox) + (if recovered then [] else [SetActive(Other(old(runtime.activeModel)))]) +
                         (if i.reply.Some? then [PatchAction(i.reply.value, recovered, !recovered)] else [])
    ensures final == if recovered then result
            else ActionResult(Rollback, Other(old(runtime.activeModel)), true, Success)
  {
    hide ProbeRecovered;
    var events;
    recovered, events := Verify(cfg, i.probes);
    var verification := new Verification(recovered);
    var rollback := Guard(verification, runtime, dj);
    dj.SendPatch(i.reply, verification);
    final := if rollback.Some? then rollback.value else result;
  }

  /** The state between acting and verifying: a switch has been made but not yet judged. */
  function Acted(cfg: Settings, s: Runtime, i: TickInput): Runtime {
    var switched := Switches(cfg, s, i);
    Runtime(if switched then Other(s.active) else s.active,
            if switched then Some(s.active) else s.previous,
            s.serving && Action(cfg, s, i) != DisablePredictions,
            NonLow(cfg, s, i), Failures(s, i.obs),
            if switched then cfg.cooldownCycles else s.cooldown,
            if switched then s.attempts + 1 else s.attempts)
  }

  /** Carry the decision out; an executed switch starts the cooldown and counts as an attempt. */
  method Act(cfg: Settings, runtime: AgentRuntime, dj: DjangoClient, d: Decision, executorOk: bool)
    returns (r: ActionResult)
    modifies runtime, dj
    ensures var s, elsewhere := old(runtime.State()), d.target != old(runtime.activeModel);
            var switched := d.action == SwitchBackup && elsewhere && executorOk;
            runtime.State() ==
              (if switched then s.(active := d.target, previous := Some(s.active),
                                   cooldown := cfg.cooldownCycles, attempts := s.attempts + 1)
               else s.(serving := s.serving && d.action != DisablePredictions)) &&
            dj.outbox == old(dj.outbox) + (if switched then [SetActive(d.target)] else []) &&
            r.outcome == (if d.action != SwitchBackup then Success
                          else if !elsewhere then Skipped else if executorOk then Pending else Failed) &&
            (d.action == SwitchBackup ==> r.executed == switched)
  {
    r := Dispatch(d, runtime, dj, executorOk);
    if d.action == SwitchBackup && r.executed {
      runtime.cooldownRemaining := cfg.cooldownCycles;
      runtime.recoveryAttempts := runtime.recoveryAttempts + 1;
    }
  }

  /** Tell the control plane what was observed and what was done. */
  method ReportTick(dj: DjangoClient, m: Option<MetricSnapshot>, detections: seq<DetectionResult>, d: Decision,
                    outcome: Outcome)
    modifies dj
    ensures dj.outbox == old(dj.outbox) +
              (if m.Some?
               then [PostMetrics(m.value.modelName, m.value.modelVersion, DriftScore(detections),
                                 DriftedCount(detections))]
               else []) +
              [ActionMessage(d, outcome)]
  {
    if m.Some? {
      dj.Send(PostMetrics(m.value.modelName, m.value.modelVersion, DriftScore(detections), DriftedCount(detections)));
    }
    dj.Send(ActionMessage(d, outcome));
  }

  /** Observe, decide, act, report. */
  method ActAndReport(cfg: Settings, runtime: AgentRuntime, dj: DjangoClient, i: TickInput)
    returns (d: Decision, result: ActionResult)
    modifies runtime, dj
    ensures runtime.State() == Acted(cfg, old(runtime.State()), i)
    ensures dj.outbox == old(dj.outbox) +
            (SwitchMessages(cfg, old(runtime.State()), i) + ReportMessages(cfg, old(runtime.State()), i))
    ensures d == DecisionOf(cfg, old(runtime.State()), i)
    ensures d.action == SwitchBackup ==> result.executed == i.executorOk
    ensures result.outcome == OutcomeOf(cfg, old(runtime.State()), i)
  {
    hide SeverityOf, NonLow, Action, Failures, DecisionOf, FindingsOf, DriftScore, DriftedCount, ActionMessage;
    var detections;
    detections, d := ObserveAndDecide(cfg, runtime, i);
    result := Act(cfg, runtime, dj, d, i.executorOk);
    ReportTick(dj, MetricsOf(i.obs), detections, d, result.outcome);
  }

  /** One tick. Its effect on the runtime, what it sends and what it reports are Next, Messages and
      EpisodeOf, from any state whatsoever. */
  method RunTick(cfg: Settings, runtime: AgentRuntime, dj: DjangoClient, i: TickInput, tick: nat) returns (e: Episode)
    modifies runtime, dj
    ensures runtime.State() == Next(cfg, old(runtime.State()), i)
    ensures dj.outbox == old(dj.outbox) + Messages(cfg, old(runtime.State()), i)
    ensures e == EpisodeOf(cfg, old(runtime.State()), i, tick)
  {
    hide SeverityOf, Recovered, NonLow, Action, Failures, SwitchMessages, ReportMessages, DecisionOf, ErrorRateOf;
    var active := runtime.activeModel;
    var d, result := ActAndReport(cfg, runtime, dj, i);
    var verdict: Option<bool> := None;
    if d.action == SwitchBackup && result.executed {
      var recovered;
      recovered, result := VerifyAndGuard(cfg, runtime, dj, i, result);
      verdict := Some(recovered);
    }
    if runtime.cooldownRemaining > 0 { runtime.cooldownRemaining := runtime.cooldownRemaining - 1; }
    e := Episode(tick, active, runtime.activeModel, d.severity, d.action, result.outcome, ErrorRateOf(i.obs),
                 BackupHealthy(i.obs), verdict);
  }

  // ---------------------------------------------------------------- runs

  /** The runtime after the first k ticks of a run. */
  function StateAt(cfg: Settings, s: Runtime, ins: seq<TickInput>, k: nat): Runtime
    requires k <= |ins|
  {
    if k == 0 then s else Next(cfg, StateAt(cfg, s, ins, k - 1), ins[k - 1])
  }

  /** All that has been sent by then. */
  function SentBy(cfg: Settings, s: Runtime, ins: seq<TickInput>, k: nat): seq<Message>
    requires k <= |ins|
  {
    if k == 0 then [] else SentBy(cfg, s, ins, k - 1) + Messages(cfg, StateAt(cfg, s, ins, k - 1), ins[k - 1])
  }

  /** What the first k ticks report. */
  function EpisodesBy(cfg: Settings, s: Runtime, ins: seq<TickInput>, k: nat): (r: seq<Episode>)
    requires k <= |ins|
    ensures |r| == k
  {
    if k == 0 then [] else EpisodesBy(cfg, s, ins, k - 1) + [EpisodeOf(cfg, StateAt(cfg, s, ins, k - 1), ins[k - 1], k)]
  }

  /** The registry is believed about the active model when it names a known one. */
  function Adopt(s: Runtime, registryActive: Option<string>): Runtime {
    if registryActive.Some? && FromName(registryActive.value).Some?
    then s.(active := FromName(registryActive.value).value) else s
  }

  /** The loop: adopt the registry's active model, then tick. */
  method Run(cfg: Settings, runtime: AgentRuntime, dj: DjangoClient, registryActive: Option<string>,
             ins: seq<TickInput>)
    returns (episodes: seq<Episode>)
    modifies runtime, dj
    ensures var s := Adopt(old(runtime.State()), registryActive);
            runtime.State() == StateAt(cfg, s, ins, |ins|) &&
            dj.outbox == old(dj.outbox) + SentBy(cfg, s, ins, |ins|) &&
            episodes == EpisodesBy(cfg, s, ins, |ins|)
  {
    hide Next, EpisodeOf, Messages, FromName;
    if registryActive.Some? && FromName(registryActive.value).Some? {
      runtime.activeModel := FromName(registryActive.value).value;
    }
    ghost var s := runtime.State();
    episodes := [];
    var tick := 0;
    while tick < |ins|
      invariant 0 <= tick <= |ins| && episodes == EpisodesBy(cfg, s, ins, tick)
      invariant runtime.State() == StateAt(cfg, s, ins, tick)
      invariant dj.outbox == old(dj.outbox) + SentBy(cfg, s, ins, tick)
    {
      tick := tick + 1;
      var e := RunTick(cfg, runtime, dj, ins[tick - 1], tick);
      episodes := episodes + [e];
    }
  }
}
