/** What holds of every run of the control loop. A run is its settings, the runtime it starts from and
    the inputs of its ticks; nothing is assumed about the inputs, the confirmation count or the
    cooldown. */
module AgentRuns {
  import opened Arithmetic
  import opened Schemas
  import opened Decisions
  import opened DecisionLaws
  import opened Retry
  import opened Agent

  datatype Trace = Trace(cfg: Settings, start: Runtime, ins: seq<TickInput>) {
    function At(k: nat): Runtime
      requires k <= |ins|
    {
      StateAt(cfg, start, ins, k)
    }

    predicate NonLow(k: nat)
      requires k < |ins|
    {
      SeverityOf(cfg, At(k), ins[k]) != Low
    }

    predicate High(k: nat)
      requires k < |ins|
    {
      SeverityOf(cfg, At(k), ins[k]) == Severity.High
    }

    predicate Unhealthy(k: nat)
      requires k < |ins|
    {
      Down(Health(ins[k].obs))
    }

    predicate BackupOk(k: nat)
      requires k < |ins|
    {
      BackupHealthy(ins[k].obs)
    }

    function Act(k: nat): ActionType
      requires k < |ins|
    {
      Action(cfg, At(k), ins[k])
    }

    predicate Switched(k: nat)
      requires k < |ins|
    {
      Switches(cfg, At(k), ins[k])
    }

    predicate SwitchKept(k: nat)
      requires k < |ins|
    {
      Switched(k) && Recovered(cfg, ins[k].probes)
    }

    /** A switch was executed less than a cooldown ago. */
    ghost predicate CoolingDown(k: nat)
      requires k <= |ins|
    {
      exists j: nat :: j < k && k - j < cfg.cooldownCycles && Switched(j)
    }

    /** The last confirm_n ticks, this one included, were all non-LOW. */
    ghost predicate Confirmed(k: nat)
      requires k < |ins|
    {
      cfg.confirmN <= k + 1 && forall j: nat :: k - cfg.confirmN < j <= k ==> NonLow(j)
    }

    /** The trace condition under which the agent acts. */
    ghost predicate Fires(k: nat)
      requires k < |ins|
    {
      High(k) && Confirmed(k) && !CoolingDown(k)
    }
  }

  predicate Fresh(t: Trace) { t.start == Start(t.start.active) }

  // ---------------------------------------------------------------- the counters are suffix lengths

  /** consecutive_non_low is the length of the longest non-LOW suffix of the ticks so far. */
  lemma {:induction false} ConfirmCounter(t: Trace, k: nat)
    requires Fresh(t) && k <= |t.ins|
    ensures var n := t.At(k).nonLow;
            n <= k && (forall j: nat :: k - n <= j < k ==> t.NonLow(j)) && (n < k ==> !t.NonLow(k - n - 1))
  {
    hide SeverityOf, Failures, Action, Switches, Recovered;
    if k > 0 { ConfirmCounter(t, k - 1); }
  }

  /** consecutive_health_failures is the length of the longest unhealthy suffix. */
  lemma {:induction false} HealthCounter(t: Trace, k: nat)
    requires Fresh(t) && k <= |t.ins|
    ensures var n := t.At(k).healthFailures;
            n <= k && (forall j: nat :: k - n <= j < k ==> t.Unhealthy(j)) && (n < k ==> !t.Unhealthy(k - n - 1))
  {
    hide SeverityOf, NonLow, Action, Switches, Recovered, Health, Down;
    if k > 0 { HealthCounter(t, k - 1); }
  }

  lemma {:induction false} CooldownAtLeast(t: Trace, j: nat, k: nat)
    requires j < k <= |t.ins| && t.Switched(j)
    ensures t.At(k).cooldown >= t.cfg.cooldownCycles - (k - j)
  {
    hide NonLow, Failures, Action, Switches, Recovered;
    if j < k - 1 { CooldownAtLeast(t, j, k - 1); }
  }

  lemma {:induction false} CooldownFrom(t: Trace, k: nat) returns (j: nat)
    requires Fresh(t) && k <= |t.ins| && t.At(k).cooldown > 0
    ensures j < k && t.Switched(j) && t.At(k).cooldown == t.cfg.cooldownCycles - (k - j)
  {
    hide NonLow, Failures, Action, Switches, Recovered;
    if t.Switched(k - 1) {
      j := k - 1;
    } else {
      j := CooldownFrom(t, k - 1);
    }
  }

  /** The cooldown counter is positive exactly while fewer than cooldown_cycles ticks have passed since an
      executed switch: it starts running in the tick that sets it. */
  lemma CooldownIsCoolingDown(t: Trace, k: nat)
    requires Fresh(t) && k <= |t.ins|
    ensures t.At(k).cooldown > 0 <==> t.CoolingDown(k)
    ensures t.At(k).cooldown > 0 ==> t.At(k).cooldown < t.cfg.cooldownCycles
  {
    hide StateAt;
    if t.At(k).cooldown > 0 { var j := CooldownFrom(t, k); }
    if t.CoolingDown(k) {
      var j: nat :| j < k && k - j < t.cfg.cooldownCycles && t.Switched(j);
      CooldownAtLeast(t, j, k);
    }
  }

  lemma ConfirmedIsCounter(t: Trace, k: nat)
    requires Fresh(t) && k < |t.ins| && t.NonLow(k)
    ensures NonLow(t.cfg, t.At(k), t.ins[k]) >= t.cfg.confirmN <==> t.Confirmed(k)
  {
    hide StateAt, SeverityOf;
    ConfirmCounter(t, k);
    var n := t.At(k).nonLow;
    if n < k && t.Confirmed(k) { assert !t.NonLow(k - n - 1); }
  }

  // ---------------------------------------------------------------- actions read off the trace

  /** Every action is determined by the trace: the agent acts exactly on a HIGH tick that ends confirm_n
      non-LOW ticks and is not within a cooldown of an executed switch; it switches if the backup is
      healthy and fails closed if not. On every other non-LOW tick it alerts. */
  lemma ActionFromTrace(t: Trace, k: nat)
    requires Fresh(t) && k < |t.ins|
    ensures t.Act(k) == SwitchBackup <==> t.Fires(k) && t.BackupOk(k)
    ensures t.Act(k) == DisablePredictions <==> t.Fires(k) && !t.BackupOk(k)
    ensures t.Act(k) == Alert <==> t.NonLow(k) && !t.Fires(k)
    ensures t.Act(k) == NoOp <==> !t.NonLow(k)
  {
    hide StateAt, SeverityOf, BackupHealthy;
    CooldownIsCoolingDown(t, k);
    if t.NonLow(k) { ConfirmedIsCounter(t, k); }
    SeverityRange(t.cfg, t.At(k), t.ins[k]);
  }

  lemma SeverityRange(cfg: Settings, s: Runtime, i: TickInput)
    ensures SeverityOf(cfg, s, i) != Critical
  {
    NeverCritical(cfg, FindingsOf(s, i));
  }

  /** Serving is off exactly when some earlier tick met the trace condition with an unhealthy backup. */
  lemma {:induction false} ServingFromTrace(t: Trace, k: nat)
    requires Fresh(t) && k <= |t.ins|
    ensures !t.At(k).serving <==> FailedClosed(t, k)
  {
    assert !FailedClosed(t, 0);
    assert t.At(0) == t.start;
    hide StateAt, FailedClosed, Trace.Fires, Trace.BackupOk;
    if k > 0 {
      ServingFromTrace(t, k - 1);
      ServingStep(t, k);
      FiresBefore(t, k);
    }
  }

  /** Some tick before k met the trace condition with an unhealthy backup. */
  ghost predicate FailedClosed(t: Trace, k: nat)
    requires k <= |t.ins|
  {
    exists j: nat :: j < k && t.Fires(j) && !t.BackupOk(j)
  }

  lemma ServingStep(t: Trace, k: nat)
    requires Fresh(t) && 0 < k <= |t.ins|
    ensures t.At(k).serving <==> t.At(k - 1).serving && !(t.Fires(k - 1) && !t.BackupOk(k - 1))
  {
    hide NonLow, Failures, Switches, Recovered, Action, Trace.Fires, Trace.BackupOk;
    ActionFromTrace(t, k - 1);
    assert t.Act(k - 1) == Action(t.cfg, t.At(k - 1), t.ins[k - 1]);
  }

  lemma FiresBefore(t: Trace, k: nat)
    requires 0 < k <= |t.ins|
    ensures FailedClosed(t, k) <==> FailedClosed(t, k - 1) || (t.Fires(k - 1) && !t.BackupOk(k - 1))
  {
    hide StateAt, SeverityOf, BackupHealthy;
  }

  // ---------------------------------------------------------------- rate limit

  /** Two executed switches are at least a cooldown apart. */
  lemma SwitchSpacing(t: Trace, i: nat, j: nat)
    requires i < j < |t.ins| && t.Switched(i) && t.Switched(j)
    ensures j - i >= t.cfg.cooldownCycles
  {
    hide StateAt, NonLow, SeverityOf;
    CooldownAtLeast(t, i, j);
  }

  /** Executed switches among ticks a .. b-1. */
  function CountSwitches(t: Trace, a: nat, b: nat): nat
    requires a <= b <= |t.ins|
    decreases b
  {
    if a == b then 0 else CountSwitches(t, a, b - 1) + (if t.Switched(b - 1) then 1 else 0)
  }

  lemma {:induction false} CountNone(t: Trace, a: nat, b: nat)
    requires a <= b <= |t.ins| && forall k: nat :: a <= k < b ==> !t.Switched(k)
    ensures CountSwitches(t, a, b) == 0
    decreases b
  {
    hide StateAt, Switches;
    if a < b { CountNone(t, a, b - 1); }
  }

  lemma {:induction false} CountSplit(t: Trace, a: nat, m: nat, b: nat)
    requires a <= m <= b <= |t.ins|
    ensures CountSwitches(t, a, b) == CountSwitches(t, a, m) + CountSwitches(t, m, b)
    decreases b
  {
    hide StateAt, Switches;
    if m < b { CountSplit(t, a, m, b - 1); }
  }

  /** The least distance between two executed switches. */
  function Spacing(cfg: Settings): (d: nat)
    ensures d >= 1
  {
    if cfg.cooldownCycles > 1 then cfg.cooldownCycles else 1
  }

  lemma {:induction false} CountBound(t: Trace, a: nat, b: nat)
    requires a <= b <= |t.ins|
    ensures CountSwitches(t, a, b) * Spacing(t.cfg) <= b - a + Spacing(t.cfg) - 1
    decreases b
  {
    hide StateAt, Switches;
    var d := Spacing(t.cfg);
    if a < b {
      if !t.Switched(b - 1) {
        CountBound(t, a, b - 1);
      } else {
        var m := if b - d > a then b - d else a;
        forall k: nat | m <= k < b - 1 ensures !t.Switched(k) {
          if t.Switched(k) { SwitchSpacing(t, k, b - 1); }
        }
        CountNone(t, m, b - 1);
        CountSplit(t, a, m, b - 1);
        CountBound(t, a, m);
        assert CountSwitches(t, a, b) == CountSwitches(t, a, m) + 1;
        OneMoreTimes(CountSwitches(t, a, m), d);
        if m == a { assert CountSwitches(t, a, a) == 0; }
      }
    }
  }

  /** Any n consecutive ticks of any run hold at most ceil(n / max(1, cooldown_cycles)) executed
      switches. */
  lemma RateLimit(t: Trace, a: nat, n: nat)
    requires a + n <= |t.ins|
    ensures CountSwitches(t, a, a + n) <= CeilDiv(n, Spacing(t.cfg))
  {
    hide CountSwitches;
    CountBound(t, a, a + n);
    CeilDivision(CountSwitches(t, a, a + n), Spacing(t.cfg), n);
  }

  // ---------------------------------------------------------------- bounded response

  function Max3(a: int, b: int, c: int): (m: nat)
    requires a >= 0
    ensures m >= a && m >= b && m >= c && (m == a || m == b || m == c)
  {
    if a >= b && a >= c then a else if b >= c then b else c
  }

  predicate Acts(a: ActionType) { a == SwitchBackup || a == DisablePredictions }

  /** If the last tick of a window is HIGH, its last confirm_n ticks are non-LOW and the window is at
      least a cooldown long, some tick of the window acts. */
  lemma WindowActs(t: Trace, a: nat, m: nat)
    requires Fresh(t) && 1 <= m && a + m <= |t.ins|
    requires m >= t.cfg.confirmN && m >= t.cfg.cooldownCycles
    requires t.High(a + m - 1) && forall k: nat :: a <= k < a + m ==> t.NonLow(k)
    ensures exists k: nat :: a <= k < a + m && Acts(t.Act(k))
  {
    hide StateAt, SeverityOf, BackupHealthy, Action;
    var e := a + m - 1;
    ActionFromTrace(t, e);
    if t.CoolingDown(e) {
      var j: nat :| j < e && e - j < t.cfg.cooldownCycles && t.Switched(j);
      assert a <= j < a + m && Acts(t.Act(j));
    } else {
      assert a <= e < a + m && Acts(t.Act(e));
    }
  }

  /** Bounded response: from every reachable state, any max(1, confirm_n, cooldown_cycles) consecutive
      HIGH ticks contain one that decides to switch or to fail closed. */
  lemma BoundedResponse(t: Trace, a: nat)
    requires Fresh(t) && a + Max3(1, t.cfg.confirmN, t.cfg.cooldownCycles) <= |t.ins|
    requires forall k: nat :: a <= k < a + Max3(1, t.cfg.confirmN, t.cfg.cooldownCycles) ==> t.High(k)
    ensures exists k: nat :: a <= k < a + Max3(1, t.cfg.confirmN, t.cfg.cooldownCycles) && Acts(t.Act(k))
  {
    hide StateAt, SeverityOf, Action;
    var m := Max3(1, t.cfg.confirmN, t.cfg.cooldownCycles);
    assert t.High(a + m - 1);
    forall k: nat | a <= k < a + m ensures t.NonLow(k) { assert t.High(k); }
    WindowActs(t, a, m);
  }

  /** Every tick is HIGH, with a healthy backup and a working executor. */
  ghost predicate Steady(t: Trace) {
    forall k: nat :: k < |t.ins| ==> t.High(k) && t.BackupOk(k) && t.ins[k].executorOk
  }

  /** The ticks before the first one that can be confirmed. */
  function Lead(cfg: Settings): nat { if cfg.confirmN > 1 then cfg.confirmN - 1 else 0 }

  lemma SteadyConfirmed(t: Trace, k: nat)
    requires Steady(t) && k < |t.ins|
    ensures t.Confirmed(k) <==> k >= Lead(t.cfg)
  {
    hide StateAt, SeverityOf, BackupHealthy;
    forall j: nat | j <= k ensures t.NonLow(j) { assert t.High(j); }
  }

  lemma SteadyFires(t: Trace, k: nat)
    requires Fresh(t) && Steady(t) && k < |t.ins|
    ensures t.Switched(k) <==> k >= Lead(t.cfg) && !t.CoolingDown(k)
  {
    hide StateAt, SeverityOf, BackupHealthy, Action;
    assert t.High(k) && t.BackupOk(k);
    SteadyConfirmed(t, k);
    ActionFromTrace(t, k);
  }

  lemma Multiples(a: nat, b: nat, d: nat)
    requires d >= 1 && b < a && a % d == 0 && b % d == 0
    ensures a - b >= d
  {
    DivisionParts(a, d);
    DivisionParts(b, d);
    if a / d <= b / d {
      TimesOrder(a / d, b / d, d);
    } else {
      TimesOrder(b / d + 1, a / d, d);
      OneMoreTimes(b / d, d);
    }
  }

  /** On a steadily HIGH run the agent switches on the first tick that can be confirmed and then once every
      max(1, cooldown_cycles) ticks, exactly. */
  lemma {:induction false} SteadySwitches(t: Trace, k: nat)
    requires Fresh(t) && Steady(t) && k < |t.ins|
    ensures t.Switched(k) <==> OnBeat(t.cfg, k)
  {
    hide StateAt, Switches, OnBeat, Steady;
    SteadyFires(t, k);
    forall j: nat | j < k ensures t.Switched(j) <==> OnBeat(t.cfg, j) { SteadySwitches(t, j); }
    BeatIsCooldown(t, k);
  }

  /** The first tick that can be confirmed, and every max(1, cooldown_cycles)-th tick from there. */
  predicate OnBeat(cfg: Settings, k: nat) { k >= Lead(cfg) && (k - Lead(cfg)) % Spacing(cfg) == 0 }

  lemma BeatSpacing(cfg: Settings, j: nat, k: nat)
    requires j < k && OnBeat(cfg, j) && OnBeat(cfg, k)
    ensures k - j >= Spacing(cfg)
  {
    hide Spacing, Lead;
    Multiples(k - Lead(cfg), j - Lead(cfg), Spacing(cfg));
  }

  lemma BeatBefore(cfg: Settings, k: nat) returns (j: nat)
    requires k >= Lead(cfg) && !OnBeat(cfg, k)
    ensures j < k && OnBeat(cfg, j) && k - j < Spacing(cfg)
  {
    hide Spacing, Lead;
    var a, d := k - Lead(cfg), Spacing(cfg);
    DivisionParts(a, d);
    LastMultiple(a, d);
    j := k - a % d;
  }

  lemma BeatIsCooldown(t: Trace, k: nat)
    requires k < |t.ins| && forall j: nat :: j < k ==> (t.Switched(j) <==> OnBeat(t.cfg, j))
    ensures OnBeat(t.cfg, k) <==> k >= Lead(t.cfg) && !t.CoolingDown(k)
  {
    assert OnBeat(t.cfg, k) ==> k >= Lead(t.cfg);
    hide StateAt, Switches, OnBeat, Lead, Spacing;
    SpacingIs(t.cfg);
    if OnBeat(t.cfg, k) {
      forall j: nat | j < k && t.Switched(j) ensures k - j >= Spacing(t.cfg) { BeatSpacing(t.cfg, j, k); }
    } else if k >= Lead(t.cfg) {
      var j := BeatBefore(t.cfg, k);
    }
  }

  lemma SpacingIs(cfg: Settings)
    ensures Spacing(cfg) >= 1 && Spacing(cfg) >= cfg.cooldownCycles &&
            (Spacing(cfg) > 1 ==> Spacing(cfg) == cfg.cooldownCycles)
  {
  }

  lemma LastMultiple(a: nat, d: nat)
    requires d >= 1
    ensures a % d <= a && (a - a % d) % d == 0
  {
    DivisionParts(a, d);
    TimesOrder(0, a / d, d);
    DivisionUnique(a - a % d, d, a / d, 0);
  }

  /** The first detector is the threshold detector. */
  ghost predicate ThresholdFirst(cfg: Settings, i: TickInput) {
    |i.detectors| > 0 && forall ctx: Context :: i.detectors[0](ctx) == Signals(cfg, ctx)
  }

  lemma {:induction false} CollectFirst(detectors: seq<DetectStep>, ctx: Context) returns (rest: seq<DetectionResult>)
    requires |detectors| > 0
    ensures Collect(detectors, ctx) == detectors[0](ctx) + rest
  {
    if |detectors| == 1 {
      assert Collect(detectors[..0], ctx) == [];
      rest := [];
    } else {
      var most := CollectFirst(detectors[..|detectors| - 1], ctx);
      rest := most + detectors[|detectors| - 1](ctx);
    }
  }

  lemma {:induction false} FailuresGrow(t: Trace, a: nat, k: nat)
    requires a <= k < |t.ins| && forall j: nat :: a <= j <= k ==> t.Unhealthy(j)
    ensures Failures(t.At(k), t.ins[k].obs) >= k - a + 1
  {
    hide Health, Down, Action, Switches, Recovered, SeverityOf;
    assert t.Unhealthy(k);
    if a < k { FailuresGrow(t, a, k - 1); }
  }

  lemma OutageSeverity(t: Trace, a: nat, k: nat)
    requires a <= k < |t.ins| && ThresholdFirst(t.cfg, t.ins[k]) && forall j: nat :: a <= j <= k ==> t.Unhealthy(j)
    ensures t.NonLow(k) && (k - a + 1 >= t.cfg.failuresToSwitch ==> t.High(k))
  {
    hide StateAt, Signals, Failures, Classify;
    var ctx := ContextOf(t.At(k), t.ins[k].obs);
    var rest := CollectFirst(t.ins[k].detectors, ctx);
    assert t.Unhealthy(k);
    FailuresGrow(t, a, k);
    DownIsSevere(t.cfg, ctx, rest);
  }

  /** An outage is answered: with the threshold detector in place, whatever the other detectors say, as
      many consecutive ticks of an unreachable or unhealthy active service as the largest of 1,
      consecutive_failures_to_switch, confirm_n and cooldown_cycles contain one that switches or fails
      closed. */
  lemma OutageResponse(t: Trace, a: nat, m: nat)
    requires Fresh(t) && 1 <= m && a + m <= |t.ins|
    requires m >= t.cfg.failuresToSwitch && m >= t.cfg.confirmN && m >= t.cfg.cooldownCycles
    requires forall k: nat :: a <= k < a + m ==> t.Unhealthy(k) && ThresholdFirst(t.cfg, t.ins[k])
    ensures exists k: nat :: a <= k < a + m && Acts(t.Act(k))
  {
    hide StateAt, ThresholdFirst, SeverityOf, Health, Down, Action;
    forall k: nat | a <= k < a + m ensures t.NonLow(k) && (k == a + m - 1 ==> t.High(k)) { OutageSeverity(t, a, k); }
    WindowActs(t, a, m);
  }

  // ---------------------------------------------------------------- active model, parity, verdicts

  /** previous_model is never the active model: it is empty or the other one. */
  lemma {:induction false} PreviousIsOther(t: Trace, k: nat)
    requires Fresh(t) && k <= |t.ins|
    ensures t.At(k).previous == None || t.At(k).previous == Some(Other(t.At(k).active))
  {
    hide NonLow, Failures, Action, Switches, Recovered;
    if k > 0 { PreviousIsOther(t, k - 1); }
  }

  function CountKept(t: Trace, k: nat): nat
    requires k <= |t.ins|
  {
    if k == 0 then 0 else CountKept(t, k - 1) + (if t.SwitchKept(k - 1) then 1 else 0)
  }

  /** The active model is the first one flipped once per switch that verified, and the attempt counter is
      the number of executed switches. A tick changes the active model exactly if its switch verified. */
  lemma {:induction false} ActiveByParity(t: Trace, k: nat)
    requires k <= |t.ins|
    ensures t.At(k).active == if CountKept(t, k) % 2 == 0 then t.start.active else Other(t.start.active)
    ensures t.At(k).attempts == t.start.attempts + CountSwitches(t, 0, k)
    ensures k > 0 ==> (t.At(k).active != t.At(k - 1).active <==> t.SwitchKept(k - 1))
  {
    hide NonLow, Failures, Action, Switches, Recovered;
    if k > 0 { ActiveByParity(t, k - 1); }
  }

  /** From any state, a tick escalates exactly the switches that did not verify, so the backend never
      receives a verdict that is neither a recovery nor an escalation. */
  lemma PatchesNeverRevert(cfg: Settings, s: Runtime, i: TickInput)
    ensures forall m :: m in Messages(cfg, s, i) && m.PatchAction? ==> m.escalate == !m.recovered
  {
    hide Recovered, Switches, DecisionOf, OutcomeOf, MetricsOf, FindingsOf;
  }
}
