/** How often the agent can act, exactly: a maximum that some run attains, and what follows for the limits
    the design documents name. */
module AgentLimits {
  import opened Arithmetic
  import opened Schemas
  import opened Decisions
  import opened DecisionLaws
  import opened Retry
  import opened Agent
  import opened AgentRuns
  import opened SlowService

  // ---------------------------------------------------------------- the exact number of switches

  /** The most switches n ticks from a fresh start can hold. */
  function MaxSwitches(cfg: Settings, n: nat): nat {
    CeilDiv(if n <= Lead(cfg) then 0 else n - Lead(cfg), Spacing(cfg))
  }

  /** Nothing is confirmed, and so nothing switched, in the first confirm_n - 1 ticks. */
  lemma NoneInLead(t: Trace, k: nat)
    requires Fresh(t) && k < |t.ins| && k < Lead(t.cfg)
    ensures !t.Switched(k)
  {
    hide StateAt, Action;
    ActionFromTrace(t, k);
    assert t.Act(k) == Action(t.cfg, t.At(k), t.ins[k]);
  }

  lemma AtMostMax(t: Trace, n: nat)
    requires Fresh(t) && n <= |t.ins|
    ensures CountSwitches(t, 0, n) <= MaxSwitches(t.cfg, n)
  {
    hide StateAt, Switches, CountSwitches, CeilDiv, Spacing;
    var p := if n <= Lead(t.cfg) then n else Lead(t.cfg);
    forall k: nat | k < p ensures !t.Switched(k) { NoneInLead(t, k); }
    CountNone(t, 0, p);
    CountSplit(t, 0, p, n);
    RateLimit(t, p, n - p);
  }

  lemma {:induction false} SteadyCount(t: Trace, n: nat)
    requires Fresh(t) && Steady(t) && n <= |t.ins|
    ensures CountSwitches(t, 0, n) == MaxSwitches(t.cfg, n)
  {
    hide StateAt, Switches, Steady, CeilDiv, Spacing;
    var p, d := Lead(t.cfg), Spacing(t.cfg);
    CeilStep(0, d);
    if n > 0 {
      SteadyCount(t, n - 1);
      SteadySwitches(t, n - 1);
      if n > p { CeilStep(n - 1 - p, d); }
    }
  }

  /** For every setting and every number of ticks: no run from a fresh start executes more than this many
      switches, and the slow service makes the default stack execute exactly as many. */
  lemma ExactMaximum(cfg: Settings, n: nat)
    ensures forall t: Trace :: Fresh(t) && t.cfg == cfg && |t.ins| == n ==> t.At(n).attempts <= MaxSwitches(cfg, n)
    ensures SlowRun(cfg, n).At(n).attempts == MaxSwitches(cfg, n)
  {
    hide StateAt, MaxSwitches, SlowTick, CountSwitches;
    forall t: Trace | Fresh(t) && t.cfg == cfg && |t.ins| == n ensures t.At(n).attempts <= MaxSwitches(cfg, n) {
      ActiveByParity(t, n);
      AtMostMax(t, n);
    }
    ActiveByParity(SlowRun(cfg, n), n);
    SlowRunIsSteady(cfg, n);
    SteadyCount(SlowRun(cfg, n), n);
  }

  // ---------------------------------------------------------------- the attempt counter

  /** Every run of n ticks keeps the runtime's attempt counter within a cap. */
  ghost predicate CapHolds(cfg: Settings, n: nat, cap: nat) {
    forall t: Trace :: Fresh(t) && t.cfg == cfg && |t.ins| == n ==> t.At(n).attempts <= cap
  }

  /** The attempt counter of a run of n ticks stays within a cap exactly if confirmation and cooldown alone
      leave room for no more: nothing else limits it. */
  lemma CapHoldsIff(cfg: Settings, n: nat, cap: nat)
    ensures CapHolds(cfg, n, cap) <==> MaxSwitches(cfg, n) <= cap
  {
    hide StateAt, MaxSwitches, SlowTick;
    ExactMaximum(cfg, n);
    var t := SlowRun(cfg, n);
    assert Fresh(t) && t.cfg == cfg && |t.ins| == n;
  }

  /** With the shipped settings five ticks on a slow service make two attempts. */
  lemma CapExceeded()
    ensures SlowRun(DEFAULTS, 5).At(5).attempts == 2
  {
    hide StateAt, SlowTick;
    ExactMaximum(DEFAULTS, 5);
  }

  /** No setting whatever bounds the counter: enough ticks exceed every cap. */
  lemma NoCapEver(cfg: Settings, cap: nat) returns (n: nat)
    ensures !CapHolds(cfg, n, cap)
  {
    hide StateAt, CapHolds;
    n := Lead(cfg) + cap * Spacing(cfg) + 1;
    CapHoldsIff(cfg, n, cap);
    var d := Spacing(cfg);
    TimesOrder(0, cap, d);
    OneMoreTimes(cap, d);
    CeilDivision(cap + 1, d, cap * d + 1);
  }

  lemma {:induction false} TwoSwitches(t: Trace, a: nat, b: nat) returns (i: nat, j: nat)
    requires a <= b <= |t.ins| && CountSwitches(t, a, b) >= 2
    ensures a <= i < j < b && t.Switched(i) && t.Switched(j)
    decreases b
  {
    hide StateAt, Switches;
    if t.Switched(b - 1) {
      j := b - 1;
      i := OneSwitch(t, a, b - 1);
    } else {
      i, j := TwoSwitches(t, a, b - 1);
    }
  }

  lemma {:induction false} OneSwitch(t: Trace, a: nat, b: nat) returns (i: nat)
    requires a <= b <= |t.ins| && CountSwitches(t, a, b) >= 1
    ensures a <= i < b && t.Switched(i)
    decreases b
  {
    hide StateAt, Switches;
    if t.Switched(b - 1) { i := b - 1; } else { i := OneSwitch(t, a, b - 1); }
  }

  lemma {:induction false} CountGrows(t: Trace, i: nat, j: nat)
    requires i < j < |t.ins| && t.Switched(i) && t.Switched(j)
    ensures CountSwitches(t, 0, |t.ins|) >= 2
  {
    hide StateAt, Switches;
    CountSplit(t, 0, i, |t.ins|);
    CountSplit(t, i, i + 1, |t.ins|);
    CountSplit(t, i + 1, j, |t.ins|);
    CountSplit(t, j, j + 1, |t.ins|);
    assert CountSwitches(t, i, i) == 0 && CountSwitches(t, j, j) == 0;
  }

  /** After a recovery that did not verify the agent does not try another by itself. */
  ghost predicate NoRetry(t: Trace) {
    forall i: nat, j: nat :: i < j < |t.ins| && t.Switched(i) && !t.SwitchKept(i) ==> !t.Switched(j)
  }

  /** "Do not retry automatically" holds of every run of n ticks exactly if n ticks leave room for at most
      one switch. A failed recovery does not stop the loop. */
  lemma NoRetryIff(cfg: Settings, n: nat)
    ensures (forall t: Trace :: Fresh(t) && t.cfg == cfg && |t.ins| == n ==> NoRetry(t)) <==> MaxSwitches(cfg, n) <= 1
  {
    hide StateAt, MaxSwitches, SlowTick, CountSwitches, Switches;
    if MaxSwitches(cfg, n) <= 1 {
      forall t: Trace | Fresh(t) && t.cfg == cfg && |t.ins| == n ensures NoRetry(t) {
        forall i: nat, j: nat | i < j < n && t.Switched(i) ensures !t.Switched(j) {
          if t.Switched(j) {
            CountGrows(t, i, j);
            AtMostMax(t, n);
          }
        }
      }
    } else {
      SlowRunRetries(cfg, n);
    }
  }

  lemma SlowRunRetries(cfg: Settings, n: nat)
    requires MaxSwitches(cfg, n) >= 2
    ensures !NoRetry(SlowRun(cfg, n))
  {
    hide StateAt, MaxSwitches, SlowTick, CountSwitches, Switches;
    var t := SlowRun(cfg, n);
    SlowRunIsSteady(cfg, n);
    SteadyCount(t, n);
    var i, j := TwoSwitches(t, 0, n);
    NeverVerified(cfg, i);
    assert !t.SwitchKept(i);
  }

  /** With the shipped settings the second recovery starts three ticks after the first one failed. */
  lemma RetriesAfterFailure()
    ensures var t := SlowRun(DEFAULTS, 5); t.Switched(1) && !t.SwitchKept(1) && t.Switched(4)
  {
    hide StateAt, SlowTick, Switches;
    SlowRunIsSteady(DEFAULTS, 5);
    SteadySwitches(SlowRun(DEFAULTS, 5), 1);
    SteadySwitches(SlowRun(DEFAULTS, 5), 4);
    NeverVerified(DEFAULTS, 1);
  }

  // ---------------------------------------------------------------- the cooldown

  /** After a switch no other switch for a whole cooldown: the distance is more than cooldown_cycles. */
  ghost predicate CooldownKeepsFree(cfg: Settings) {
    forall t: Trace, i: nat, j: nat :: Fresh(t) && t.cfg == cfg && i < j < |t.ins| && t.Switched(i) && t.Switched(j) ==>
      j - i > cfg.cooldownCycles
  }

  /** The documented cooldown is kept exactly by the settings that ask for none: with any other the next
      switch can come cooldown_cycles ticks later, one too early. */
  lemma CooldownKeepsFreeIff(cfg: Settings)
    ensures CooldownKeepsFree(cfg) <==> cfg.cooldownCycles <= 0
  {
    hide StateAt, Switches, SlowTick;
    if cfg.cooldownCycles > 0 {
      var i, d := Lead(cfg), cfg.cooldownCycles;
      var t := SlowRun(cfg, i + d + 1);
      SlowRunIsSteady(cfg, i + d + 1);
      SteadySwitches(t, i);
      SteadySwitches(t, i + d);
      DivisionUnique(d, d, 1, 0);
      assert Fresh(t) && t.cfg == cfg && t.Switched(i) && t.Switched(i + d);
    }
  }

  /** After a tick that fails closed no switch for a whole cooldown. */
  ghost predicate DisableKeepsFree(cfg: Settings) {
    forall t: Trace, i: nat, j: nat ::
      Fresh(t) && t.cfg == cfg && i < j < |t.ins| && t.Act(i) == DisablePredictions && t.Switched(j) ==>
        j - i > cfg.cooldownCycles
  }

  /** A slow run on whose tick p the backup is down. */
  function BackupDownAt(cfg: Settings, p: nat, n: nat): (t: Trace)
    ensures t.cfg == cfg && |t.ins| == n && Fresh(t)
    ensures forall k :: 0 <= k < n ==>
              t.ins[k].executorOk && t.ins[k].detectors == SlowTick(cfg, k).detectors &&
              (t.ins[k] == SlowTick(cfg, k) ||
               (k == p && t.ins[k].obs == SlowTick(cfg, k).obs.(backup := HealthProbe(false, Unhealthy))))
    ensures p < n ==> !BackupHealthy(t.ins[p].obs) && forall k :: 0 <= k < n && k != p ==> t.ins[k] == SlowTick(cfg, k)
  {
    Trace(cfg, Start(ModelA), seq(n, k requires 0 <= k =>
      var i := SlowTick(cfg, k);
      if k == p then i.(obs := i.obs.(backup := HealthProbe(false, Unhealthy))) else i))
  }

  lemma BackupDownIsHigh(cfg: Settings, p: nat, n: nat, k: nat)
    requires k < n
    ensures BackupDownAt(cfg, p, n).High(k)
  {
    hide StateAt, ChannelsAfter, Classify;
    var t := BackupDownAt(cfg, p, n);
    SlowIsHigh(cfg, t.At(k), k);
    assert ContextOf(t.At(k), t.ins[k].obs) == ContextOf(t.At(k), SlowTick(cfg, k).obs);
    assert FindingsOf(t.At(k), t.ins[k]) == FindingsOf(t.At(k), SlowTick(cfg, k));
  }

  /** Failing closed starts no cooldown: for every setting there is a run that fails closed on a tick and
      switches on the next, when the backup is back. */
  lemma SwitchRightAfterDisable(cfg: Settings)
    ensures var t, p := BackupDownAt(cfg, Lead(cfg), Lead(cfg) + 2), Lead(cfg);
            t.Act(p) == DisablePredictions && t.Switched(p + 1)
  {
    hide StateAt, SeverityOf, Action, SlowTick, BackupHealthy;
    var p := Lead(cfg);
    var t := BackupDownAt(cfg, p, p + 2);
    forall k: nat | k < p + 2 ensures t.High(k) && t.NonLow(k) { BackupDownIsHigh(cfg, p, p + 2, k); }
    forall k: nat | k < p ensures !t.Switched(k) { NoneInLead(t, k); }
    assert t.Confirmed(p) && t.Confirmed(p + 1);
    ActionFromTrace(t, p);
    assert t.Act(p) == Action(t.cfg, t.At(p), t.ins[p]);
    assert !t.Switched(p);
    SlowIsHigh(cfg, t.At(p + 1), p + 1);
    ActionFromTrace(t, p + 1);
    assert t.Act(p + 1) == Action(t.cfg, t.At(p + 1), t.ins[p + 1]);
  }

  /** The design lets the cooldown follow every act, failing closed included; after that one it is kept
      exactly by the settings that ask for none. */
  lemma DisableKeepsFreeIff(cfg: Settings)
    ensures DisableKeepsFree(cfg) <==> cfg.cooldownCycles <= 0
  {
    hide StateAt, Switches, Action, SlowTick;
    if cfg.cooldownCycles > 0 {
      SwitchRightAfterDisable(cfg);
      var t, p := BackupDownAt(cfg, Lead(cfg), Lead(cfg) + 2), Lead(cfg);
      assert Fresh(t) && t.cfg == cfg && t.Act(p) == DisablePredictions && t.Switched(p + 1);
    }
  }

  // ---------------------------------------------------------------- anomalies alone

  /** The anomaly channel never moves traffic: on a run where nothing but anomalies is ever HIGH, whatever
      they are, no tick switches or fails closed, and the runtime keeps model and serving. */
  lemma {:induction false} AnomaliesNeverAct(t: Trace, k: nat)
    requires k <= |t.ins|
    requires forall j: nat :: j < k ==> OnlyAnomaliesBeyond(t, j)
    ensures forall j: nat :: j < k ==> !Acts(t.Act(j))
    ensures t.At(k).active == t.start.active && t.At(k).serving == t.start.serving
  {
    hide SeverityOf, NonLow, Failures, Recovered;
    if k > 0 {
      AnomaliesNeverAct(t, k - 1);
      NotHigh(t, k - 1);
    }
  }

  /** Every breaching finding of tick k is an anomaly or below HIGH. */
  ghost predicate OnlyAnomaliesBeyond(t: Trace, k: nat)
    requires k < |t.ins|
  {
    forall d :: d in FindingsOf(t.At(k), t.ins[k]) && d.anomalyDetected ==>
      d.detector == AnomalyDetector || ClassifyDetection(t.cfg, d) != High
  }

  lemma NotHigh(t: Trace, k: nat)
    requires k < |t.ins| && OnlyAnomaliesBeyond(t, k)
    ensures !t.High(k) && !Acts(t.Act(k))
  {
    hide StateAt, FindingsOf, Classify;
    ClassifyIsMax(t.cfg, FindingsOf(t.At(k), t.ins[k]));
  }
}
