/** The audit trail under the agent: whatever is lost and whatever other clients post, the agent's
    calls keep the incident invariants, never revert, and close a switch's incident with its verdict. */
module AuditTrail {
  import opened Schemas
  import opened Retry
  import opened Agent
  import AR = AgentRuns
  import opened ControlPlane
  import R = Registry
  import I = Incidents
  import L = IncidentLaws

  /** Every recorded verdict keeps a recovered action or escalates a failed one. */
  ghost predicate NoReverts(s: I.Store) {
    forall k :: k in s.verdicts ==> s.verdicts[k].decision == if s.verdicts[k].success then I.Keep else I.Escalate
  }

  ghost predicate Safe(s: I.Store) {
    I.WellFormed(s) && L.ClosedIffTerminal(s) && L.OneOpen(s) && NoReverts(s)
  }

  predicate Judged(m: Message) { m.PatchAction? ==> m.escalate == !m.recovered }

  /** The store call a patch message amounts to. */
  function PatchOf(m: Message, now: int): I.Call
    requires m.PatchAction?
  {
    I.PatchCall(m.id, Some(I.Reported(if m.recovered then Success else Failed)),
                Some(I.Verification(m.recovered, m.escalate)), now)
  }

  /** The trail only grows, and what is closed stays closed. */
  ghost predicate Progress(s: I.Store, t: I.Store) { L.Extends(s, t) && L.StayClosed(s, t) }

  lemma CallSafe(s: I.Store, c: I.Call)
    requires Safe(s)
    requires c.PatchCall? && c.verification.Some? ==> c.verification.value.escalate == !c.verification.value.recovered
    ensures Safe(I.Apply(s, c)) && Progress(s, I.Apply(s, c))
  {
    hide L.OneOpen, L.ClosedIffTerminal, I.WellFormed, I.OutcomeFromAgent, I.ActionFromAgent, I.OpenIncident,
         L.Extends, L.StayClosed;
    L.StepClosed(s, c);
    L.StepOneOpen(s, c);
    L.StepExtends(s, c);
    L.StayClosedIff(s, c);
  }

  lemma PostSafe(b: Backend, name: string, wire: I.WireAction, severity: Severity, outcome: I.WireOutcome)
    requires Safe(b.store)
    ensures Safe(PostActionTo(b, name, wire, severity, outcome).store)
    ensures Progress(b.store, PostActionTo(b, name, wire, severity, outcome).store)
  {
    hide Safe, I.Post, R.Resolve, R.Strip, Progress;
    SafeWellFormed(b.store);
    var v := R.Resolve(b.registry, if R.Strip(name) == "" then "model_a" else name, "").1;
    CallSafe(b.store, I.PostCall(v, wire, severity, outcome));
  }

  lemma SafeWellFormed(s: I.Store)
    requires Safe(s)
    ensures I.WellFormed(s)
  {
  }

  lemma ReceiveSafe(b: Backend, m: Message, now: int)
    requires Safe(b.store) && Judged(m)
    ensures I.WellFormed(b.store)
    ensures Safe(Receive(b, m, now).store) && Progress(b.store, Receive(b, m, now).store)
  {
    hide Safe, I.Patch, I.Post, R.Resolve, R.PostActive, PostMetricsTo, PostActionTo, Progress, I.WellFormed;
    SafeWellFormed(b.store);
    match m
    case SetActive(t) => ProgressSelf(b.store);
    case PostMetrics(n, v, _, _) => ProgressSelf(b.store);
    case PostAction(a, sev, t, o, _) => PostSafe(b, NameOf(t), I.Known(a), sev, I.Reported(o));
    case PatchAction(id, rec, esc) =>
      CallSafe(b.store, PatchOf(m, now));
  }

  lemma ProgressSelf(s: I.Store)
    ensures Progress(s, s)
  {
  }

  lemma ProgressTrans(s: I.Store, t: I.Store, u: I.Store)
    requires Progress(s, t) && Progress(t, u)
    ensures Progress(s, u)
  {
  }

  lemma {:induction false} ServeAllSafe(b: Backend, fs: seq<Foreign>)
    requires Sound(b) && Safe(b.store)
    ensures Safe(ServeAll(b, fs).store) && Progress(b.store, ServeAll(b, fs).store)
  {
    hide Safe, Progress, PostMetricsTo, PostActionTo, Sound;
    if fs == [] {
      ProgressSelf(b.store);
    } else {
      var mid, f := ServeAll(b, fs[..|fs| - 1]), fs[|fs| - 1];
      ServeAllSafe(b, fs[..|fs| - 1]);
      if f.IngestAction? {
        PostSafe(mid, f.model, f.wire, f.severity, f.outcome);
        ProgressTrans(b.store, mid.store, Serve(mid, f).store);
      }
    }
  }

  ghost predicate AllJudged(msgs: seq<Message>) {
    forall j :: 0 <= j < |msgs| ==> Judged(msgs[j])
  }

  lemma {:induction false} DeliverSafe(b: Backend, msgs: seq<Message>, env: Env)
    requires Sound(b) && Safe(b.store) && AllJudged(msgs)
    ensures Safe(DeliverAll(b, msgs, env).store) && Progress(b.store, DeliverAll(b, msgs, env).store)
    ensures Safe(Before(b, msgs, env).store) && Progress(DeliverAll(b, msgs, env).store, Before(b, msgs, env).store)
    decreases |msgs|
  {
    hide Safe, Progress, Receive, ServeAll, Sound, Judged;
    if msgs == [] {
      ProgressSelf(b.store);
    } else {
      var n := |msgs| - 1;
      DeliverSafe(b, msgs[..n], env);
      var mid := Before(b, msgs[..n], env);
      ProgressTrans(b.store, DeliverAll(b, msgs[..n], env).store, mid.store);
      if env.delivered(n) {
        ReceiveSafe(mid, msgs[n], env.now);
        ProgressTrans(b.store, mid.store, Receive(mid, msgs[n], env.now).store);
      }
    }
    ServeAllSafe(DeliverAll(b, msgs, env), env.foreign(|msgs|));
  }

  lemma TickJudged(cfg: Settings, s: Runtime, i: TickInput)
    ensures AllJudged(Messages(cfg, s, i))
  {
    hide Messages;
    AR.PatchesNeverRevert(cfg, s, i);
    forall j | 0 <= j < |Messages(cfg, s, i)| ensures Judged(Messages(cfg, s, i)[j]) {
      assert Messages(cfg, s, i)[j] in Messages(cfg, s, i);
    }
  }

  /** On every run, with any losses, any replies and any posts of other clients in between: closing times
      match terminal statuses, no version has two open incidents, no verdict is ever a REVERT, and the
      trail only grows. */
  lemma {:induction false} TrailSafeOnEveryRun(cfg: Settings, s: Runtime, ins: seq<TickInput>, b: Backend,
                                               envs: seq<Env>, k: nat)
    requires k <= |ins| && k <= |envs| && Sound(b) && Safe(b.store)
    ensures Safe(BackendAt(cfg, s, ins, b, envs, k).store)
    ensures Progress(b.store, BackendAt(cfg, s, ins, b, envs, k).store)
  {
    hide Safe, Progress, Messages, DeliverAll, StateAt, Sound;
    if k == 0 {
      ProgressSelf(b.store);
    } else {
      TrailSafeOnEveryRun(cfg, s, ins, b, envs, k - 1);
      var mid := BackendAt(cfg, s, ins, b, envs, k - 1);
      TickJudged(cfg, StateAt(cfg, s, ins, k - 1), ins[k - 1]);
      DeliverSafe(mid, Messages(cfg, StateAt(cfg, s, ins, k - 1), ins[k - 1]), envs[k - 1]);
      ProgressTrans(b.store, mid.store, BackendAt(cfg, s, ins, b, envs, k).store);
    }
  }

  // ---------------------------------------------------------------- the verdict of a switch

  /** What precedes the posted action in a tick's messages. */
  function AheadOfPost(cfg: Settings, s: Runtime, i: TickInput): seq<Message> {
    SwitchMessages(cfg, s, i) + ReportMessages(cfg, s, i)[..|ReportMessages(cfg, s, i)| - 1]
  }

  /** The id the backend gives to the action posted in this tick. */
  function PostedId(cfg: Settings, s: Runtime, i: TickInput, b: Backend, env: Env): nat
    requires Sound(b)
  {
    |Before(b, AheadOfPost(cfg, s, i), env).store.logs|
  }

  lemma PostAppends(b: Backend, name: string, wire: I.WireAction, severity: Severity, outcome: I.WireOutcome)
    ensures var t := PostActionTo(b, name, wire, severity, outcome).store;
            |t.logs| == |b.store.logs| + 1 && t.logs[|b.store.logs|].action == I.ActionFromAgent(wire)
  {
    hide R.Resolve, R.Strip;
  }

  lemma {:induction false} DeliverLonger(b: Backend, msgs: seq<Message>, more: seq<Message>, env: Env)
    requires Sound(b) && Safe(b.store) && AllJudged(msgs + more)
    ensures Safe(DeliverAll(b, msgs, env).store)
    ensures Progress(DeliverAll(b, msgs, env).store, DeliverAll(b, msgs + more, env).store)
    decreases |more|
  {
    hide Safe, Progress, Receive, ServeAll, Sound, Judged;
    assert forall j :: 0 <= j < |msgs| ==> (msgs + more)[j] == msgs[j];
    DeliverSafe(b, msgs, env);
    if more == [] {
      assert msgs + more == msgs;
      ProgressSelf(DeliverAll(b, msgs, env).store);
    } else {
      var all, n := msgs + more, |msgs + more| - 1;
      var init := msgs + more[..|more| - 1];
      assert all[..n] == init;
      assert forall j :: 0 <= j < |init| ==> all[j] == init[j];
      DeliverLonger(b, msgs, more[..|more| - 1], env);
      DeliverSafe(b, init, env);
      var mid := Before(b, init, env);
      ProgressTrans(DeliverAll(b, msgs, env).store, DeliverAll(b, init, env).store, mid.store);
      if env.delivered(n) {
        ReceiveSafe(mid, all[n], env.now);
        ProgressTrans(DeliverAll(b, msgs, env).store, mid.store, Receive(mid, all[n], env.now).store);
      }
    }
  }

  lemma PatchEffect(s: I.Store, id: nat, recovered: bool, now: int)
    requires I.WellFormed(s) && id < |s.logs|
    ensures var t := I.Patch(s, id, Some(I.Reported(if recovered then Success else Failed)),
                             Some(I.Verification(recovered, !recovered)), now);
            |t.logs| == |s.logs| && t.logs[id].action == s.logs[id].action &&
              t.logs[id].incident == s.logs[id].incident < |t.incidents| &&
            t.logs[id].outcome == (if recovered then I.LogSuccess else I.LogFailed) &&
            t.incidents[t.logs[id].incident].status == (if recovered then I.Resolved else I.Escalated) &&
            t.incidents[t.logs[id].incident].closedAt == Some(now) &&
            id in t.verdicts && t.verdicts[id] == I.VerdictRow(recovered, if recovered then I.Keep else I.Escalate)
  {
  }

  /** The log that ends up with a verdict is the switch that was posted in the same tick. */
  ghost predicate SwitchClosed(s: I.Store, id: nat, recovered: bool, now: int) {
    id < |s.logs| && s.logs[id].action == I.LogSwitch && s.logs[id].incident < |s.incidents| &&
    s.logs[id].outcome == (if recovered then I.LogSuccess else I.LogFailed) &&
    s.incidents[s.logs[id].incident].status == (if recovered then I.Resolved else I.Escalated) &&
    s.incidents[s.logs[id].incident].closedAt == Some(now) &&
    id in s.verdicts && s.verdicts[id].decision == (if recovered then I.Keep else I.Escalate)
  }

  lemma PostedSwitch(cfg: Settings, s: Runtime, i: TickInput, b: Backend, env: Env)
    requires Sound(b) && Safe(b.store) && Switches(cfg, s, i)
    requires env.delivered(|AheadOfPost(cfg, s, i)|)
    ensures var id := PostedId(cfg, s, i, b, env);
            var t := DeliverAll(b, SwitchMessages(cfg, s, i) + ReportMessages(cfg, s, i), env).store;
            id < |t.logs| && t.logs[id].action == I.LogSwitch
  {
    hide Safe, ServeAll, Sound, Switches, Recovered, SeverityOf, OutcomeOf, PostActionTo, DeliverAll, Before;
    var ahead, rm := AheadOfPost(cfg, s, i), ReportMessages(cfg, s, i);
    var last := rm[|rm| - 1];
    assert SwitchMessages(cfg, s, i) + rm == ahead + [last];
    SwitchIsAction(cfg, s, i);
    var mid := Before(b, ahead, env);
    PostAppends(mid, NameOf(last.model), I.Known(last.action), last.severity, I.Reported(last.outcome));
    DeliverLast(b, ahead, last, env);
  }

  lemma SwitchIsAction(cfg: Settings, s: Runtime, i: TickInput)
    requires Switches(cfg, s, i)
    ensures Action(cfg, s, i) == SwitchBackup
  {
  }

  lemma DeliverLast(b: Backend, msgs: seq<Message>, m: Message, env: Env)
    requires Sound(b)
    ensures DeliverAll(b, msgs + [m], env) ==
            if env.delivered(|msgs|) then Receive(Before(b, msgs, env), m, env.now) else Before(b, msgs, env)
  {
    hide Sound, Receive, Before;
    assert (msgs + [m])[..|msgs|] == msgs;
  }

  /** When the calls of a tick arrive and the reply names the posted action, a switch leaves a record that
      is SUCCESS with a RESOLVED incident if it recovered, FAILED with an ESCALATED one if not. */
  lemma SwitchVerdict(cfg: Settings, s: Runtime, i: TickInput, b: Backend, env: Env)
    requires Sound(b) && Safe(b.store) && Switches(cfg, s, i)
    requires forall j: nat :: env.delivered(j)
    requires i.reply == Some(PostedId(cfg, s, i, b, env))
    ensures SwitchClosed(DeliverAll(b, Messages(cfg, s, i), env).store, PostedId(cfg, s, i, b, env),
                         Recovered(cfg, i.probes), env.now)
  {
    hide Safe, ServeAll, Sound, Switches, Recovered, ReportMessages, SwitchMessages, DeliverAll, Before, AheadOfPost,
         I.Patch;
    var id, rec := PostedId(cfg, s, i, b, env), Recovered(cfg, i.probes);
    assert env.delivered(|AheadOfPost(cfg, s, i)|);
    PostedSwitch(cfg, s, i, b, env);
    var posted := SwitchMessages(cfg, s, i) + ReportMessages(cfg, s, i);
    var vm := VerifyMessages(cfg, s, i);
    var patch := PatchAction(id, rec, !rec);
    var undo := if rec then [] else [SetActive(s.active)];
    assert vm == undo + [patch];
    assert Messages(cfg, s, i) == (posted + undo) + [patch];
    TickJudged(cfg, s, i);
    JudgedPrefix(posted + undo, [patch]);
    DeliverLonger(b, posted, undo, env);
    DeliverSafe(b, posted + undo, env);
    var mid := Before(b, posted + undo, env);
    ProgressTrans(DeliverAll(b, posted, env).store, DeliverAll(b, posted + undo, env).store, mid.store);
    DeliverLast(b, posted + undo, patch, env);
    assert env.delivered(|posted + undo|);
    SafeWellFormed(mid.store);
    PatchEffect(mid.store, id, rec, env.now);
  }

  lemma JudgedPrefix(a: seq<Message>, b: seq<Message>)
    requires AllJudged(a + b)
    ensures AllJudged(a)
  {
    forall j | 0 <= j < |a| ensures Judged(a[j]) { assert (a + b)[j] == a[j]; }
  }
}
