/** The documented cap of one recovery attempt per incident. No counter enforces it: it is the audit trail
    that keeps every executed switch in an incident of its own, as long as its verdict arrives. */
module IncidentCap {
  import opened Arithmetic
  import opened Schemas
  import opened Decisions
  import opened Retry
  import opened Agent
  import AR = AgentRuns
  import Slow = SlowService
  import opened ControlPlane
  import opened AuditTrail
  import R = Registry
  import I = Incidents
  import L = IncidentLaws

  // ---------------------------------------------------------------- stores under posts alone

  /** What posts do to a store: they open incidents, and close and reopen none. */
  ghost predicate OnlyPosts(s: I.Store, t: I.Store) {
    L.Extends(s, t) && t.verdicts == s.verdicts &&
    forall x :: 0 <= x < |s.incidents| ==> (I.Terminal(t.incidents[x].status) <==> I.Terminal(s.incidents[x].status))
  }

  lemma OnlyPostsSelf(s: I.Store)
    ensures OnlyPosts(s, s)
  {
  }

  lemma OnlyPostsTrans(s: I.Store, t: I.Store, u: I.Store)
    requires OnlyPosts(s, t) && OnlyPosts(t, u)
    ensures OnlyPosts(s, u)
  {
  }

  lemma PostIsPost(s: I.Store, version: nat, wire: I.WireAction, severity: Severity, outcome: I.WireOutcome)
    requires I.WellFormed(s)
    ensures OnlyPosts(s, I.Post(s, version, wire, severity, outcome).0)
  {
    hide I.ActionFromAgent, I.OutcomeFromAgent, I.NonTrivial;
  }

  lemma PostedIsPost(b: Backend, name: string, wire: I.WireAction, severity: Severity, outcome: I.WireOutcome)
    requires I.WellFormed(b.store)
    ensures OnlyPosts(b.store, PostActionTo(b, name, wire, severity, outcome).store)
  {
    hide OnlyPosts, I.Post, R.Resolve, R.Strip, I.WellFormed;
    var v := R.Resolve(b.registry, if R.Strip(name) == "" then "model_a" else name, "").1;
    PostIsPost(b.store, v, wire, severity, outcome);
  }

  lemma ReceiveIsPost(b: Backend, m: Message, now: int)
    requires I.WellFormed(b.store) && !m.PatchAction?
    ensures OnlyPosts(b.store, Receive(b, m, now).store)
  {
    hide OnlyPosts, R.PostActive, PostMetricsTo, PostActionTo, I.WellFormed;
    match m
    case SetActive(t) => OnlyPostsSelf(b.store);
    case PostMetrics(n, v, _, _) => OnlyPostsSelf(b.store);
    case PostAction(a, sev, t, o, _) => PostedIsPost(b, NameOf(t), I.Known(a), sev, I.Reported(o));
  }

  lemma {:induction false} ServedIsPost(b: Backend, fs: seq<Foreign>)
    requires Sound(b)
    ensures OnlyPosts(b.store, ServeAll(b, fs).store)
  {
    hide OnlyPosts, PostMetricsTo, PostActionTo, I.WellFormed, R.Consistent;
    if fs == [] {
      OnlyPostsSelf(b.store);
    } else {
      var mid, f := ServeAll(b, fs[..|fs| - 1]), fs[|fs| - 1];
      ServedIsPost(b, fs[..|fs| - 1]);
      if f.IngestAction? {
        PostedIsPost(mid, f.model, f.wire, f.severity, f.outcome);
        OnlyPostsTrans(b.store, mid.store, Serve(mid, f).store);
      }
    }
  }

  /** Patches among the messages from position n on are lost. */
  ghost predicate NoPatchFrom(msgs: seq<Message>, n: nat, env: Env) {
    forall i: nat :: n <= i < |msgs| && msgs[i].PatchAction? ==> !env.delivered(i)
  }

  lemma BeforeIsPost(b: Backend, msgs: seq<Message>, env: Env)
    requires Sound(b)
    ensures OnlyPosts(DeliverAll(b, msgs, env).store, Before(b, msgs, env).store)
  {
    hide OnlyPosts, Sound, DeliverAll, ServeAll;
    ServedIsPost(DeliverAll(b, msgs, env), env.foreign(|msgs|));
  }

  lemma {:induction false} DeliveredIsPost(b: Backend, msgs: seq<Message>, more: seq<Message>, env: Env)
    requires Sound(b) && NoPatchFrom(msgs + more, |msgs|, env)
    ensures OnlyPosts(DeliverAll(b, msgs, env).store, DeliverAll(b, msgs + more, env).store)
    ensures OnlyPosts(DeliverAll(b, msgs, env).store, Before(b, msgs + more, env).store)
    decreases |more|
  {
    hide OnlyPosts, Sound, Before, Receive;
    if more == [] {
      assert msgs + more == msgs;
      OnlyPostsSelf(DeliverAll(b, msgs, env).store);
    } else {
      var n, last := |more| - 1, more[|more| - 1];
      var init := msgs + more[..n];
      assert msgs + more == init + [last];
      assert NoPatchFrom(init, |msgs|, env) by {
        assert forall i: nat :: i < |init| ==> init[i] == (msgs + more)[i];
      }
      assert (msgs + more)[|init|] == last;
      DeliveredIsPost(b, msgs, more[..n], env);
      DeliverLast(b, init, last, env);
      if env.delivered(|init|) {
        SoundWellFormed(Before(b, init, env));
        ReceiveIsPost(Before(b, init, env), last, env.now);
        OnlyPostsTrans(DeliverAll(b, msgs, env).store, Before(b, init, env).store,
                       DeliverAll(b, msgs + more, env).store);
      }
    }
    BeforeIsPost(b, msgs + more, env);
    OnlyPostsTrans(DeliverAll(b, msgs, env).store, DeliverAll(b, msgs + more, env).store,
                   Before(b, msgs + more, env).store);
  }

  lemma SoundWellFormed(b: Backend)
    requires Sound(b)
    ensures I.WellFormed(b.store)
  {
  }

  // ---------------------------------------------------------------- histories

  /** A run of the agent against a backend, from the state either starts in. */
  datatype History = History(cfg: Settings, start: Runtime, ins: seq<TickInput>, b: Backend, envs: seq<Env>) {
    ghost predicate Valid() { |ins| == |envs| && Sound(b) && Safe(b.store) }

    function Runtime(k: nat): Runtime
      requires k <= |ins|
    {
      StateAt(cfg, start, ins, k)
    }

    function At(k: nat): (r: Backend)
      requires Valid() && k <= |ins|
      ensures Sound(r)
    {
      BackendAt(cfg, start, ins, b, envs, k)
    }

    function Sent(k: nat): seq<Message>
      requires k < |ins|
    {
      Messages(cfg, Runtime(k), ins[k])
    }

    function Ahead(k: nat): seq<Message>
      requires k < |ins|
    {
      AheadOfPost(cfg, Runtime(k), ins[k])
    }

    /** The backend when the action of tick k arrives. */
    function AtPost(k: nat): (r: Backend)
      requires Valid() && k < |ins|
      ensures Sound(r)
    {
      Before(At(k), Ahead(k), envs[k])
    }

    /** Tick k executes a switch, and its record arrives. */
    ghost predicate Attempt(k: nat)
      requires Valid() && k < |ins|
    {
      Switches(cfg, Runtime(k), ins[k]) && envs[k].delivered(|Ahead(k)|)
    }

    /** The record of the action of tick k, and the version it is filed under. */
    function LogOf(k: nat): nat
      requires Valid() && k < |ins|
    {
      |AtPost(k).store.logs|
    }

    function VersionOf(k: nat): nat
      requires Valid() && k < |ins|
    {
      R.Resolve(AtPost(k).registry, NameOf(Other(Runtime(k).active)), "").1
    }

    /** The store once the action of tick k has been recorded. */
    function Recorded(k: nat): (r: Backend)
      requires Valid() && k < |ins|
      ensures Sound(r)
    {
      DeliverAll(At(k), Ahead(k) + [PostMessage(k)], envs[k])
    }

    function PostMessage(k: nat): Message
      requires k < |ins|
    {
      ActionMessage(DecisionOf(cfg, Runtime(k), ins[k]), OutcomeOf(cfg, Runtime(k), ins[k]))
    }

    /** The incident an attempt belongs to. */
    ghost function IncidentOf(k: nat): nat
      requires Valid() && k < |ins|
    {
      if LogOf(k) < |Recorded(k).store.logs| then Recorded(k).store.logs[LogOf(k)].incident else 0
    }

    /** The verdict on the switch of tick k arrives. */
    ghost predicate Judged(k: nat)
      requires Valid() && k < |ins|
    {
      Switches(cfg, Runtime(k), ins[k]) && ins[k].reply.Some? && envs[k].delivered(|Sent(k)| - 1)
    }

    /** The backend answers a recorded switch with the id of its record, if the answer is not lost. */
    ghost predicate HonestAt(k: nat)
      requires Valid() && k < |ins|
    {
      Switches(cfg, Runtime(k), ins[k]) && ins[k].reply.Some? ==> Attempt(k) && ins[k].reply.value == LogOf(k)
    }

    ghost predicate Honest()
      requires Valid()
    {
      forall k: nat :: k < |ins| ==> HonestAt(k)
    }

    /** The documented cap: no incident has two executed switches. */
    ghost predicate OneAttemptPerIncident()
      requires Valid()
    {
      forall i: nat, j: nat :: i < j < |ins| && Attempt(i) && Attempt(j) ==> IncidentOf(i) != IncidentOf(j)
    }

    /** A switch that is followed by another to the same version has been judged. */
    ghost predicate VerdictsArrive()
      requires Valid()
    {
      forall i: nat, j: nat :: i < j < |ins| && Attempt(i) && Attempt(j) && VersionOf(i) == VersionOf(j) ==> Judged(i)
    }
  }

  // ---------------------------------------------------------------- one tick

  lemma SafeAt(h: History, k: nat)
    requires h.Valid() && k <= |h.ins|
    ensures Safe(h.At(k).store) && I.WellFormed(h.At(k).store)
  {
    hide BackendAt, Safe;
    TrailSafeOnEveryRun(h.cfg, h.start, h.ins, h.b, h.envs, k);
    SafeWellFormed(h.At(k).store);
  }

  /** The messages of a switching tick: the record of the action, then perhaps the undoing and the patch. */
  function Undo(h: History, k: nat): seq<Message>
    requires k < |h.ins|
  {
    if Recovered(h.cfg, h.ins[k].probes) then [] else [SetActive(h.Runtime(k).active)]
  }

  function PatchMessage(h: History, k: nat): seq<Message>
    requires k < |h.ins|
  {
    var rec := Recovered(h.cfg, h.ins[k].probes);
    if h.ins[k].reply.Some? then [PatchAction(h.ins[k].reply.value, rec, !rec)] else []
  }

  lemma SwitchSends(h: History, k: nat)
    requires k < |h.ins| && Switches(h.cfg, h.Runtime(k), h.ins[k])
    ensures h.Sent(k) == h.Ahead(k) + [h.PostMessage(k)] + Undo(h, k) + PatchMessage(h, k)
    ensures forall m :: m in h.Ahead(k) + [h.PostMessage(k)] + Undo(h, k) ==> !m.PatchAction?
    ensures h.PostMessage(k).action == SwitchBackup && h.PostMessage(k).model == Other(h.Runtime(k).active)
  {
    hide StateAt, Switches, Recovered, OutcomeOf, DecisionOf, MetricsMessages;
    AheadIsPost(h, k);
    SwitchIsAction(h.cfg, h.Runtime(k), h.ins[k]);
  }

  lemma OthersSend(h: History, k: nat)
    requires k < |h.ins| && !Switches(h.cfg, h.Runtime(k), h.ins[k])
    ensures forall m :: m in h.Sent(k) ==> !m.PatchAction?
  {
    hide StateAt, Switches, Recovered, OutcomeOf, DecisionOf, MetricsOf, FindingsOf;
  }

  lemma DeliverNone(b: Backend, env: Env)
    requires Sound(b)
    ensures DeliverAll(b, [], env) == b
  {
  }

  /** Up to the record of the action, and in a tick that is not judged to its end, the store only sees posts. */
  lemma UpToRecord(h: History, k: nat)
    requires h.Valid() && k < |h.ins|
    ensures OnlyPosts(h.At(k).store, h.AtPost(k).store)
  {
    hide StateAt, BackendAt, OnlyPosts, Messages, OutcomeOf, DecisionOf, Safe, Sound;
    DeliverNone(h.At(k), h.envs[k]);
    AheadIsPost(h, k);
    assert [] + h.Ahead(k) == h.Ahead(k);
    DeliveredIsPost(h.At(k), [], h.Ahead(k), h.envs[k]);
  }

  lemma AheadIsPost(h: History, k: nat)
    requires k < |h.ins|
    ensures forall m :: m in h.Ahead(k) ==> !m.PatchAction?
  {
    hide StateAt, Switches, OutcomeOf, DecisionOf, MetricsOf, FindingsOf;
  }

  lemma UnjudgedTick(h: History, k: nat)
    requires h.Valid() && k < |h.ins| && !h.Judged(k)
    ensures OnlyPosts(h.At(k).store, h.At(k + 1).store)
  {
    hide OnlyPosts, Safe, Sound, StateAt, Switches, Messages, DeliverAll;
    DeliverNone(h.At(k), h.envs[k]);
    assert [] + h.Sent(k) == h.Sent(k);
    UnjudgedPatches(h, k);
    DeliveredIsPost(h.At(k), [], h.Sent(k), h.envs[k]);
  }

  lemma UnjudgedPatches(h: History, k: nat)
    requires h.Valid() && k < |h.ins| && !h.Judged(k)
    ensures NoPatchFrom(h.Sent(k), 0, h.envs[k])
  {
    hide StateAt, Switches, Messages, Undo;
    if Switches(h.cfg, h.Runtime(k), h.ins[k]) {
      SwitchSends(h, k);
      var front := h.Ahead(k) + [h.PostMessage(k)] + Undo(h, k);
      assert forall i: nat :: i < |front| ==> h.Sent(k)[i] == front[i] && front[i] in front;
    } else {
      OthersSend(h, k);
      assert forall i: nat :: i < |h.Sent(k)| ==> h.Sent(k)[i] in h.Sent(k);
    }
  }

  /** What the tick sends before the patch. */
  function BeforePatch(h: History, k: nat): seq<Message>
    requires k < |h.ins|
  {
    h.Ahead(k) + [h.PostMessage(k)] + Undo(h, k)
  }

  lemma JudgedSends(h: History, k: nat)
    requires h.Valid() && h.Honest() && k < |h.ins| && h.Judged(k)
    ensures var rec := Recovered(h.cfg, h.ins[k].probes);
            h.Sent(k) == BeforePatch(h, k) + [PatchAction(h.LogOf(k), rec, !rec)]
    ensures h.envs[k].delivered(|BeforePatch(h, k)|)
    ensures NoPatchFrom(BeforePatch(h, k), |h.Ahead(k) + [h.PostMessage(k)]|, h.envs[k])
  {
    hide Safe, Sound, StateAt, BackendAt, Switches, Undo, Recovered, History.AtPost, History.Ahead, History.PostMessage,
         History.LogOf, History.Sent, History.Attempt;
    SwitchSends(h, k);
    assert h.HonestAt(k);
    assert forall i: nat :: i < |BeforePatch(h, k)| ==> BeforePatch(h, k)[i] in BeforePatch(h, k);
  }

  /** A judged tick: posts, and at the end the patch of the record. */
  lemma JudgedTick(h: History, k: nat) returns (m: Backend)
    requires h.Valid() && h.Honest() && k < |h.ins| && h.Judged(k)
    ensures Sound(m) && OnlyPosts(h.Recorded(k).store, m.store)
    ensures var rec := Recovered(h.cfg, h.ins[k].probes);
            h.At(k + 1) == Receive(m, PatchAction(h.LogOf(k), rec, !rec), h.envs[k].now)
  {
    hide OnlyPosts, Safe, Sound, StateAt, DeliverAll, Undo, Recovered, Receive, NoPatchFrom, History.Ahead,
         History.PostMessage, History.LogOf, History.Judged, History.Honest;
    JudgedSends(h, k);
    var rec := Recovered(h.cfg, h.ins[k].probes);
    DeliveredIsPost(h.At(k), h.Ahead(k) + [h.PostMessage(k)], Undo(h, k), h.envs[k]);
    m := Before(h.At(k), BeforePatch(h, k), h.envs[k]);
    DeliverLast(h.At(k), BeforePatch(h, k), PatchAction(h.LogOf(k), rec, !rec), h.envs[k]);
  }

  /** Where an attempt is filed. */
  lemma RecordPlaces(s: I.Store, version: nat, severity: Severity, outcome: I.WireOutcome)
    requires Safe(s)
    ensures var t := I.Post(s, version, I.Known(SwitchBackup), severity, outcome).0;
            |t.logs| == |s.logs| + 1 &&
            var x := t.logs[|s.logs|].incident;
            x < |t.incidents| && t.incidents[x].version == version && !I.Terminal(t.incidents[x].status)
  {
  }

  lemma AttemptRecorded(h: History, k: nat)
    requires h.Valid() && k < |h.ins| && h.Attempt(k)
    ensures OnlyPosts(h.AtPost(k).store, h.Recorded(k).store) && Safe(h.Recorded(k).store)
    ensures var t, x := h.Recorded(k).store, h.IncidentOf(k);
            h.LogOf(k) < |t.logs| && x == t.logs[h.LogOf(k)].incident && x < |t.incidents| &&
            t.incidents[x].version == h.VersionOf(k) && !I.Terminal(t.incidents[x].status)
  {
    hide OnlyPosts, Safe, Sound, StateAt, Switches, Messages, DeliverAll, Before, Undo, I.Post, R.Resolve, BackendAt;
    var b, m := h.AtPost(k), h.PostMessage(k);
    SwitchSends(h, k);
    SafeAtPost(h, k);
    DeliverLast(h.At(k), h.Ahead(k), m, h.envs[k]);
    SafeWellFormed(b.store);
    NamesStayStripped(m.model);
    ReceiveIsPost(b, m, h.envs[k].now);
    ReceiveSafe(b, m, h.envs[k].now);
    RecordPlaces(b.store, h.VersionOf(k), m.severity, I.Reported(m.outcome));
  }

  lemma NamesStayStripped(m: ModelName)
    ensures R.Strip(NameOf(m)) == NameOf(m) && NameOf(m) != ""
  {
  }

  lemma SafeAtPost(h: History, k: nat)
    requires h.Valid() && k < |h.ins|
    ensures Safe(h.AtPost(k).store)
  {
    hide Safe, Sound, StateAt, Messages, DeliverAll, Before, BackendAt, Judged;
    SafeAt(h, k);
    AheadIsPost(h, k);
    assert forall i :: 0 <= i < |h.Ahead(k)| ==> h.Ahead(k)[i] in h.Ahead(k);
    JudgedAhead(h, k);
    DeliverSafe(h.At(k), h.Ahead(k), h.envs[k]);
  }

  lemma JudgedAhead(h: History, k: nat)
    requires k < |h.ins| && forall i :: 0 <= i < |h.Ahead(k)| ==> !h.Ahead(k)[i].PatchAction?
    ensures AllJudged(h.Ahead(k))
  {
  }

  lemma AtToRecorded(h: History, k: nat)
    requires h.Valid() && k < |h.ins| && h.Attempt(k)
    ensures OnlyPosts(h.At(k).store, h.Recorded(k).store)
  {
    hide OnlyPosts, Safe, Sound, StateAt, Switches, DeliverAll, Before, BackendAt;
    UpToRecord(h, k);
    AttemptRecorded(h, k);
    OnlyPostsTrans(h.At(k).store, h.AtPost(k).store, h.Recorded(k).store);
  }

  lemma UnjudgedRest(h: History, k: nat)
    requires h.Valid() && k < |h.ins| && h.Attempt(k) && !h.Judged(k)
    ensures OnlyPosts(h.Recorded(k).store, h.At(k + 1).store)
  {
    hide OnlyPosts, Safe, Sound, StateAt, Switches, Messages, DeliverAll, Undo;
    SwitchSends(h, k);
    UnjudgedPatches(h, k);
    var recorded, rest := h.Ahead(k) + [h.PostMessage(k)], Undo(h, k) + PatchMessage(h, k);
    assert h.Sent(k) == recorded + rest;
    DeliveredIsPost(h.At(k), recorded, rest, h.envs[k]);
  }

  lemma JudgedIsAttempt(h: History, k: nat)
    requires h.Valid() && h.Honest() && k < |h.ins| && h.Judged(k)
    ensures h.Attempt(k) && h.ins[k].reply.value == h.LogOf(k)
  {
    hide Switches, StateAt, BackendAt, Sound, Safe;
    assert h.HonestAt(k);
  }

  /** A judged tick as a whole: posts, then the patch of the record of its attempt. */
  lemma JudgedEffect(h: History, k: nat) returns (s: I.Store)
    requires h.Valid() && h.Honest() && k < |h.ins| && h.Judged(k)
    ensures h.Attempt(k) && OnlyPosts(h.At(k).store, s) && I.WellFormed(s)
    ensures h.LogOf(k) < |s.logs| && s.logs[h.LogOf(k)].incident == h.IncidentOf(k) < |s.incidents|
    ensures s.incidents[h.IncidentOf(k)].version == h.VersionOf(k)
    ensures h.At(k + 1).store == Patched(s, h.LogOf(k), Recovered(h.cfg, h.ins[k].probes), h.envs[k].now)
  {
    hide Safe, Sound, StateAt, BackendAt, Recovered, History.Attempt, History.Judged, History.Honest, History.Valid,
         History.LogOf, History.IncidentOf, History.VersionOf, History.At, History.AtPost, History.Recorded;
    JudgedIsAttempt(h, k);
    AtToRecorded(h, k);
    AttemptRecorded(h, k);
    var m := JudgedTick(h, k);
    SoundWellFormed(m);
    s := m.store;
  }

  /** After its tick, the incident of an attempt is closed exactly if the verdict arrived. */
  lemma AttemptOutcome(h: History, k: nat)
    requires h.Valid() && h.Honest() && k < |h.ins| && h.Attempt(k)
    ensures var t, x := h.At(k + 1).store, h.IncidentOf(k);
            h.LogOf(k) < |t.logs| && t.logs[h.LogOf(k)].incident == x && x < |t.incidents| &&
            t.incidents[x].version == h.VersionOf(k) && (I.Terminal(t.incidents[x].status) <==> h.Judged(k))
  {
    hide Safe, Sound, StateAt, BackendAt, Recovered, Patched, History.Attempt, History.Judged, History.Honest,
         History.LogOf, History.IncidentOf, History.VersionOf, History.At, History.Recorded;
    if h.Judged(k) {
      var s := JudgedEffect(h, k);
      PatchVersions(s, h.LogOf(k), Recovered(h.cfg, h.ins[k].probes), h.envs[k].now, h.IncidentOf(k));
    } else {
      AttemptRecorded(h, k);
      UnjudgedRest(h, k);
    }
  }

  /** The store after the agent's patch of a record. */
  function Patched(s: I.Store, id: nat, recovered: bool, now: int): I.Store
    requires I.WellFormed(s)
  {
    I.Patch(s, id, Some(I.Reported(if recovered then Success else Failed)),
            Some(I.Verification(recovered, !recovered)), now)
  }

  lemma PatchVersions(s: I.Store, id: nat, recovered: bool, now: int, x: nat)
    requires I.WellFormed(s) && id < |s.logs| && x < |s.incidents|
    ensures var t := Patched(s, id, recovered, now);
            |t.incidents| == |s.incidents| && t.incidents[x].version == s.incidents[x].version &&
            |t.logs| == |s.logs| && t.logs[id].incident == s.logs[id].incident &&
            (x != s.logs[id].incident ==> t.incidents[x] == s.incidents[x]) &&
            t.verdicts.Keys == s.verdicts.Keys + {id} &&
            (x == s.logs[id].incident ==> I.Terminal(t.incidents[x].status))
  {
  }

  /** An open incident is closed by a tick exactly if the tick judges an attempt filed under it. */
  lemma OpenIncidentStays(h: History, k: nat, x: nat)
    requires h.Valid() && h.Honest() && k < |h.ins|
    requires x < |h.At(k).store.incidents| && !I.Terminal(h.At(k).store.incidents[x].status)
    ensures x < |h.At(k + 1).store.incidents|
    ensures h.At(k + 1).store.incidents[x].version == h.At(k).store.incidents[x].version
    ensures I.Terminal(h.At(k + 1).store.incidents[x].status) <==> h.Judged(k) && h.IncidentOf(k) == x
  {
    hide Safe, Sound, StateAt, BackendAt, Recovered, Patched, History.Attempt, History.Judged, History.Honest,
         History.LogOf, History.IncidentOf, History.VersionOf, History.At, History.Recorded;
    if h.Judged(k) {
      var s := JudgedEffect(h, k);
      PatchVersions(s, h.LogOf(k), Recovered(h.cfg, h.ins[k].probes), h.envs[k].now, x);
    } else {
      UnjudgedTick(h, k);
    }
  }

  /** An attempt is filed under the open incident of its version if there is one, and never under a closed
      one or one of another version. */
  lemma Filed(h: History, k: nat, x: nat)
    requires h.Valid() && k < |h.ins| && h.Attempt(k) && x < |h.At(k).store.incidents|
    ensures I.Terminal(h.At(k).store.incidents[x].status) ==> h.IncidentOf(k) != x
    ensures h.At(k).store.incidents[x].version != h.VersionOf(k) ==> h.IncidentOf(k) != x
    ensures !I.Terminal(h.At(k).store.incidents[x].status) && h.At(k).store.incidents[x].version == h.VersionOf(k) ==>
              h.IncidentOf(k) == x
  {
    hide Sound, StateAt, Switches, DeliverAll, Before, BackendAt, I.WellFormed, L.ClosedIffTerminal;
    AtToRecorded(h, k);
    AttemptRecorded(h, k);
  }

  lemma {:induction false} Onward(h: History, j: nat, k: nat)
    requires h.Valid() && j <= k <= |h.ins|
    ensures Progress(h.At(j).store, h.At(k).store)
  {
    hide Safe, Sound, StateAt, Messages, DeliverAll, Progress;
    if j == k {
      ProgressSelf(h.At(j).store);
    } else {
      Onward(h, j, k - 1);
      SafeAt(h, k - 1);
      TickJudged(h.cfg, h.Runtime(k - 1), h.ins[k - 1]);
      DeliverSafe(h.At(k - 1), h.Sent(k - 1), h.envs[k - 1]);
      ProgressTrans(h.At(j).store, h.At(k - 1).store, h.At(k).store);
    }
  }

  // ---------------------------------------------------------------- the cap

  /** A judged attempt is the last of its incident, and attempts at different versions never share one. */
  lemma ApartIf(h: History, i: nat, j: nat)
    requires h.Valid() && h.Honest() && i < j < |h.ins| && h.Attempt(i) && h.Attempt(j)
    requires h.Judged(i) || h.VersionOf(i) != h.VersionOf(j)
    ensures h.IncidentOf(i) != h.IncidentOf(j)
  {
    hide Safe, Sound, StateAt, BackendAt, History.Attempt, History.VersionOf, History.IncidentOf, History.Judged,
         History.Honest, History.Valid, History.LogOf, History.At;
    AttemptOutcome(h, i);
    Onward(h, i + 1, j);
    Filed(h, j, h.IncidentOf(i));
  }

  /** The incident of attempt i is still open when tick j begins. */
  ghost predicate Pending(h: History, i: nat, j: nat)
    requires h.Valid() && i < j <= |h.ins|
  {
    var s, x := h.At(j).store, h.IncidentOf(i);
    x < |s.incidents| && s.incidents[x].version == h.VersionOf(i) && !I.Terminal(s.incidents[x].status)
  }

  lemma PendingAfter(h: History, i: nat)
    requires h.Valid() && h.Honest() && i < |h.ins| && h.Attempt(i) && !h.Judged(i)
    ensures Pending(h, i, i + 1)
  {
    hide History.Valid, History.Honest, History.Attempt, History.Judged, History.VersionOf, History.IncidentOf,
         History.At;
    AttemptOutcome(h, i);
  }

  lemma PendingShared(h: History, i: nat, j: nat)
    requires h.Valid() && i < j < |h.ins| && Pending(h, i, j) && h.Attempt(j) && h.VersionOf(i) == h.VersionOf(j)
    ensures h.IncidentOf(j) == h.IncidentOf(i)
  {
    hide History.Valid, History.Attempt, History.VersionOf, History.IncidentOf, History.At;
    Filed(h, j, h.IncidentOf(i));
  }

  lemma PendingStays(h: History, i: nat, j: nat)
    requires h.Valid() && h.Honest() && i < j < |h.ins| && Pending(h, i, j)
    requires !(h.Attempt(j) && h.VersionOf(i) == h.VersionOf(j))
    ensures Pending(h, i, j + 1)
  {
    hide History.Valid, History.Honest, History.Attempt, History.Judged, History.VersionOf, History.IncidentOf,
         History.At;
    if h.Judged(j) {
      JudgedIsAttempt(h, j);
      Filed(h, j, h.IncidentOf(i));
    }
    OpenIncidentStays(h, j, h.IncidentOf(i));
  }

  /** An attempt that is not judged shares its incident with the next attempt at the same version. */
  lemma NextShares(h: History, i: nat, j: nat, k: nat) returns (l: nat)
    requires h.Valid() && h.Honest() && i < j <= k < |h.ins| && Pending(h, i, j)
    requires h.Attempt(k) && h.VersionOf(i) == h.VersionOf(k)
    ensures j <= l <= k && h.Attempt(l) && h.IncidentOf(l) == h.IncidentOf(i)
    decreases k - j
  {
    hide *;
    if h.Attempt(j) && h.VersionOf(i) == h.VersionOf(j) {
      PendingShared(h, i, j);
      l := j;
    } else {
      PendingStays(h, i, j);
      l := NextShares(h, i, j + 1, k);
    }
  }

  /** The documented cap of one attempt per incident, over every run with any losses and any posts of other
      clients: it holds exactly if every executed switch that is followed by another to the same version has
      had its verdict delivered. */
  lemma CapIffVerdictsArrive(h: History)
    requires h.Valid() && h.Honest()
    ensures h.OneAttemptPerIncident() <==> h.VerdictsArrive()
  {
    hide History.Attempt, History.VersionOf, History.IncidentOf, History.Judged, History.Honest, History.Valid, Pending;
    if h.VerdictsArrive() {
      forall i: nat, j: nat | i < j < |h.ins| && h.Attempt(i) && h.Attempt(j)
        ensures h.IncidentOf(i) != h.IncidentOf(j)
      {
        ApartIf(h, i, j);
      }
    } else {
      var i: nat, j: nat :| i < j < |h.ins| && h.Attempt(i) && h.Attempt(j) &&
                            h.VersionOf(i) == h.VersionOf(j) && !h.Judged(i);
      PendingAfter(h, i);
      var l := NextShares(h, i, i + 1, j);
    }
  }

  /** With nothing lost, every executed switch has an incident of its own, closed by the end of its tick and
      for good. */
  lemma CapHoldsWhenDelivered(h: History)
    requires h.Valid() && h.Honest()
    requires forall k: nat :: k < |h.ins| && h.Attempt(k) ==> h.Judged(k)
    ensures h.OneAttemptPerIncident()
    ensures forall k: nat, n: nat :: k < n <= |h.ins| && h.Attempt(k) ==>
              h.IncidentOf(k) < |h.At(n).store.incidents| &&
              I.Terminal(h.At(n).store.incidents[h.IncidentOf(k)].status)
  {
    hide Safe, Sound, StateAt, Switches, Messages, BackendAt, DeliverAll, Before, History.Attempt, History.VersionOf,
         History.IncidentOf, History.Judged, History.Honest, History.Valid;
    CapIffVerdictsArrive(h);
    forall k: nat, n: nat | k < n <= |h.ins| && h.Attempt(k)
      ensures h.IncidentOf(k) < |h.At(n).store.incidents| && I.Terminal(h.At(n).store.incidents[h.IncidentOf(k)].status)
    {
      AttemptOutcome(h, k);
      Onward(h, k + 1, n);
    }
  }

  /** Recorded verdicts are those of judged attempts. */
  lemma {:induction false} VerdictOf(h: History, n: nat, id: nat) returns (k: nat)
    requires h.Valid() && h.Honest() && h.b.store.verdicts == map[] && n <= |h.ins|
    requires id in h.At(n).store.verdicts
    ensures k < n && h.Attempt(k) && h.Judged(k) && h.LogOf(k) == id
  {
    hide *;
    AtStart(h);
    EarlierVerdict(h, n - 1, id);
    if id in h.At(n - 1).store.verdicts { k := VerdictOf(h, n - 1, id); } else { k := n - 1; }
  }

  lemma AtStart(h: History)
    requires h.Valid()
    ensures h.At(0) == h.b
  {
  }

  lemma EarlierVerdict(h: History, k: nat, id: nat)
    requires h.Valid() && h.Honest() && k < |h.ins| && id in h.At(k + 1).store.verdicts
    ensures id in h.At(k).store.verdicts || (h.Attempt(k) && h.Judged(k) && h.LogOf(k) == id)
  {
    hide Safe, Sound, StateAt, BackendAt, History.Attempt, History.Judged, History.Honest, History.LogOf, History.Valid;
    TickVerdicts(h, k);
  }

  lemma TickVerdicts(h: History, k: nat)
    requires h.Valid() && h.Honest() && k < |h.ins|
    ensures h.Judged(k) ==> h.Attempt(k)
    ensures h.At(k + 1).store.verdicts.Keys == h.At(k).store.verdicts.Keys + if h.Judged(k) then {h.LogOf(k)} else {}
  {
    hide Safe, Sound, StateAt, BackendAt, Recovered, Patched, History.Attempt, History.Judged, History.Honest,
         History.LogOf, History.IncidentOf, History.VersionOf, History.At, History.Recorded;
    if h.Judged(k) {
      var s := JudgedEffect(h, k);
      PatchVersions(s, h.LogOf(k), Recovered(h.cfg, h.ins[k].probes), h.envs[k].now, h.IncidentOf(k));
    } else {
      UnjudgedTick(h, k);
    }
  }

  /** A judged attempt keeps its record, and its incident stays closed. */
  lemma JudgedStaysClosed(h: History, k: nat, n: nat)
    requires h.Valid() && h.Honest() && k < n <= |h.ins| && h.Attempt(k) && h.Judged(k)
    ensures var s, x := h.At(n).store, h.IncidentOf(k);
            h.LogOf(k) < |s.logs| && s.logs[h.LogOf(k)].incident == x && x < |s.incidents| &&
            I.Terminal(s.incidents[x].status)
  {
    hide Safe, Sound, StateAt, BackendAt, History.Attempt, History.VersionOf, History.IncidentOf, History.Judged,
         History.Honest, History.Valid, History.LogOf, History.At;
    AttemptOutcome(h, k);
    Onward(h, k + 1, n);
  }

  /** Whatever is lost: every verdict closes the incident of its record for good, and no two verdicts share an
      incident. */
  lemma VerdictsNeverShare(h: History, n: nat, a: nat, b: nat)
    requires h.Valid() && h.Honest() && h.b.store.verdicts == map[] && n <= |h.ins|
    requires a in h.At(n).store.verdicts && b in h.At(n).store.verdicts && a != b
    ensures var s := h.At(n).store;
            a < |s.logs| && b < |s.logs| && s.logs[a].incident != s.logs[b].incident &&
            s.logs[a].incident < |s.incidents| && I.Terminal(s.incidents[s.logs[a].incident].status)
  {
    hide Safe, Sound, StateAt, BackendAt, History.Attempt, History.VersionOf, History.IncidentOf, History.Judged,
         History.Honest, History.Valid, History.LogOf, History.At;
    var i := VerdictOf(h, n, a);
    var j := VerdictOf(h, n, b);
    JudgedStaysClosed(h, i, n);
    JudgedStaysClosed(h, j, n);
    if i < j { ApartIf(h, i, j); } else { ApartIf(h, j, i); }
  }

  // ---------------------------------------------------------------- where it fails

  /** Every call arrives and nobody else calls; but no answer to a post ever reaches the agent. */
  function QuietEnv(): Env { Env((i: nat) => [], (i: nat) => true, 0) }

  /** The slow service against a fresh trail and a registry with one version of each model. */
  function Unanswered(cfg: Settings, n: nat): History {
    History(cfg, Start(ModelA), Slow.SlowRun(cfg, n).ins, Backend(R.TwoModels(), I.EMPTY), seq(n, _ => QuietEnv()))
  }

  ghost predicate TwoRows(db: R.Db) {
    |db.rows| == 2 && db.rows[0].model == "model_a" && db.rows[0].version == "1" && db.rows[1].model == "model_b"
  }

  predicate Familiar(m: Message) { m.PostMetrics? ==> m.modelName == "model_a" && m.modelVersion == "1" }

  lemma ResolveTwoRows(db: R.Db, m: ModelName)
    requires TwoRows(db)
    ensures R.Resolve(db, NameOf(m), "") == (db, if m == ModelA then 0 else 1)
    ensures R.Resolve(db, "model_a", "1").0 == db
  {
    hide R.Strip;
    NamesStayStripped(m);
    NamesStayStripped(ModelA);
    var found := R.Newest(db.rows, R.OfModel(NameOf(m)));
    assert R.OfModel(NameOf(m))(db.rows[if m == ModelA then 0 else 1]);
    assert found.Some? ==> R.OfModel(NameOf(m))(db.rows[found.value]);
    assert R.Exactly("model_a", "1")(db.rows[0]);
  }

  lemma ReceiveTwoRows(b: Backend, m: Message, now: int)
    requires I.WellFormed(b.store) && TwoRows(b.registry) && Familiar(m)
    ensures TwoRows(Receive(b, m, now).registry)
  {
    hide R.Resolve, R.Strip, R.Newest, I.Post, I.Patch, I.WellFormed;
    NamesStayStripped(ModelA);
    match m
    case SetActive(t) =>
    case PostMetrics(n, v, _, _) => ResolveTwoRows(b.registry, ModelA);
    case PostAction(a, sev, t, o, _) =>
      NamesStayStripped(t);
      ResolveTwoRows(b.registry, t);
    case PatchAction(id, rec, esc) =>
  }

  lemma {:induction false} DeliverTwoRows(b: Backend, msgs: seq<Message>)
    requires Sound(b) && TwoRows(b.registry) && forall i :: 0 <= i < |msgs| ==> Familiar(msgs[i])
    ensures TwoRows(DeliverAll(b, msgs, QuietEnv()).registry) && TwoRows(Before(b, msgs, QuietEnv()).registry)
  {
    hide Sound, TwoRows, Familiar, Receive;
    if msgs != [] {
      var n := |msgs| - 1;
      DeliverTwoRows(b, msgs[..n]);
      var mid := Before(b, msgs[..n], QuietEnv());
      SoundWellFormed(mid);
      ReceiveTwoRows(mid, msgs[n], 0);
    }
  }

  lemma SlowMessages(cfg: Settings, s: Runtime, k: nat)
    ensures forall i :: 0 <= i < |Messages(cfg, s, Slow.SlowTick(cfg, k))| ==>
              Familiar(Messages(cfg, s, Slow.SlowTick(cfg, k))[i])
    ensures forall i :: 0 <= i < |AheadOfPost(cfg, s, Slow.SlowTick(cfg, k))| ==>
              Familiar(AheadOfPost(cfg, s, Slow.SlowTick(cfg, k))[i])
  {
    hide Slow.DefaultStack, Slow.ChannelsAfter, Slow.FailingProbe, Switches, OutcomeOf, DecisionOf, Recovered,
         FindingsOf;
  }

  lemma {:induction false} RunTwoRows(cfg: Settings, n: nat, k: nat)
    requires k <= n && Unanswered(cfg, n).Valid()
    ensures TwoRows(Unanswered(cfg, n).At(k).registry)
    ensures k < n ==> TwoRows(Unanswered(cfg, n).AtPost(k).registry)
  {
    hide Sound, Safe, StateAt, Messages, AheadOfPost, DeliverAll, Before, Slow.SlowTick, Familiar;
    var h := Unanswered(cfg, n);
    if k > 0 {
      RunTwoRows(cfg, n, k - 1);
      SlowMessages(cfg, h.Runtime(k - 1), k - 1);
      DeliverTwoRows(h.At(k - 1), h.Sent(k - 1));
    }
    if k < n {
      SlowMessages(cfg, h.Runtime(k), k);
      DeliverTwoRows(h.At(k), h.Ahead(k));
    }
  }

  lemma UnansweredValid(cfg: Settings, n: nat)
    ensures Unanswered(cfg, n).Valid() && Unanswered(cfg, n).Honest()
  {
    hide Slow.SlowRun, R.PostActive, R.Resolve, R.TwoModels, Slow.DefaultStack, Slow.ChannelsAfter;
    R.SwitchBackMayPromoteNewVersion();
    EmptyIsSafe();
  }

  lemma EmptyIsSafe()
    ensures Safe(I.EMPTY)
  {
  }

  lemma UnansweredAttempt(cfg: Settings, n: nat, k: nat)
    requires k < n && AR.OnBeat(cfg, k) && Unanswered(cfg, n).Valid()
    ensures Unanswered(cfg, n).Attempt(k) && !Unanswered(cfg, n).Judged(k)
    ensures Unanswered(cfg, n).VersionOf(k) == if Unanswered(cfg, n).Runtime(k).active == ModelB then 0 else 1
  {
    hide Sound, Safe, StateAt, Switches, AheadOfPost, Before, BackendAt, TwoRows, AR.OnBeat, R.Resolve;
    var h := Unanswered(cfg, n);
    Slow.SlowRunIsSteady(cfg, n);
    AR.SteadySwitches(Slow.SlowRun(cfg, n), k);
    RunTwoRows(cfg, n, k);
    ResolveTwoRows(h.AtPost(k).registry, Other(h.Runtime(k).active));
  }

  lemma {:induction false} SlowStaysOnA(cfg: Settings, n: nat, k: nat)
    requires k <= n
    ensures Unanswered(cfg, n).Runtime(k).active == ModelA
  {
    hide Recovered, Switches, Action, NonLow, Failures, Slow.SlowTick;
    if k > 0 {
      SlowStaysOnA(cfg, n, k - 1);
      Slow.NeverVerified(cfg, k - 1);
    }
  }

  /** The cap is not kept by the loop itself. For every setting, when the answers to the posts are lost, the
      slow service makes the agent try the same failing switch again within one incident. */
  lemma CapFailsUnanswered(cfg: Settings)
    ensures var h := Unanswered(cfg, AR.Lead(cfg) + AR.Spacing(cfg) + 1);
            h.Valid() && h.Honest() && !h.OneAttemptPerIncident()
  {
    hide History.Valid, History.Honest, History.Attempt, History.Judged, History.VersionOf, History.IncidentOf, StateAt,
         Slow.SlowRun;
    var p, d := AR.Lead(cfg), AR.Spacing(cfg);
    var n := p + d + 1;
    UnansweredValid(cfg, n);
    FirstBeats(cfg);
    SlowStaysOnA(cfg, n, p);
    SlowStaysOnA(cfg, n, p + d);
    UnansweredAttempt(cfg, n, p);
    UnansweredAttempt(cfg, n, p + d);
    CapIffVerdictsArrive(Unanswered(cfg, n));
  }

  lemma FirstBeats(cfg: Settings)
    ensures AR.OnBeat(cfg, AR.Lead(cfg)) && AR.OnBeat(cfg, AR.Lead(cfg) + AR.Spacing(cfg))
  {
    DivisionUnique(AR.Spacing(cfg), AR.Spacing(cfg), 1, 0);
  }

  // ---------------------------------------------------------------- one answer suffices

  /** The history in which the last tick gets the answer it is owed. */
  ghost function Answered(h: History): (r: History)
    requires h.Valid() && h.ins != []
    ensures r.Valid() && |r.ins| == |h.ins|
  {
    var k := |h.ins| - 1;
    h.(ins := h.ins[k := h.ins[k].(reply := Some(h.LogOf(k)))])
  }

  lemma {:induction false} SameBefore(h: History, k: nat)
    requires h.Valid() && k < |h.ins|
    ensures Answered(h).Runtime(k) == h.Runtime(k) && Answered(h).At(k) == h.At(k)
  {
    hide Next, Messages, DeliverAll, Sound, Safe, History.LogOf;
    if k > 0 {
      SameBefore(h, k - 1);
      assert Answered(h).ins[k - 1] == h.ins[k - 1];
    }
  }

  lemma SameTick(h: History, k: nat)
    requires h.Valid() && k < |h.ins|
    ensures Switches(h.cfg, h.Runtime(k), Answered(h).ins[k]) <==> Switches(h.cfg, h.Runtime(k), h.ins[k])
    ensures AheadOfPost(h.cfg, h.Runtime(k), Answered(h).ins[k]) == AheadOfPost(h.cfg, h.Runtime(k), h.ins[k])
    ensures k < |h.ins| - 1 ==> Answered(h).ins[k] == h.ins[k]
    ensures k == |h.ins| - 1 ==> Answered(h).ins[k].reply == Some(h.LogOf(k))
  {
    hide StateAt, Sound, Safe, History.LogOf, Classify, Collect, MetricsOf, MakeDecision;
  }

  lemma SameAttempt(h: History, k: nat)
    requires h.Valid() && k < |h.ins|
    ensures Answered(h).LogOf(k) == h.LogOf(k) && (Answered(h).Attempt(k) <==> h.Attempt(k))
    ensures Switches(h.cfg, Answered(h).Runtime(k), Answered(h).ins[k]) <==> Switches(h.cfg, h.Runtime(k), h.ins[k])
    ensures k < |h.ins| - 1 ==> Answered(h).ins[k] == h.ins[k]
    ensures k == |h.ins| - 1 ==> Answered(h).ins[k].reply == Some(h.LogOf(k))
  {
    hide StateAt, BackendAt, Sound, Safe, Switches, AheadOfPost, Before, Answered;
    Kept(h);
    SameBefore(h, k);
    SameTick(h, k);
  }

  /** When nothing is lost, the answer to the last tick's switch makes it judged. */
  lemma AnswerJudges(h: History)
    requires h.Valid() && h.Honest() && h.ins != [] && h.Attempt(|h.ins| - 1)
    requires AllDelivered(h.envs)
    ensures Answered(h).Honest() && Answered(h).Attempt(|h.ins| - 1) && Answered(h).Judged(|h.ins| - 1)
  {
    hide StateAt, BackendAt, Sound, Safe, Switches, AheadOfPost, Before, Messages, Answered;
    var r, n := Answered(h), |h.ins| - 1;
    Kept(h);
    forall k: nat | k < |r.ins| ensures r.HonestAt(k) {
      assert h.HonestAt(k);
      SameAttempt(h, k);
    }
    SameAttempt(h, n);
    SentSomething(r, n);
  }

  lemma Kept(h: History)
    requires h.Valid() && h.ins != []
    ensures Answered(h).cfg == h.cfg && Answered(h).envs == h.envs && Answered(h).b == h.b &&
            Answered(h).start == h.start
  {
    hide History.Valid, History.LogOf;
  }

  lemma SentSomething(h: History, k: nat)
    requires k < |h.ins| && Switches(h.cfg, h.Runtime(k), h.ins[k])
    ensures |h.Sent(k)| >= 1
  {
    hide StateAt, Switches, Messages, Undo;
    SwitchSends(h, k);
  }

  /** The hypotheses of this module are met: for every setting some run has a switch that is judged. */
  lemma SomeSwitchIsJudged(cfg: Settings)
    ensures var h := Unanswered(cfg, AR.Lead(cfg) + 1);
            h.Valid() && Answered(h).Honest() && Answered(h).Attempt(AR.Lead(cfg)) && Answered(h).Judged(AR.Lead(cfg))
  {
    hide History.Valid, History.Honest, History.Attempt, History.Judged, History.VersionOf, StateAt, Slow.SlowRun,
         Answered;
    var n := AR.Lead(cfg) + 1;
    UnansweredValid(cfg, n);
    FirstBeats(cfg);
    UnansweredAttempt(cfg, n, AR.Lead(cfg));
    AnswerJudges(Unanswered(cfg, n));
  }
}
