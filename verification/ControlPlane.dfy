/** The agent and the backend together. The agent's messages reach the backend in order, or are lost;
    between any two of them other clients may ingest metrics and post actions. */
module ControlPlane {
  import opened Schemas
  import opened Decisions
  import opened Retry
  import opened Agent
  import R = Registry
  import I = Incidents

  datatype Backend = Backend(registry: R.Db, store: I.Store)

  /** A call of another client. Nobody else switches or patches. */
  datatype Foreign =
    | IngestMetrics(name: string, version: string)
    | IngestAction(model: string, wire: I.WireAction, severity: Severity, outcome: I.WireOutcome)

  /** The surroundings of one tick: the other clients' calls ahead of each message, which messages arrive,
      and the backend's clock. */
  datatype Env = Env(foreign: nat -> seq<Foreign>, delivered: nat -> bool, now: int)

  ghost predicate Sound(b: Backend) { R.Consistent(b.registry) && I.WellFormed(b.store) }

  // ---------------------------------------------------------------- the endpoints

  /** POST of metrics: resolves the named version, "unknown" if there is none. */
  function PostMetricsTo(db: R.Db, name: string, version: string): R.Db {
    if R.Strip(name) == "" then db else R.Resolve(db, name, if version == "" then "unknown" else version).0
  }

  function PostActionTo(b: Backend, name: string, wire: I.WireAction, severity: Severity,
                        outcome: I.WireOutcome): Backend
  {
    var target := if R.Strip(name) == "" then "model_a" else name;
    var (registry, version) := R.Resolve(b.registry, target, "");
    Backend(registry, I.Post(b.store, version, wire, severity, outcome).0)
  }

  function Receive(b: Backend, m: Message, now: int): Backend
    requires I.WellFormed(b.store)
  {
    match m
    case SetActive(t) => b.(registry := R.PostActive(b.registry, NameOf(t), "").0)
    case PostMetrics(n, v, _, _) => b.(registry := PostMetricsTo(b.registry, n, v))
    case PostAction(a, sev, t, o, _) => PostActionTo(b, NameOf(t), I.Known(a), sev, I.Reported(o))
    case PatchAction(id, recovered, escalate) =>
      b.(store := I.Patch(b.store, id, Some(I.Reported(if recovered then Success else Failed)),
                          Some(I.Verification(recovered, escalate)), now))
  }

  function Serve(b: Backend, f: Foreign): Backend {
    match f
    case IngestMetrics(n, v) => b.(registry := PostMetricsTo(b.registry, n, v))
    case IngestAction(n, w, sev, o) => PostActionTo(b, n, w, sev, o)
  }

  /** Metrics without a model name are refused. Others leave a row of that model and version, "unknown" if
      none was named, and move nothing else. */
  lemma MetricsFindTheirVersion(db: R.Db, name: string, version: string)
    returns (id: nat)
    ensures var after, model := PostMetricsTo(db, name, version), R.Strip(name);
            var wanted := if version == "" then "unknown" else version;
            after.pointer == db.pointer && (model == "" ==> after == db) &&
            (model != "" ==>
               id < |after.rows| && after.rows[id].model == model && after.rows[id].version == wanted &&
               (after == db || after.rows == db.rows + [R.Row(model, wanted, R.Candidate, false)]))
  {
    hide R.Strip, R.Resolve;
    R.ResolveNewest(db, name, if version == "" then "unknown" else version);
    id := R.Resolve(db, name, if version == "" then "unknown" else version).1;
  }

  /** An action is filed under the newest version of the model it names, of model_a if it names none; one
      that has no version yet gets one. The trail is the posted one. */
  lemma ActionsFindTheirVersion(b: Backend, name: string, wire: I.WireAction, severity: Severity,
                                outcome: I.WireOutcome)
    returns (version: nat)
    ensures var model := if R.Strip(name) == "" then "model_a" else R.Strip(name);
            var after := PostActionTo(b, name, wire, severity, outcome);
            after.store == I.Post(b.store, version, wire, severity, outcome).0 &&
            after.registry.pointer == b.registry.pointer && version < |after.registry.rows| &&
            after.registry.rows[version].model == model &&
            (forall k :: version < k < |after.registry.rows| ==> after.registry.rows[k].model != model) &&
            (after.registry == b.registry ||
               after.registry.rows == b.registry.rows + [R.Row(model, "unknown", R.Candidate, false)])
  {
    R.StripName();
    hide R.Strip, R.Resolve, I.Post;
    var target := if R.Strip(name) == "" then "model_a" else name;
    R.ResolveNewest(b.registry, target, "");
    version := R.Resolve(b.registry, target, "").1;
    var after := PostActionTo(b, name, wire, severity, outcome).registry;
    forall k | version < k < |after.rows| ensures after.rows[k].model != R.Strip(target) {
      assert !R.Meant(after.rows[k], R.Strip(target), "");
    }
  }

  lemma ReceiveSound(b: Backend, m: Message, now: int)
    requires Sound(b)
    ensures Sound(Receive(b, m, now))
  {
    hide R.PostActive, R.Resolve, R.Strip, R.Consistent, I.Post, I.Patch, I.WellFormed;
    match m
    case SetActive(t) => R.PostActiveKeepsConsistent(b.registry, NameOf(t), "");
    case PostMetrics(n, v, _, _) => R.ResolveKeepsConsistent(b.registry, n, if v == "" then "unknown" else v);
    case PostAction(a, sev, t, o, _) => PostActionSound(b, NameOf(t), I.Known(a), sev, I.Reported(o));
    case PatchAction(id, rec, esc) =>
      I.PatchWellFormed(b.store, id, Some(I.Reported(if rec then Success else Failed)),
                        Some(I.Verification(rec, esc)), now);
  }

  lemma PostActionSound(b: Backend, name: string, wire: I.WireAction, severity: Severity, outcome: I.WireOutcome)
    requires Sound(b)
    ensures Sound(PostActionTo(b, name, wire, severity, outcome))
  {
    hide R.Resolve, R.Strip, R.Consistent, I.Post, I.WellFormed;
    var target := if R.Strip(name) == "" then "model_a" else name;
    R.ResolveKeepsConsistent(b.registry, target, "");
    I.PostWellFormed(b.store, R.Resolve(b.registry, target, "").1, wire, severity, outcome);
  }

  lemma ServeSound(b: Backend, f: Foreign)
    requires Sound(b)
    ensures Sound(Serve(b, f))
  {
    hide R.Resolve, R.Strip, R.Consistent, I.WellFormed;
    match f
    case IngestMetrics(n, v) => R.ResolveKeepsConsistent(b.registry, n, if v == "" then "unknown" else v);
    case IngestAction(n, w, sev, o) => PostActionSound(b, n, w, sev, o);
  }

  function ServeAll(b: Backend, fs: seq<Foreign>): (r: Backend)
    requires Sound(b)
    ensures Sound(r)
  {
    if fs == [] then b
    else
      var most := ServeAll(b, fs[..|fs| - 1]);
      ServeSound(most, fs[|fs| - 1]);
      Serve(most, fs[|fs| - 1])
  }

  /** The backend when message number |msgs| of the tick is about to arrive. */
  function Before(b: Backend, msgs: seq<Message>, env: Env): (r: Backend)
    requires Sound(b)
    ensures Sound(r)
    decreases |msgs|, 1
  {
    ServeAll(DeliverAll(b, msgs, env), env.foreign(|msgs|))
  }

  /** The backend after the messages of a tick. */
  function DeliverAll(b: Backend, msgs: seq<Message>, env: Env): (r: Backend)
    requires Sound(b)
    ensures Sound(r)
    decreases |msgs|, 0
  {
    if msgs == [] then b
    else
      var n := |msgs| - 1;
      var mid := Before(b, msgs[..n], env);
      ReceiveSound(mid, msgs[n], env.now);
      if env.delivered(n) then Receive(mid, msgs[n], env.now) else mid
  }

  /** The backend after the first k ticks. */
  function BackendAt(cfg: Settings, s: Runtime, ins: seq<TickInput>, b: Backend, envs: seq<Env>, k: nat): (r: Backend)
    requires k <= |ins| && k <= |envs| && Sound(b)
    ensures Sound(r)
  {
    if k == 0 then b
    else DeliverAll(BackendAt(cfg, s, ins, b, envs, k - 1), Messages(cfg, StateAt(cfg, s, ins, k - 1), ins[k - 1]),
                    envs[k - 1])
  }

  /** The views over the two groups of tables. */
  class BackendApi {
    const registry: R.RegistryTables
    const trail: I.IncidentTables

    constructor (registry: R.RegistryTables, trail: I.IncidentTables)
      ensures this.registry == registry && this.trail == trail
    {
      this.registry, this.trail := registry, trail;
    }

    function State(): Backend
      reads registry, trail
    {
      Backend(registry.State(), trail.State())
    }

    method PostMetricsView(name: string, version: string)
      modifies registry
      ensures State() == old(State()).(registry := PostMetricsTo(old(State()).registry, name, version))
    {
      hide R.Resolve, R.Strip;
      if R.Strip(name) != "" {
        var id := registry.ResolveVersion(name, if version == "" then "unknown" else version);
      }
    }

    method PostActionView(name: string, wire: I.WireAction, severity: Severity, outcome: I.WireOutcome)
      returns (id: nat)
      modifies registry, trail
      ensures State() == PostActionTo(old(State()), name, wire, severity, outcome)
      ensures id == |old(trail.logs)|
    {
      hide R.Resolve, R.Strip, I.OpenOrReuse, I.BeginRecovery, I.ActionFromAgent, I.OutcomeFromAgent;
      var version := registry.ResolveVersion(if R.Strip(name) == "" then "model_a" else name, "");
      id := trail.PostAction(version, wire, severity, outcome);
    }

    /** A call of another client. */
    method HandleForeign(f: Foreign)
      modifies registry, trail
      ensures State() == Serve(old(State()), f)
    {
      hide PostMetricsTo, PostActionTo;
      match f
      case IngestMetrics(n, v) => PostMetricsView(n, v);
      case IngestAction(n, w, sev, o) =>
        var id := PostActionView(n, w, sev, o);
    }

    /** One call of the agent, dispatched to its view. */
    method Handle(m: Message, now: int)
      requires I.WellFormed(trail.State())
      modifies registry, trail
      ensures State() == Receive(old(State()), m, now)
    {
      hide R.Resolve, R.Strip, R.PostActive, I.Patch, PostMetricsTo, PostActionTo, I.WellFormed;
      match m
      case SetActive(t) =>
        var reply := registry.PostActiveModel(NameOf(t), "");
      case PostMetrics(n, v, _, _) => PostMetricsView(n, v);
      case PostAction(a, sev, t, o, _) =>
        var id := PostActionView(NameOf(t), I.Known(a), sev, I.Reported(o));
      case PatchAction(id, recovered, escalate) =>
        var found := trail.PatchAction(id, Some(I.Reported(if recovered then Success else Failed)),
                                       Some(I.Verification(recovered, escalate)), now);
    }
  }

  // ---------------------------------------------------------------- the registry follows the agent

  /** The model of the registry's active version. */
  function ActiveName(db: R.Db): Option<string> {
    if db.pointer.Some? && db.pointer.value < |db.rows| then Some(db.rows[db.pointer.value].model) else None
  }

  /** Some version of the model can be switched to. */
  ghost predicate HasUsable(db: R.Db, m: ModelName) {
    exists i :: 0 <= i < |db.rows| && db.rows[i].model == NameOf(m) && !R.Retired(db.rows[i].status)
  }

  ghost predicate Ready(b: Backend) {
    Sound(b) && HasUsable(b.registry, ModelA) && HasUsable(b.registry, ModelB)
  }

  /** Rows keep their identity, and no usable row is retired. */
  ghost predicate Grows(before: R.Db, after: R.Db) {
    |before.rows| <= |after.rows| &&
    (forall i :: 0 <= i < |before.rows| ==> after.rows[i].model == before.rows[i].model) &&
    (forall i :: 0 <= i < |before.rows| && R.Retired(after.rows[i].status) ==> R.Retired(before.rows[i].status))
  }

  lemma GrowsKeepsUsable(before: R.Db, after: R.Db, m: ModelName)
    requires Grows(before, after) && HasUsable(before, m)
    ensures HasUsable(after, m)
  {
    hide NameOf;
    var i :| 0 <= i < |before.rows| && before.rows[i].model == NameOf(m) && !R.Retired(before.rows[i].status);
    assert after.rows[i].model == NameOf(m);
  }

  lemma ResolveGrows(db: R.Db, name: string, version: string)
    requires R.Consistent(db)
    ensures Grows(db, R.Resolve(db, name, version).0) && ActiveName(R.Resolve(db, name, version).0) == ActiveName(db)
  {
    hide R.Resolve;
    R.ResolveKeepsConsistent(db, name, version);
  }

  lemma SwitchGrows(db: R.Db, target: nat)
    requires target < |db.rows|
    ensures Grows(db, R.SwitchTo(db, target)) && ActiveName(R.SwitchTo(db, target)) == Some(db.rows[target].model)
  {
  }

  lemma SetActiveMoves(db: R.Db, m: ModelName)
    requires R.Consistent(db) && HasUsable(db, m)
    ensures Grows(db, R.PostActive(db, NameOf(m), "").0)
    ensures ActiveName(R.PostActive(db, NameOf(m), "").0) == Some(NameOf(m))
  {
    hide R.SwitchTo, R.Selected;
    R.AutoSelection(db, NameOf(m));
    var t := R.Selected(db, NameOf(m), "");
    if t.Some? { SwitchGrows(db, t.value); }
  }

  /** What a message makes the registry's active model, if it arrives. */
  function Sets(m: Message, active: Option<string>): Option<string> {
    if m.SetActive? then Some(NameOf(m.target)) else active
  }

  lemma ReceiveActive(b: Backend, m: Message, now: int)
    requires Ready(b)
    ensures Ready(Receive(b, m, now)) && ActiveName(Receive(b, m, now).registry) == Sets(m, ActiveName(b.registry))
    ensures Grows(b.registry, Receive(b, m, now).registry)
  {
    hide R.PostActive, R.Resolve, R.Strip, ActiveName, NameOf, I.Post, I.Patch, Grows, HasUsable, R.Consistent,
         I.WellFormed;
    ReceiveSound(b, m, now);
    var after := Receive(b, m, now).registry;
    match m {
      case SetActive(t) =>
        if t == ModelA { SetActiveMoves(b.registry, ModelA); } else { SetActiveMoves(b.registry, ModelB); }
      case PostMetrics(n, v, _, _) => MetricsGrow(b.registry, n, v);
      case PostAction(a, sev, t, o, _) => ActionGrows(b, NameOf(t), I.Known(a), sev, I.Reported(o));
      case PatchAction(id, rec, esc) => GrowsSelf(b.registry);
    }
    assert Grows(b.registry, after);
    GrowsKeepsUsable(b.registry, after, ModelA);
    GrowsKeepsUsable(b.registry, after, ModelB);
  }

  lemma GrowsSelf(db: R.Db)
    ensures Grows(db, db)
  {
  }

  lemma GrowsTrans(a: R.Db, b: R.Db, c: R.Db)
    requires Grows(a, b) && Grows(b, c)
    ensures Grows(a, c)
  {
  }

  lemma MetricsGrow(db: R.Db, name: string, version: string)
    requires R.Consistent(db)
    ensures Grows(db, PostMetricsTo(db, name, version)) &&
            ActiveName(PostMetricsTo(db, name, version)) == ActiveName(db)
  {
    hide R.Resolve, R.Strip;
    ResolveGrows(db, name, if version == "" then "unknown" else version);
  }

  lemma ActionGrows(b: Backend, name: string, wire: I.WireAction, severity: Severity, outcome: I.WireOutcome)
    requires R.Consistent(b.registry)
    ensures Grows(b.registry, PostActionTo(b, name, wire, severity, outcome).registry)
    ensures ActiveName(PostActionTo(b, name, wire, severity, outcome).registry) == ActiveName(b.registry)
  {
    hide R.Resolve, R.Strip, I.Post;
    ResolveGrows(b.registry, if R.Strip(name) == "" then "model_a" else name, "");
  }

  lemma {:induction false} ServeAllActive(b: Backend, fs: seq<Foreign>)
    requires Ready(b)
    ensures Ready(ServeAll(b, fs)) && ActiveName(ServeAll(b, fs).registry) == ActiveName(b.registry)
    ensures Grows(b.registry, ServeAll(b, fs).registry)
  {
    hide ActiveName, Grows, HasUsable, R.Consistent, I.WellFormed, PostMetricsTo, PostActionTo;
    if fs == [] {
      GrowsSelf(b.registry);
    } else {
      var mid, f := ServeAll(b, fs[..|fs| - 1]), fs[|fs| - 1];
      ServeAllActive(b, fs[..|fs| - 1]);
      match f {
        case IngestMetrics(n, v) => MetricsGrow(mid.registry, n, v);
        case IngestAction(n, w, sev, o) => ActionGrows(mid, n, w, sev, o);
      }
      GrowsKeepsUsable(mid.registry, Serve(mid, f).registry, ModelA);
      GrowsKeepsUsable(mid.registry, Serve(mid, f).registry, ModelB);
      GrowsTrans(b.registry, mid.registry, Serve(mid, f).registry);
    }
  }

  /** The active model after the messages that arrive. */
  function LastSet(msgs: seq<Message>, delivered: nat -> bool, active: Option<string>): Option<string> {
    if msgs == [] then active
    else
      var n := |msgs| - 1;
      var before := LastSet(msgs[..n], delivered, active);
      if delivered(n) then Sets(msgs[n], before) else before
  }

  /** The registry's active model is the last one a delivered message asked for, whatever else arrives in
      between. */
  lemma {:induction false} DeliverActive(b: Backend, msgs: seq<Message>, env: Env)
    requires Ready(b)
    decreases |msgs|, 0
    ensures Ready(DeliverAll(b, msgs, env)) && Grows(b.registry, DeliverAll(b, msgs, env).registry)
    ensures ActiveName(DeliverAll(b, msgs, env).registry) == LastSet(msgs, env.delivered, ActiveName(b.registry))
  {
    hide ActiveName, Ready, Receive, ServeAll, Sets, Sound, Grows;
    if msgs == [] {
      GrowsSelf(b.registry);
    } else {
      var n := |msgs| - 1;
      BeforeActive(b, msgs[..n], env);
      ReadySound(b);
      var mid := Before(b, msgs[..n], env);
      if env.delivered(n) {
        ReadySound(mid);
        ReceiveActive(mid, msgs[n], env.now);
        GrowsTrans(b.registry, mid.registry, Receive(mid, msgs[n], env.now).registry);
      }
    }
  }

  lemma {:induction false} BeforeActive(b: Backend, msgs: seq<Message>, env: Env)
    requires Ready(b)
    ensures Ready(Before(b, msgs, env)) && Grows(b.registry, Before(b, msgs, env).registry)
    ensures ActiveName(Before(b, msgs, env).registry) == LastSet(msgs, env.delivered, ActiveName(b.registry))
    decreases |msgs|, 1
  {
    hide ActiveName, Ready, DeliverAll, ServeAll, LastSet, Sound, Grows;
    DeliverActive(b, msgs, env);
    ReadySound(b);
    var mid := DeliverAll(b, msgs, env);
    ServeAllActive(mid, env.foreign(|msgs|));
    GrowsTrans(b.registry, mid.registry, ServeAll(mid, env.foreign(|msgs|)).registry);
  }

  lemma ReadySound(b: Backend)
    requires Ready(b)
    ensures Sound(b) && I.WellFormed(b.store)
  {
  }

  // ---------------------------------------------------------------- one tick

  lemma {:induction false} LastSetConcat(a: seq<Message>, b: seq<Message>, delivered: nat -> bool,
                                         active: Option<string>)
    requires forall m :: m in b ==> !m.SetActive?
    ensures LastSet(a + b, delivered, active) == LastSet(a, delivered, active)
  {
    hide Sets;
    if b == [] {
      assert a + b == a;
    } else {
      var n := |b| - 1;
      assert (a + b)[..|a + b| - 1] == a + b[..n];
      assert b[n] in b && forall m :: m in b[..n] ==> m in b;
      LastSetConcat(a, b[..n], delivered, active);
      assert Sets(b[n], LastSet(a, delivered, active)) == LastSet(a, delivered, active) by {
        NoSet(b[n], LastSet(a, delivered, active));
      }
    }
  }

  lemma NoSet(m: Message, active: Option<string>)
    requires !m.SetActive?
    ensures Sets(m, active) == active
  {
  }

  lemma LastSetSnoc(a: seq<Message>, m: Message, delivered: nat -> bool, active: Option<string>)
    ensures LastSet(a + [m], delivered, active) ==
            if delivered(|a|) then Sets(m, LastSet(a, delivered, active)) else LastSet(a, delivered, active)
  {
    assert (a + [m])[..|a|] == a;
  }

  /** Position of the rollback message among the messages of a tick that switches and does not recover. */
  function RollbackIndex(cfg: Settings, s: Runtime, i: TickInput): nat {
    1 + |ReportMessages(cfg, s, i)|
  }

  /** The messages of a tick move the registry like this: a switch to the other model, then perhaps back. */
  lemma TickSets(cfg: Settings, s: Runtime, i: TickInput, delivered: nat -> bool, active: Option<string>)
    ensures LastSet(Messages(cfg, s, i), delivered, active) ==
            if !Switches(cfg, s, i) then active
            else
              var forth := if delivered(0) then Some(NameOf(Other(s.active))) else active;
              if Recovered(cfg, i.probes) then forth
              else if delivered(RollbackIndex(cfg, s, i)) then Some(NameOf(s.active)) else forth
  {
    hide Switches, Recovered, NameOf, ReportMessages, LastSet;
    var sm, rm, vm := SwitchMessages(cfg, s, i), ReportMessages(cfg, s, i), VerifyMessages(cfg, s, i);
    ReportsSetNothing(cfg, s, i);
    LastSetConcat(sm, rm, delivered, active);
    LastSetNone(delivered, active);
    if !Switches(cfg, s, i) {
      LastSetConcat(sm + rm, vm, delivered, active);
    } else {
      assert sm == [] + [SetActive(Other(s.active))];
      LastSetSnoc([], SetActive(Other(s.active)), delivered, active);
      if Recovered(cfg, i.probes) {
        LastSetConcat(sm + rm, vm, delivered, active);
      } else {
        LastSetSnoc(sm + rm, SetActive(s.active), delivered, active);
        assert vm == [SetActive(s.active)] + vm[1..];
        assert sm + rm + vm == (sm + rm + [SetActive(s.active)]) + vm[1..];
        LastSetConcat(sm + rm + [SetActive(s.active)], vm[1..], delivered, active);
      }
    }
  }

  lemma LastSetNone(delivered: nat -> bool, active: Option<string>)
    ensures LastSet([], delivered, active) == active
  {
  }

  lemma ReportsSetNothing(cfg: Settings, s: Runtime, i: TickInput)
    ensures forall m :: m in ReportMessages(cfg, s, i) ==> !m.SetActive?
  {
    hide Action, SeverityOf, OutcomeOf;
  }

  /** A tick, wherever it starts from, ends in agreement exactly if: it switches nothing and starts in
      agreement; it keeps a switch that arrives, or that the registry had made already; or it undoes a
      switch and the undoing arrives, or neither arrives and it starts in agreement. */
  lemma TickAgreement(cfg: Settings, s: Runtime, i: TickInput, b: Backend, env: Env)
    requires Ready(b)
    ensures Ready(DeliverAll(b, Messages(cfg, s, i), env))
    ensures var agree := ActiveName(b.registry) == Some(NameOf(s.active));
            ActiveName(DeliverAll(b, Messages(cfg, s, i), env).registry) == Some(NameOf(Next(cfg, s, i).active)) <==>
            if !Switches(cfg, s, i) then agree
            else if Recovered(cfg, i.probes) then
              env.delivered(0) || ActiveName(b.registry) == Some(NameOf(Other(s.active)))
            else env.delivered(RollbackIndex(cfg, s, i)) || (!env.delivered(0) && agree)
  {
    hide Switches, Recovered, ReportMessages, LastSet, Messages, ActiveName, Ready, Failures, NonLow, Action,
         DeliverAll;
    DeliverActive(b, Messages(cfg, s, i), env);
    TickSets(cfg, s, i, env.delivered, ActiveName(b.registry));
  }

  // ---------------------------------------------------------------- what a rollback restores

  lemma ServePointer(b: Backend, f: Foreign)
    requires Sound(b)
    ensures Serve(b, f).registry.pointer == b.registry.pointer
  {
    hide R.Resolve, R.Strip, I.Post;
    match f
    case IngestMetrics(n, v) => R.ResolveKeepsConsistent(b.registry, n, if v == "" then "unknown" else v);
    case IngestAction(n, w, sev, o) =>
      R.ResolveKeepsConsistent(b.registry, if R.Strip(n) == "" then "model_a" else n, "");
  }

  lemma {:induction false} ServeAllPointer(b: Backend, fs: seq<Foreign>)
    requires Sound(b)
    ensures ServeAll(b, fs).registry.pointer == b.registry.pointer
  {
    hide Serve, Sound;
    if fs != [] {
      ServeAllPointer(b, fs[..|fs| - 1]);
      ServePointer(ServeAll(b, fs[..|fs| - 1]), fs[|fs| - 1]);
    }
  }

  /** A tick that undoes its switch is, for the registry, everything up to the rollback message, that
      message, and then nothing that moves the active version. */
  lemma RollbackIsLastSet(cfg: Settings, s: Runtime, i: TickInput, b: Backend, env: Env)
    requires Sound(b) && Switches(cfg, s, i) && !Recovered(cfg, i.probes) && forall j: nat :: env.delivered(j)
    ensures |UpToRollback(cfg, s, i)| == RollbackIndex(cfg, s, i)
    ensures DeliverAll(b, Messages(cfg, s, i), env).registry.pointer
         == R.PostActive(Before(b, UpToRollback(cfg, s, i), env).registry, NameOf(s.active), "").0.pointer
  {
    hide Switches, Recovered, ReportMessages, NameOf, R.PostActive, ServeAll, I.Patch, Sound;
    var ahead := UpToRollback(cfg, s, i);
    var undo := ahead + [SetActive(s.active)];
    assert undo[..|ahead|] == ahead && undo[|ahead|] == SetActive(s.active);
    if i.reply.None? {
      assert Messages(cfg, s, i) == undo;
    } else {
      var patch := PatchAction(i.reply.value, false, true);
      assert Messages(cfg, s, i) == undo + [patch];
      assert (undo + [patch])[..|undo|] == undo;
      ServeAllPointer(DeliverAll(b, undo, env), env.foreign(|undo|));
    }
  }

  /** The messages ahead of the rollback message. */
  function UpToRollback(cfg: Settings, s: Runtime, i: TickInput): seq<Message> {
    SwitchMessages(cfg, s, i) + ReportMessages(cfg, s, i)
  }

  /** A rollback restores the model, but the version that was serving comes back exactly when no newer
      version of its model is usable at that moment: a version ingested meanwhile takes the slot. */
  lemma RollbackRestoresVersion(cfg: Settings, s: Runtime, i: TickInput, b: Backend, env: Env)
    requires Ready(b) && R.StatusAgrees(b.registry) && ActiveName(b.registry) == Some(NameOf(s.active))
    requires Switches(cfg, s, i) && !Recovered(cfg, i.probes) && forall j: nat :: env.delivered(j)
    ensures var at, p := Before(b, UpToRollback(cfg, s, i), env).registry, b.registry.pointer.value;
            DeliverAll(b, Messages(cfg, s, i), env).registry.pointer == b.registry.pointer <==>
            forall j :: p < j < |at.rows| && at.rows[j].model == NameOf(s.active) ==> R.Retired(at.rows[j].status)
  {
    hide Switches, Recovered, Messages, UpToRollback, DeliverAll, Before, R.PostActive, NameOf, HasUsable;
    var ahead := UpToRollback(cfg, s, i);
    BeforeActive(b, ahead, env);
    RollbackIsLastSet(cfg, s, i, b, env);
    NameNotEmpty(s.active);
    R.SwitchLandsOn(Before(b, ahead, env).registry, NameOf(s.active), b.registry.pointer.value);
  }

  lemma NameNotEmpty(m: ModelName)
    ensures NameOf(m) != ""
  {
  }

  // ---------------------------------------------------------------- whole runs

  ghost predicate AllDelivered(envs: seq<Env>) {
    forall k :: 0 <= k < |envs| ==> forall j: nat :: envs[k].delivered(j)
  }

  /** Message j of tick k arrived and asked for model m. */
  ghost predicate Asked(cfg: Settings, s: Runtime, ins: seq<TickInput>, envs: seq<Env>, k: nat, j: nat, m: ModelName)
    requires k < |ins| && k < |envs|
  {
    var msgs := Messages(cfg, StateAt(cfg, s, ins, k), ins[k]);
    j < |msgs| && envs[k].delivered(j) && msgs[j] == SetActive(m)
  }

  /** The last request that arrived in the first n ticks is message j of tick k, and asks for m. */
  ghost predicate AskedLast(cfg: Settings, s: Runtime, ins: seq<TickInput>, envs: seq<Env>, n: nat, k: nat, j: nat,
                            m: ModelName)
    requires n <= |ins| && n <= |envs|
  {
    k < n && Asked(cfg, s, ins, envs, k, j, m) &&
    forall k': nat, j': nat, m': ModelName :: k' < n && (k' > k || (k' == k && j' > j)) ==>
      !Asked(cfg, s, ins, envs, k', j', m')
  }

  ghost predicate NeverAsked(cfg: Settings, s: Runtime, ins: seq<TickInput>, envs: seq<Env>, n: nat)
    requires n <= |ins| && n <= |envs|
  {
    forall k: nat, j: nat, m: ModelName :: k < n ==> !Asked(cfg, s, ins, envs, k, j, m)
  }

  /** What the last delivered request of a list asks for. */
  lemma {:induction false} LastSetIs(msgs: seq<Message>, delivered: nat -> bool, active: Option<string>)
    returns (j: Option<nat>)
    ensures j.Some? ==> j.value < |msgs| && delivered(j.value) && msgs[j.value].SetActive? &&
                        LastSet(msgs, delivered, active) == Some(NameOf(msgs[j.value].target))
    ensures j.None? ==> LastSet(msgs, delivered, active) == active
    ensures forall i: nat :: (j.Some? ==> i > j.value) && i < |msgs| && delivered(i) ==> !msgs[i].SetActive?
  {
    hide NameOf;
    if msgs == [] {
      j := None;
    } else {
      var n := |msgs| - 1;
      if delivered(n) && msgs[n].SetActive? {
        j := Some(n);
      } else {
        j := LastSetIs(msgs[..n], delivered, active);
      }
    }
  }

  /** Whatever is lost on the way, over a whole run the registry's model is the one the last request that
      arrived asked for, and the one it started with if none did. */
  lemma {:induction false} LastRequestWins(cfg: Settings, s: Runtime, ins: seq<TickInput>, b: Backend,
                                           envs: seq<Env>, n: nat)
    returns (last: Option<(nat, nat, ModelName)>)
    requires n <= |ins| && n <= |envs| && Ready(b)
    ensures Ready(BackendAt(cfg, s, ins, b, envs, n))
    ensures last.None? ==> NeverAsked(cfg, s, ins, envs, n) &&
                           ActiveName(BackendAt(cfg, s, ins, b, envs, n).registry) == ActiveName(b.registry)
    ensures last.Some? ==> AskedLast(cfg, s, ins, envs, n, last.value.0, last.value.1, last.value.2) &&
                           ActiveName(BackendAt(cfg, s, ins, b, envs, n).registry) == Some(NameOf(last.value.2))
  {
    hide Messages, ActiveName, DeliverAll, HasUsable, StateAt, LastSet, NameOf, Ready;
    ReadySound(b);
    if n == 0 {
      last := None;
    } else {
      last := LastRequestWins(cfg, s, ins, b, envs, n - 1);
      var msgs, env := Messages(cfg, StateAt(cfg, s, ins, n - 1), ins[n - 1]), envs[n - 1];
      var mid := BackendAt(cfg, s, ins, b, envs, n - 1);
      DeliverActive(mid, msgs, env);
      var j := LastSetIs(msgs, env.delivered, ActiveName(mid.registry));
      if j.Some? { last := Some((n - 1, j.value, msgs[j.value].target)); }
    }
  }

  /** Agent and registry stay in step: if the registry starts on the agent's model, every model keeps a
      usable version and no call is lost, then at every tick boundary of every run, including ticks that
      switch and roll back, the registry's single active version belongs to the agent's active model,
      whatever other clients ingest in between. */
  lemma {:induction false} InStep(cfg: Settings, s: Runtime, ins: seq<TickInput>, b: Backend, envs: seq<Env>, k: nat)
    requires k <= |ins| && k <= |envs| && AllDelivered(envs)
    requires Ready(b) && ActiveName(b.registry) == Some(NameOf(s.active))
    ensures Ready(BackendAt(cfg, s, ins, b, envs, k))
    ensures ActiveName(BackendAt(cfg, s, ins, b, envs, k).registry) == Some(NameOf(StateAt(cfg, s, ins, k).active))
    ensures R.AtMostOneActive(BackendAt(cfg, s, ins, b, envs, k).registry.rows)
  {
    hide Next, Messages, ActiveName, DeliverAll, HasUsable, Switches;
    if k > 0 {
      InStep(cfg, s, ins, b, envs, k - 1);
      assert envs[k - 1].delivered(0) &&
          envs[k - 1].delivered(RollbackIndex(cfg, StateAt(cfg, s, ins, k - 1), ins[k - 1]));
      TickAgreement(cfg, StateAt(cfg, s, ins, k - 1), ins[k - 1], BackendAt(cfg, s, ins, b, envs, k - 1), envs[k - 1]);
    }
  }

  /** The agent's start establishes the hypothesis: it adopts the registry's model if it knows it. */
  lemma AdoptionAgrees(m: ModelName, db: R.Db)
    ensures ActiveName(db) == Some(NameOf(Adopt(Start(m), ActiveName(db)).active)) <==>
            ActiveName(db).Some? && FromName(ActiveName(db).value).Some?
  {
    hide ActiveName;
  }
}
