/** The trail of an agent that is the backend's only client: what its records say the agent did. */
module AgentTrail {
  import opened Schemas
  import opened Retry
  import opened Agent
  import AR = AgentRuns
  import opened ControlPlane
  import opened AuditTrail
  import opened IncidentCap
  import R = Registry
  import I = Incidents
  import L = IncidentLaws

  /** No other client calls while this tick's messages arrive. */
  ghost predicate Alone(env: Env) { forall j: nat :: env.foreign(j) == [] }

  ghost predicate AgentOnly(h: History) {
    h.Valid() && forall k :: 0 <= k < |h.envs| ==> Alone(h.envs[k])
  }

  // ---------------------------------------------------------------- records

  /** The same records, up to what a verdict adds to them. */
  ghost predicate SameRecords(s: I.Store, t: I.Store) {
    |s.logs| == |t.logs| && forall id :: 0 <= id < |s.logs| ==> L.SameRecord(s.logs[id], t.logs[id])
  }

  lemma ReceiveKeepsRecords(b: Backend, m: Message, now: int)
    requires I.WellFormed(b.store) && !m.PostAction?
    ensures SameRecords(b.store, Receive(b, m, now).store)
  {
    hide R.PostActive, R.Resolve, R.Strip, I.WellFormed, I.OutcomeFromAgent;
  }

  lemma AloneBefore(b: Backend, msgs: seq<Message>, env: Env)
    requires Sound(b) && Alone(env)
    ensures Before(b, msgs, env) == DeliverAll(b, msgs, env)
  {
    hide Sound, DeliverAll;
  }

  lemma DeliverOne(b: Backend, msgs: seq<Message>, m: Message, env: Env)
    requires Sound(b) && Alone(env)
    ensures var before := DeliverAll(b, msgs, env);
            I.WellFormed(before.store) &&
            DeliverAll(b, msgs + [m], env) == if env.delivered(|msgs|) then Receive(before, m, env.now) else before
  {
    hide Sound, DeliverAll, Before, Receive;
    AloneBefore(b, msgs, env);
    SoundWellFormed(Before(b, msgs, env));
    DeliverLast(b, msgs, m, env);
  }

  lemma {:induction false} DeliverKeepsRecords(b: Backend, msgs: seq<Message>, more: seq<Message>, env: Env)
    requires Sound(b) && Alone(env) && forall m :: m in more ==> !m.PostAction?
    ensures SameRecords(DeliverAll(b, msgs, env).store, DeliverAll(b, msgs + more, env).store)
    decreases |more|
  {
    hide Sound, Alone, DeliverAll, Receive, I.WellFormed;
    if more == [] {
      assert msgs + more == msgs;
    } else {
      var n := |more| - 1;
      assert more[n] in more;
      DeliverKeepsRecords(b, msgs, more[..n], env);
      DeliverOne(b, msgs + more[..n], more[n], env);
      assert msgs + more == msgs + more[..n] + [more[n]];
      if env.delivered(|msgs + more[..n]|) {
        ReceiveKeepsRecords(DeliverAll(b, msgs + more[..n], env), more[n], env.now);
      }
    }
  }

  /** A tick's messages: none but one in the middle posts an action, and only the verdict on a switch patches
      one. */
  lemma TickSends(h: History, k: nat)
    requires k < |h.ins|
    ensures h.Sent(k) == h.Ahead(k) + [h.PostMessage(k)] + VerifyMessages(h.cfg, h.Runtime(k), h.ins[k])
    ensures forall m :: m in h.Ahead(k) ==> m.SetActive? || m.PostMetrics?
    ensures forall m :: m in VerifyMessages(h.cfg, h.Runtime(k), h.ins[k]) ==> m.SetActive? || m.PatchAction?
    ensures !Switches(h.cfg, h.Runtime(k), h.ins[k]) ==> VerifyMessages(h.cfg, h.Runtime(k), h.ins[k]) == []
    ensures h.PostMessage(k).action == Action(h.cfg, h.Runtime(k), h.ins[k])
    ensures h.PostMessage(k).severity == SeverityOf(h.cfg, h.Runtime(k), h.ins[k])
  {
    hide StateAt, Switches, Recovered, OutcomeOf, Action, SeverityOf, FindingsOf, DriftScore, DriftedCount;
    var s, i := h.Runtime(k), h.ins[k];
    var p := ReportMessages(h.cfg, s, i);
    assert p == p[..|p| - 1] + [h.PostMessage(k)];
  }

  /** The record a post adds. */
  lemma PostAdds(b: Backend, m: Message, now: int)
    requires I.WellFormed(b.store) && m.PostAction?
    ensures var s, t := b.store, Receive(b, m, now).store;
            |t.logs| == |s.logs| + 1 && s.logs <= t.logs &&
            t.logs[|s.logs|].action == I.ActionFromAgent(I.Known(m.action)) && t.logs[|s.logs|].severity == m.severity
  {
    hide R.Resolve, R.Strip, I.WellFormed, I.OpenOrReuse, I.BeginRecovery, I.OutcomeFromAgent, I.ActionFromAgent;
  }

  /** A tick adds one record if its post arrives, none if not, and keeps all others. */
  lemma TickRecords(h: History, k: nat)
    requires AgentOnly(h) && k < |h.ins|
    ensures var s, t, arrives := h.At(k).store, h.At(k + 1).store, h.envs[k].delivered(|h.Ahead(k)|);
            h.LogOf(k) == |s.logs| && |t.logs| == |s.logs| + (if arrives then 1 else 0) &&
            (forall id :: 0 <= id < |s.logs| ==> L.SameRecord(s.logs[id], t.logs[id])) &&
            (arrives ==>
               t.logs[|s.logs|].action == I.ActionFromAgent(I.Known(Action(h.cfg, h.Runtime(k), h.ins[k]))) &&
               t.logs[|s.logs|].severity == SeverityOf(h.cfg, h.Runtime(k), h.ins[k]))
  {
    hide Sound, Safe, StateAt, Alone, DeliverAll, Before, Receive, Messages, AheadOfPost, VerifyMessages, BackendAt,
         I.WellFormed, I.ActionFromAgent, Action, SeverityOf, OutcomeOf, DecisionOf;
    var b, env, ahead, post := h.At(k), h.envs[k], h.Ahead(k), h.PostMessage(k);
    var rest := VerifyMessages(h.cfg, h.Runtime(k), h.ins[k]);
    TickSends(h, k);
    TickDelivers(h, k);
    assert [] + ahead == ahead;
    DeliverNone(b, env);
    DeliverKeepsRecords(b, [], ahead, env);
    AloneBefore(b, ahead, env);
    DeliverOne(b, ahead, post, env);
    DeliverKeepsRecords(b, ahead + [post], rest, env);
    if env.delivered(|ahead|) { PostAdds(DeliverAll(b, ahead, env), post, env.now); }
  }

  lemma TickDelivers(h: History, k: nat)
    requires h.Valid() && k < |h.ins|
    ensures h.At(k + 1) == DeliverAll(h.At(k), h.Sent(k), h.envs[k])
  {
    hide Sound, Safe, StateAt, DeliverAll, Messages;
  }

  /** Whatever is lost, every record the run adds was posted by one of its ticks, and says what that tick
      decided: it reads as a switch, an alert, a disable or a no-op exactly if the tick decided so. */
  lemma {:induction false} RecordsTellDecisions(h: History, n: nat, id: nat) returns (k: nat)
    requires AgentOnly(h) && n <= |h.ins| && |h.b.store.logs| <= id < |h.At(n).store.logs|
    ensures k < n && h.envs[k].delivered(|h.Ahead(k)|) && h.LogOf(k) == id
    ensures var log, act := h.At(n).store.logs[id], Action(h.cfg, h.Runtime(k), h.ins[k]);
            (log.action == I.LogSwitch <==> act == SwitchBackup) && (log.action == I.LogAlert <==> act == Alert) &&
            (log.action == I.LogDisable <==> act == DisablePredictions) && (log.action == I.LogNoOp <==> act == NoOp) &&
            log.severity == SeverityOf(h.cfg, h.Runtime(k), h.ins[k])
  {
    hide Sound, Safe, StateAt, BackendAt, AgentOnly, History.Ahead, Action, SeverityOf;
    RunStart(h);
    TickRecords(h, n - 1);
    if id < |h.At(n - 1).store.logs| {
      k := RecordsTellDecisions(h, n - 1, id);
    } else {
      k := n - 1;
      Decided(h.cfg, h.Runtime(k), h.ins[k]);
    }
  }

  lemma RunStart(h: History)
    requires AgentOnly(h)
    ensures h.Valid() && h.At(0) == h.b && |h.envs| == |h.ins|
  {
    hide Sound, Safe;
  }

  lemma Decided(cfg: Settings, s: Runtime, i: TickInput)
    ensures Action(cfg, s, i) in {NoOp, Alert, SwitchBackup, DisablePredictions}
  {
    hide SeverityOf;
  }

  /** And every post that arrives is recorded for good. */
  lemma {:induction false} PostsAreRecorded(h: History, k: nat, n: nat)
    requires AgentOnly(h) && k < n <= |h.ins| && h.envs[k].delivered(|h.Ahead(k)|)
    ensures h.LogOf(k) < |h.At(n).store.logs|
    ensures h.At(n).store.logs[h.LogOf(k)].action == I.LogSwitch <==>
            Action(h.cfg, h.Runtime(k), h.ins[k]) == SwitchBackup
  {
    hide Sound, Safe, StateAt, BackendAt, AgentOnly, History.Ahead, History.LogOf, Action, SeverityOf;
    RunStart(h);
    TickRecords(h, n - 1);
    if k < n - 1 {
      PostsAreRecorded(h, k, n - 1);
    } else {
      Decided(h.cfg, h.Runtime(k), h.ins[k]);
    }
  }

  // ---------------------------------------------------------------- a run that does not act

  /** Nothing happens to the incidents but that new ones are opened. */
  ghost predicate OnlyOpens(s: I.Store, t: I.Store) {
    s.incidents <= t.incidents &&
    forall x :: |s.incidents| <= x < |t.incidents| ==>
      t.incidents[x].status == I.Open && t.incidents[x].closedAt == None
  }

  predicate Harmless(m: Message) { !m.PatchAction? && (m.PostAction? ==> m.action == NoOp || m.action == Alert) }

  lemma ReceiveOpens(b: Backend, m: Message, now: int)
    requires I.WellFormed(b.store) && Harmless(m)
    ensures OnlyOpens(b.store, Receive(b, m, now).store)
  {
    hide R.PostActive, R.Resolve, R.Strip, I.WellFormed, I.OutcomeFromAgent;
  }

  lemma {:induction false} DeliverOpens(b: Backend, msgs: seq<Message>, env: Env)
    requires Sound(b) && Alone(env) && forall m :: m in msgs ==> Harmless(m)
    ensures OnlyOpens(b.store, DeliverAll(b, msgs, env).store)
  {
    hide Sound, Alone, DeliverAll, Receive, Harmless, I.WellFormed;
    if msgs == [] {
      DeliverNone(b, env);
    } else {
      var n := |msgs| - 1;
      assert msgs[n] in msgs && msgs == msgs[..n] + [msgs[n]];
      DeliverOpens(b, msgs[..n], env);
      DeliverOne(b, msgs[..n], msgs[n], env);
      if env.delivered(n) { ReceiveOpens(DeliverAll(b, msgs[..n], env), msgs[n], env.now); }
    }
  }

  lemma PassiveTick(h: History, k: nat)
    requires k < |h.ins| && !AR.Acts(Action(h.cfg, h.Runtime(k), h.ins[k]))
    ensures forall m :: m in h.Sent(k) ==> Harmless(m)
  {
    hide StateAt, Messages, AheadOfPost, VerifyMessages, OutcomeOf, DecisionOf, Action, SeverityOf;
    TickSends(h, k);
    Decided(h.cfg, h.Runtime(k), h.ins[k]);
  }

  /** A run in which no tick acts puts no incident in recovery: those there were are untouched, and those it
      opens stay OPEN. */
  lemma {:induction false} PassiveRun(h: History, n: nat)
    requires AgentOnly(h) && n <= |h.ins|
    requires forall k: nat :: k < n ==> !AR.Acts(Action(h.cfg, h.Runtime(k), h.ins[k]))
    ensures OnlyOpens(h.b.store, h.At(n).store)
    ensures (forall x :: x in h.b.store.incidents ==> x.status != I.Recovering) ==>
              forall x :: x in h.At(n).store.incidents ==> x.status != I.Recovering
  {
    hide Sound, Safe, StateAt, BackendAt, DeliverAll, Action, Messages, Alone, Harmless;
    RunStart(h);
    if n > 0 {
      PassiveRun(h, n - 1);
      PassiveTick(h, n - 1);
      TickDelivers(h, n - 1);
      assert Alone(h.envs[n - 1]);
      DeliverOpens(h.At(n - 1), h.Sent(n - 1), h.envs[n - 1]);
    }
  }
}
