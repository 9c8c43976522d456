/** What holds of the audit trail over every sequence of calls. */
module IncidentLaws {
  import opened Schemas
  import opened Incidents

  /** The actions, as they arrive, that put an incident in recovery, and those that can be taken back. */
  predicate Intervenes(w: WireAction) {
    w in {Known(SwitchBackup), Known(Rollback), Known(Retrain), Known(DisablePredictions)}
  }

  predicate CanBeUndone(w: WireAction) { w in {Known(SwitchBackup), Known(Rollback), Known(DisablePredictions)} }

  /** Posting an action, a no-op included, attaches it to an open incident of its version. An incident is
      opened exactly when the version has none; no other incident changes, and the one attached to changes
      only by a switch, rollback, retraining or disable, which puts it in recovery at that severity. */
  lemma PostAttaches(s: Store, version: nat, wire: WireAction, severity: Severity, outcome: WireOutcome)
    requires WellFormed(s)
    ensures var (t, id) := Post(s, version, wire, severity, outcome);
            id == |s.logs| && |t.logs| == id + 1 && s.logs <= t.logs && t.verdicts == s.verdicts &&
            (var i := t.logs[id].incident;
             i < |t.incidents| && t.incidents[i].version == version && !Terminal(t.incidents[i].status) &&
             (|t.incidents| == |s.incidents| <==>
                exists k :: 0 <= k < |s.incidents| && s.incidents[k].version == version &&
                  !Terminal(s.incidents[k].status)) &&
             |t.incidents| <= |s.incidents| + 1 && (i == |s.incidents| <==> |t.incidents| > |s.incidents|) &&
             (forall k :: 0 <= k < |s.incidents| && k != i ==> t.incidents[k] == s.incidents[k]) &&
             (Intervenes(wire) ==> t.incidents[i].status == Recovering && t.incidents[i].severity == severity) &&
             (!Intervenes(wire) && i < |s.incidents| ==> t.incidents[i] == s.incidents[i]))
  {
    hide OutcomeFromAgent;
  }

  /** What is recorded of an action, and how its outcome is taken over. Each action the agent knows has a
      record of its own; one it does not know is taken for a no-op, and an unknown outcome leaves what was
      there. */
  lemma Vocabularies(a: ActionType, b: ActionType, before: LogOutcome)
    ensures ActionFromAgent(Known(a)) == ActionFromAgent(Known(b)) ==> a == b
    ensures ActionFromAgent(UnknownAction) == LogNoOp == ActionFromAgent(Known(NoOp))
    ensures ActionFromAgent(Known(Alert)) == LogAlert && ActionFromAgent(Known(SwitchBackup)) == LogSwitch
    ensures ActionFromAgent(Known(Rollback)) == LogRollback && ActionFromAgent(Known(Retrain)) == LogRetrain
    ensures ActionFromAgent(Known(DisablePredictions)) == LogDisable
    ensures OutcomeFromAgent(Reported(Pending), before) == LogPending
    ensures OutcomeFromAgent(Reported(Success), before) == LogSuccess
    ensures OutcomeFromAgent(Reported(Failed), before) == LogFailed
    ensures OutcomeFromAgent(Reported(Skipped), before) == LogSkipped
    ensures OutcomeFromAgent(Reverted, before) == LogReverted
    ensures OutcomeFromAgent(UnknownOutcome, before) == before
  {
  }

  /** A post begins recovery, at the posted severity, exactly if the action that arrived is a switch, a
      rollback, a retraining or a disable. Any other action leaves an open incident as it was, and opens a
      new one as OPEN at the posted severity. The record says what arrived, has no execution time yet, and
      can be taken back exactly if it is a switch, a rollback or a disable. */
  lemma PostByArrival(s: Store, version: nat, wire: WireAction, severity: Severity, outcome: WireOutcome)
    requires WellFormed(s)
    ensures var (t, id) := Post(s, version, wire, severity, outcome);
            id < |t.logs| &&
            (var log := t.logs[id];
             log.incident < |t.incidents| &&
             (var x, reused := t.incidents[log.incident], log.incident < |s.incidents|;
              log == ActionLog(log.incident, version, ActionFromAgent(wire), severity,
                               OutcomeFromAgent(outcome, LogPending), None, CanBeUndone(wire)) &&
              x.version == version && !Terminal(x.status) &&
              (Intervenes(wire) ==> x.status == Recovering && x.severity == severity) &&
              (Intervenes(wire) ==> x.closedAt == if reused then s.incidents[log.incident].closedAt else None) &&
              (!Intervenes(wire) ==> x == if reused then s.incidents[log.incident]
                                          else Incident(version, Open, severity, None))))
  {
    hide OpenIncident, OutcomeFromAgent;
  }

  /** A patch takes over the outcome that arrived and stamps the execution time, once; a verification moves
      the incident of the record and is written down; nothing else changes. */
  lemma PatchByArrival(s: Store, pk: nat, outcome: Option<WireOutcome>, v: Option<Verification>, now: int)
    requires WellFormed(s) && pk < |s.logs|
    ensures var t, i := Patch(s, pk, outcome, v, now), s.logs[pk].incident;
            |t.logs| == |s.logs| && |t.incidents| == |s.incidents| &&
            (forall k :: 0 <= k < |s.logs| && k != pk ==> t.logs[k] == s.logs[k]) &&
            (forall k :: 0 <= k < |s.incidents| && k != i ==> t.incidents[k] == s.incidents[k]) &&
            SameRecord(s.logs[pk], t.logs[pk]) &&
            (outcome == None ==> t.logs[pk] == s.logs[pk]) &&
            (outcome.Some? ==>
               t.logs[pk].outcome == OutcomeFromAgent(outcome.value, s.logs[pk].outcome) &&
               t.logs[pk].executedAt == Some(if s.logs[pk].executedAt.Some? then s.logs[pk].executedAt.value
                                             else now)) &&
            (v == None ==> t.incidents == s.incidents && t.verdicts == s.verdicts) &&
            (v.Some? ==>
               t.verdicts.Keys == s.verdicts.Keys + {pk} &&
               (forall k :: k in s.verdicts && k != pk ==> t.verdicts[k] == s.verdicts[k]) &&
               (v.value.recovered ==>
                  t.verdicts[pk] == VerdictRow(true, Keep) &&
                  t.incidents[i] == s.incidents[i].(status := Resolved, closedAt := Some(now))) &&
               (!v.value.recovered && v.value.escalate ==>
                  t.verdicts[pk] == VerdictRow(false, Escalate) &&
                  t.incidents[i] == s.incidents[i].(status := Escalated, closedAt := Some(now))) &&
               (!v.value.recovered && !v.value.escalate ==>
                  t.verdicts[pk] == VerdictRow(false, Revert) &&
                  t.incidents[i] == s.incidents[i].(status := Recovering, closedAt := None)))
  {
    hide OutcomeFromAgent;
  }

  /** An incident carries a closing time exactly when its status is terminal. */
  ghost predicate ClosedIffTerminal(s: Store) {
    forall i :: 0 <= i < |s.incidents| ==> (s.incidents[i].closedAt.Some? <==> Terminal(s.incidents[i].status))
  }

  /** No version has two non-terminal incidents. */
  ghost predicate OneOpen(s: Store) {
    forall i, j :: 0 <= i < j < |s.incidents| && s.incidents[i].version == s.incidents[j].version ==>
      Terminal(s.incidents[i].status) || Terminal(s.incidents[j].status)
  }

  lemma StepClosed(s: Store, c: Call)
    requires WellFormed(s) && ClosedIffTerminal(s)
    ensures ClosedIffTerminal(Apply(s, c))
  {
    hide ActionFromAgent, OutcomeFromAgent, NonTrivial, Decide;
  }

  /** closed_at is set exactly when the incident is terminal, after every sequence of calls. */
  lemma {:induction false} ClosedOverTraces(s: Store, cs: seq<Call>)
    requires WellFormed(s) && ClosedIffTerminal(s)
    ensures ClosedIffTerminal(ApplyAll(s, cs))
  {
    hide Apply;
    if cs != [] {
      ClosedOverTraces(s, cs[..|cs| - 1]);
      StepClosed(ApplyAll(s, cs[..|cs| - 1]), cs[|cs| - 1]);
    }
  }

  /** A REVERT verdict on an incident that is already closed. */
  predicate RevertsClosed(s: Store, c: Call)
  {
    c.PatchCall? && c.pk < |s.logs| && c.verification.Some? &&
    Decide(c.verification.value.recovered, c.verification.value.escalate) == Revert &&
    s.logs[c.pk].incident < |s.incidents| && Terminal(s.incidents[s.logs[c.pk].incident].status)
  }

  /** Closed incidents stay closed. */
  ghost predicate StayClosed(s: Store, t: Store) {
    |s.incidents| <= |t.incidents| &&
    forall i :: 0 <= i < |s.incidents| && Terminal(s.incidents[i].status) ==> Terminal(t.incidents[i].status)
  }

  /** The lifecycle promises that RESOLVED and ESCALATED are terminal. A call keeps every closed incident
      closed exactly unless it is a REVERT of one. */
  lemma StayClosedIff(s: Store, c: Call)
    requires WellFormed(s)
    ensures StayClosed(s, Apply(s, c)) <==> !RevertsClosed(s, c)
  {
    hide ActionFromAgent, OutcomeFromAgent, NonTrivial;
    if RevertsClosed(s, c) {
      var i := s.logs[c.pk].incident;
      assert Terminal(s.incidents[i].status) && !Terminal(Apply(s, c).incidents[i].status);
    }
  }

  /** ... while the same version has another incident open. */
  ghost predicate ReopensBesideAnother(s: Store, c: Call)
    requires WellFormed(s)
  {
    RevertsClosed(s, c) &&
    exists j :: 0 <= j < |s.incidents| && j != s.logs[c.pk].incident &&
      s.incidents[j].version == s.incidents[s.logs[c.pk].incident].version && !Terminal(s.incidents[j].status)
  }

  /** A call keeps at most one open incident per version exactly unless it reopens a closed incident beside
      an open one. */
  lemma StepOneOpen(s: Store, c: Call)
    requires WellFormed(s) && OneOpen(s)
    ensures OneOpen(Apply(s, c)) <==> !ReopensBesideAnother(s, c)
  {
    hide ActionFromAgent, OutcomeFromAgent, NonTrivial;
    if ReopensBesideAnother(s, c) {
      var i := s.logs[c.pk].incident;
      var j :| 0 <= j < |s.incidents| && j != i && s.incidents[j].version == s.incidents[i].version &&
          !Terminal(s.incidents[j].status);
      var t := Apply(s, c);
      assert !Terminal(t.incidents[i].status) && !Terminal(t.incidents[j].status);
    }
  }

  /** No call of the trace reverts a closed incident. */
  ghost predicate NeverRevertsClosed(s: Store, cs: seq<Call>)
    requires WellFormed(s)
  {
    cs == [] || (NeverRevertsClosed(s, cs[..|cs| - 1]) && !RevertsClosed(ApplyAll(s, cs[..|cs| - 1]), cs[|cs| - 1]))
  }

  /** If REVERT verdicts hit only open incidents, every version has at most one open incident, after every
      sequence of calls. */
  lemma {:induction false} OneOpenOverTraces(s: Store, cs: seq<Call>)
    requires WellFormed(s) && OneOpen(s) && NeverRevertsClosed(s, cs)
    ensures OneOpen(ApplyAll(s, cs))
  {
    hide Apply, RevertsClosed;
    if cs != [] {
      OneOpenOverTraces(s, cs[..|cs| - 1]);
      StepOneOpen(ApplyAll(s, cs[..|cs| - 1]), cs[|cs| - 1]);
    }
  }

  function SwitchPosted(): Store {
    Store([Incident(0, Recovering, High, None)], [ActionLog(0, 0, LogSwitch, High, LogPending, None, true)], map[])
  }

  function SwitchKept(): Store {
    Store([Incident(0, Resolved, High, Some(1))], [ActionLog(0, 0, LogSwitch, High, LogPending, None, true)],
          map[0 := VerdictRow(true, Keep)])
  }

  lemma SwitchPostedAndKept()
    ensures Post(EMPTY, 0, Known(SwitchBackup), High, Reported(Pending)).0 == SwitchPosted()
    ensures WellFormed(SwitchPosted()) &&
            Patch(SwitchPosted(), 0, None, Some(Verification(true, false)), 1) == SwitchKept()
    ensures WellFormed(SwitchKept()) && OneOpen(SwitchKept())
  {
    assert OpenIncident([], 0) == None;
    assert SwitchPosted().logs[0 := SwitchPosted().logs[0]] == SwitchPosted().logs;
  }

  /** Without the hypothesis it fails: post a switch, keep it, post again, then revert the first. The closed
      incident is open again, beside another. */
  lemma RevertAfterKeepDuplicates()
    ensures WellFormed(EMPTY)
    ensures var s1 := Apply(EMPTY, PostCall(0, Known(SwitchBackup), High, Reported(Pending)));
            var s2 := Apply(s1, PatchCall(0, None, Some(Verification(true, false)), 1));
            var s3 := Apply(s2, PostCall(0, Known(NoOp), Low, Reported(Success)));
            var s4 := Apply(s3, PatchCall(0, None, Some(Verification(false, false)), 2));
            OneOpen(s3) && !OneOpen(s4) && !StayClosed(s3, s4)
  {
    SwitchPostedAndKept();
    var second := PostCall(0, Known(NoOp), Low, Reported(Success));
    StepOneOpen(SwitchKept(), second);
    var s3 := Apply(SwitchKept(), second);
    assert s3.incidents == SwitchKept().incidents + [Incident(0, Open, Low, None)] by {
      assert OpenIncident(SwitchKept().incidents, 0) == None;
    }
    assert s3.logs[0] == SwitchKept().logs[0];
    assert !Terminal(s3.incidents[1].status);
    StepOneOpen(s3, PatchCall(0, None, Some(Verification(false, false)), 2));
    StayClosedIff(s3, PatchCall(0, None, Some(Verification(false, false)), 2));
  }

  /** The part of a log that no call may touch. */
  ghost predicate SameRecord(a: ActionLog, b: ActionLog) {
    a.incident == b.incident && a.version == b.version && a.action == b.action && a.severity == b.severity &&
    a.reversible == b.reversible && (a.executedAt.Some? ==> b.executedAt == a.executedAt)
  }

  ghost predicate Extends(s: Store, t: Store) {
    |s.logs| <= |t.logs| && |s.incidents| <= |t.incidents| && s.verdicts.Keys <= t.verdicts.Keys &&
    (forall k :: 0 <= k < |s.logs| ==> SameRecord(s.logs[k], t.logs[k])) &&
    (forall i :: 0 <= i < |s.incidents| ==> t.incidents[i].version == s.incidents[i].version)
  }

  lemma StepExtends(s: Store, c: Call)
    requires WellFormed(s)
    ensures Extends(s, Apply(s, c))
  {
    hide ActionFromAgent, OutcomeFromAgent, NonTrivial, Decide;
  }

  /** The audit trail is append-only: no sequence of calls removes a record, changes what was decided, or
      moves an execution time once stamped. */
  lemma {:induction false} AuditAppendOnly(s: Store, cs: seq<Call>)
    requires WellFormed(s)
    ensures Extends(s, ApplyAll(s, cs))
  {
    hide Apply;
    if cs != [] {
      AuditAppendOnly(s, cs[..|cs| - 1]);
      StepExtends(ApplyAll(s, cs[..|cs| - 1]), cs[|cs| - 1]);
    }
  }
}
