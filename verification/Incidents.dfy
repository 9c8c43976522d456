/** The audit trail: incidents, action logs and verification verdicts, and the two calls that drive them.
    Rows stand in the order of their creation; a row's index is its primary key. Instants are supplied
    by the caller's clock. */
module Incidents {
  import opened Schemas

  datatype Status = Open | Recovering | Verifying | Resolved | Escalated

  predicate Terminal(s: Status) { s == Resolved || s == Escalated }

  datatype Incident = Incident(version: nat, status: Status, severity: Severity, closedAt: Option<int>)

  datatype LogAction = LogNoOp | LogAlert | LogSwitch | LogRollback | LogRetrain | LogDisable

  datatype LogOutcome = LogPending | LogSuccess | LogFailed | LogSkipped | LogReverted

  datatype ActionLog = ActionLog(
    incident: nat, version: nat, action: LogAction, severity: Severity, outcome: LogOutcome,
    executedAt: Option<int>, reversible: bool)

  datatype Verdict = Keep | Revert | Escalate

  datatype VerdictRow = VerdictRow(success: bool, decision: Verdict)

  datatype Store = Store(incidents: seq<Incident>, logs: seq<ActionLog>, verdicts: map<nat, VerdictRow>)

  const EMPTY := Store([], [], map[])

  // ---------------------------------------------------------------- vocabularies

  /** An action or outcome as it arrives; the backend knows one outcome the agent does not. */
  datatype WireAction = Known(action: ActionType) | UnknownAction

  datatype WireOutcome = Reported(outcome: Outcome) | Reverted | UnknownOutcome

  function ActionFromAgent(w: WireAction): LogAction {
    match w
    case Known(NoOp) => LogNoOp
    case Known(Alert) => LogAlert
    case Known(SwitchBackup) => LogSwitch
    case Known(Rollback) => LogRollback
    case Known(Retrain) => LogRetrain
    case Known(DisablePredictions) => LogDisable
    case UnknownAction => LogNoOp
  }

  function OutcomeFromAgent(w: WireOutcome, default: LogOutcome): LogOutcome {
    match w
    case Reported(Pending) => LogPending
    case Reported(Success) => LogSuccess
    case Reported(Failed) => LogFailed
    case Reported(Skipped) => LogSkipped
    case Reverted => LogReverted
    case UnknownOutcome => default
  }

  predicate NonTrivial(a: LogAction) { a == LogSwitch || a == LogRollback || a == LogRetrain || a == LogDisable }

  predicate Reversible(a: LogAction) { a == LogSwitch || a == LogRollback || a == LogDisable }

  function Decide(recovered: bool, escalate: bool): Verdict {
    if recovered then Keep else if escalate then Escalate else Revert
  }

  // ---------------------------------------------------------------- the calls

  /** The newest non-terminal incident of a version. */
  function OpenIncident(incidents: seq<Incident>, version: nat): (i: Option<nat>)
    ensures i.Some? ==>
              i.value < |incidents| && incidents[i.value].version == version && !Terminal(incidents[i.value].status) &&
              forall j :: i.value < j < |incidents| && incidents[j].version == version ==> Terminal(incidents[j].status)
    ensures i.None? ==>
              forall j :: 0 <= j < |incidents| && incidents[j].version == version ==> Terminal(incidents[j].status)
  {
    if incidents == [] then None
    else
      var last := incidents[|incidents| - 1];
      if last.version == version && !Terminal(last.status) then Some(|incidents| - 1)
      else OpenIncident(incidents[..|incidents| - 1], version)
  }

  function OpenOrReuse(incidents: seq<Incident>, version: nat, severity: Severity): (seq<Incident>, nat) {
    var found := OpenIncident(incidents, version);
    if found.Some? then (incidents, found.value)
    else (incidents + [Incident(version, Open, severity, None)], |incidents|)
  }

  /** The incidents after an action was posted against one of them. */
  function BeginRecovery(incidents: seq<Incident>, i: nat, action: LogAction, severity: Severity): seq<Incident>
    requires i < |incidents|
  {
    if NonTrivial(action) then incidents[i := incidents[i].(status := Recovering, severity := severity)] else incidents
  }

  function Post(s: Store, version: nat, wire: WireAction, severity: Severity, outcome: WireOutcome): (Store, nat) {
    var action := ActionFromAgent(wire);
    var (incidents, i) := OpenOrReuse(s.incidents, version, severity);
    var log := ActionLog(i, version, action, severity, OutcomeFromAgent(outcome, LogPending), None, Reversible(action));
    (Store(BeginRecovery(incidents, i, action, severity), s.logs + [log], s.verdicts), |s.logs|)
  }

  function ApplyVerdict(x: Incident, v: Verdict, now: int): Incident {
    match v
    case Keep => x.(status := Resolved, closedAt := Some(now))
    case Escalate => x.(status := Escalated, closedAt := Some(now))
    case Revert => x.(status := Recovering, closedAt := None)
  }

  /** A verification as it arrives in a PATCH. */
  datatype Verification = Verification(recovered: bool, escalate: bool)

  function PatchLog(log: ActionLog, outcome: Option<WireOutcome>, now: int): ActionLog {
    if outcome.None? then log
    else log.(outcome := OutcomeFromAgent(outcome.value, log.outcome),
              executedAt := if log.executedAt.None? then Some(now) else log.executedAt)
  }

  ghost predicate WellFormed(s: Store) {
    (forall k :: 0 <= k < |s.logs| ==>
       s.logs[k].incident < |s.incidents| && s.incidents[s.logs[k].incident].version == s.logs[k].version) &&
    (forall k :: k in s.verdicts ==> k < |s.logs|)
  }

  /** Unknown keys change nothing. */
  function Patch(s: Store, pk: nat, outcome: Option<WireOutcome>, v: Option<Verification>, now: int): Store
    requires WellFormed(s)
  {
    if pk >= |s.logs| then s
    else
      var log := s.logs[pk];
      var logs := s.logs[pk := PatchLog(log, outcome, now)];
      if v.None? then s.(logs := logs)
      else
        var decision := Decide(v.value.recovered, v.value.escalate);
        Store(s.incidents[log.incident := ApplyVerdict(s.incidents[log.incident], decision, now)], logs,
              s.verdicts[pk := VerdictRow(v.value.recovered, decision)])
  }

  datatype Call =
    | PostCall(version: nat, action: WireAction, severity: Severity, outcome: WireOutcome)
    | PatchCall(pk: nat, newOutcome: Option<WireOutcome>, verification: Option<Verification>, now: int)

  function Apply(s: Store, c: Call): (r: Store)
    requires WellFormed(s)
    ensures WellFormed(r)
  {
    match c
    case PostCall(v, a, sev, o) => PostWellFormed(s, v, a, sev, o); Post(s, v, a, sev, o).0
    case PatchCall(pk, o, v, now) => PatchWellFormed(s, pk, o, v, now); Patch(s, pk, o, v, now)
  }

  lemma PostWellFormed(s: Store, version: nat, wire: WireAction, severity: Severity, outcome: WireOutcome)
    requires WellFormed(s)
    ensures WellFormed(Post(s, version, wire, severity, outcome).0)
  {
    hide OpenIncident, ActionFromAgent, OutcomeFromAgent;
    var (incidents, i) := OpenOrReuse(s.incidents, version, severity);
    assert i < |incidents| && incidents[i].version == version && s.incidents <= incidents;
  }

  lemma PatchWellFormed(s: Store, pk: nat, outcome: Option<WireOutcome>, v: Option<Verification>, now: int)
    requires WellFormed(s)
    ensures WellFormed(Patch(s, pk, outcome, v, now))
  {
    hide OutcomeFromAgent;
  }

  function ApplyAll(s: Store, cs: seq<Call>): (r: Store)
    requires WellFormed(s)
    ensures WellFormed(r)
  {
    if cs == [] then s else Apply(ApplyAll(s, cs[..|cs| - 1]), cs[|cs| - 1])
  }

  // ---------------------------------------------------------------- the tables

  class IncidentTables {
    var incidents: seq<Incident>
    var logs: seq<ActionLog>
    var verdicts: map<nat, VerdictRow>

    constructor ()
      ensures State() == EMPTY
    {
      incidents, logs, verdicts := [], [], map[];
    }

    function State(): Store
      reads this
    {
      Store(incidents, logs, verdicts)
    }

    method PostAction(version: nat, wire: WireAction, severity: Severity, outcome: WireOutcome) returns (id: nat)
      modifies this
      ensures (State(), id) == Post(old(State()), version, wire, severity, outcome)
    {
      hide ActionFromAgent, OutcomeFromAgent;
      var action := ActionFromAgent(wire);
      var found := OpenIncident(incidents, version);
      var i;
      if found.Some? {
        i := found.value;
      } else {
        i := |incidents|;
        incidents := incidents + [Incident(version, Open, severity, None)];
      }
      id := |logs|;
      logs := logs +
        [ActionLog(i, version, action, severity, OutcomeFromAgent(outcome, LogPending), None, Reversible(action))];
      if NonTrivial(action) {
        incidents := incidents[i := incidents[i].(status := Recovering, severity := severity)];
      }
    }

    method PatchAction(pk: nat, outcome: Option<WireOutcome>, v: Option<Verification>, now: int) returns (found: bool)
      requires WellFormed(State())
      modifies this
      ensures found == (pk < |old(logs)|)
      ensures State() == Patch(old(State()), pk, outcome, v, now)
    {
      hide OutcomeFromAgent;
      if pk >= |logs| { return false; }
      found := true;
      var log := logs[pk];
      if outcome.Some? { log := log.(outcome := OutcomeFromAgent(outcome.value, log.outcome)); }
      if outcome.Some? && log.executedAt.None? { log := log.(executedAt := Some(now)); }
      logs := logs[pk := log];
      if v.Some? {
        var decision := Decide(v.value.recovered, v.value.escalate);
        verdicts := verdicts[pk := VerdictRow(v.value.recovered, decision)];
        incidents := incidents[log.incident := ApplyVerdict(incidents[log.incident], decision, now)];
      }
    }
  }
}
