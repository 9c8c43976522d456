/** The model registry: versions of logical models, one global serving slot, get-or-create on ingestion
    and the switch. Rows stand in the order of their creation, whose instants are taken as distinct; a
    row's index is its primary key. */
module Registry {
  import opened Schemas

  datatype VersionStatus = Candidate | Stable | Active | Deprecated | RolledBack

  datatype Row = Row(model: string, version: string, status: VersionStatus, isActive: bool)

  /** The versions and the singleton pointer. */
  datatype Db = Db(rows: seq<Row>, pointer: Option<nat>)

  // ---------------------------------------------------------------- names

  /** The characters Python strips: Unicode white space and the four ASCII separators. */
  predicate IsSpace(c: char) {
    var u := c as int;
    0x09 <= u <= 0x0D || 0x1C <= u <= 0x20 || u == 0x85 || u == 0xA0 || u == 0x1680 || 0x2000 <= u <= 0x200A ||
    u == 0x2028 || u == 0x2029 || u == 0x202F || u == 0x205F || u == 0x3000
  }

  function TrimLeft(s: string): string {
    if s != "" && IsSpace(s[0]) then TrimLeft(s[1..]) else s
  }

  function TrimRight(s: string): string {
    if s != "" && IsSpace(s[|s| - 1]) then TrimRight(s[..|s| - 1]) else s
  }

  function Strip(s: string): string { TrimRight(TrimLeft(s)) }

  /** Stripping takes away white space from both ends, all of it and nothing else. */
  lemma StripTrims(s: string) returns (i: nat, j: nat)
    ensures i <= j <= |s| && Strip(s) == s[i..j]
    ensures forall k :: 0 <= k < i || j <= k < |s| ==> IsSpace(s[k])
    ensures i < j ==> !IsSpace(s[i]) && !IsSpace(s[j - 1])
  {
    hide IsSpace;
    i := LeftTrims(s);
    var n := RightTrims(s[i..]);
    j := i + n;
    forall k | j <= k < |s| ensures IsSpace(s[k]) { assert s[i..][k - i] == s[k]; }
  }

  lemma {:induction false} LeftTrims(s: string) returns (i: nat)
    ensures i <= |s| && TrimLeft(s) == s[i..] && (forall k :: 0 <= k < i ==> IsSpace(s[k]))
    ensures i < |s| ==> !IsSpace(s[i])
  {
    hide IsSpace;
    if s != "" && IsSpace(s[0]) {
      var n := LeftTrims(s[1..]);
      i := n + 1;
      forall k | 0 <= k < i ensures IsSpace(s[k]) { if k > 0 { assert s[1..][k - 1] == s[k]; } }
    } else {
      i := 0;
    }
  }

  lemma {:induction false} RightTrims(s: string) returns (j: nat)
    ensures j <= |s| && TrimRight(s) == s[..j] && (forall k :: j <= k < |s| ==> IsSpace(s[k]))
    ensures j > 0 ==> !IsSpace(s[j - 1])
  {
    hide IsSpace;
    if s != "" && IsSpace(s[|s| - 1]) { j := RightTrims(s[..|s| - 1]); } else { j := |s|; }
  }

  // ---------------------------------------------------------------- queries

  /** Index of the newest row that satisfies p. */
  function Newest(rows: seq<Row>, p: Row -> bool): (i: Option<nat>)
    ensures i.Some? ==> i.value < |rows| && p(rows[i.value]) && forall j :: i.value < j < |rows| ==> !p(rows[j])
    ensures i.None? ==> forall j :: 0 <= j < |rows| ==> !p(rows[j])
  {
    if rows == [] then None
    else if p(rows[|rows| - 1]) then Some(|rows| - 1)
    else Newest(rows[..|rows| - 1], p)
  }

  predicate Retired(s: VersionStatus) { s == Deprecated || s == RolledBack }

  function OfModel(name: string): Row -> bool { (r: Row) => r.model == name }

  function Exactly(name: string, version: string): Row -> bool { (r: Row) => r.model == name && r.version == version }

  function Usable(name: string): Row -> bool { (r: Row) => r.model == name && !Retired(r.status) }

  /** The version a switch request means: the named one, or the newest that is not retired. */
  function Selected(db: Db, name: string, version: string): Option<nat> {
    Newest(db.rows, if version != "" then Exactly(name, version) else Usable(name))
  }

  // ---------------------------------------------------------------- ingestion

  function Create(db: Db, name: string, version: string): (Db, nat) {
    (db.(rows := db.rows + [Row(name, version, Candidate, false)]), |db.rows|)
  }

  /** Resolve the version an ingestion call means, creating it if need be. An empty version means the
      newest one. */
  function Resolve(db: Db, rawName: string, version: string): (Db, nat) {
    var name := Strip(rawName);
    var found := Newest(db.rows, if version != "" then Exactly(name, version) else OfModel(name));
    if found.Some? then (db, found.value) else Create(db, name, if version != "" then version else "unknown")
  }

  // ---------------------------------------------------------------- the switch, statement by statement

  function Demoted(r: Row): Row { r.(isActive := false, status := Stable) }

  /** Demote every active row except the target. */
  function DemoteOthers(rows: seq<Row>, target: nat): (r: seq<Row>)
    ensures |r| == |rows|
    ensures forall i :: 0 <= i < |rows| ==>
              r[i] == if rows[i].isActive && i != target then Demoted(rows[i]) else rows[i]
  {
    seq(|rows|, i requires 0 <= i < |rows| => if rows[i].isActive && i != target then Demoted(rows[i]) else rows[i])
  }

  function Promote(rows: seq<Row>, target: nat): seq<Row>
    requires target < |rows|
  {
    rows[target := rows[target].(isActive := true, status := Active)]
  }

  function SwitchTo(db: Db, target: nat): Db
    requires target < |db.rows|
  {
    Db(Promote(DemoteOthers(db.rows, target), target), Some(target))
  }

  datatype Reply = Ok(target: nat) | ValidationError | ModelNotFound

  /** A switch request: rejected without a name, not found without a usable version. */
  function PostActive(db: Db, name: string, version: string): (Db, Reply) {
    if name == "" then (db, ValidationError)
    else
      var target := Selected(db, name, version);
      if target.None? then (db, ModelNotFound) else (SwitchTo(db, target.value), Ok(target.value))
  }

  // ---------------------------------------------------------------- what the calls promise

  /** The rows an ingestion may mean: those of the model and, if a version is named, of that version. */
  predicate Meant(r: Row, name: string, version: string) {
    r.model == name && (version == "" || r.version == version)
  }

  /** Ingestion resolves to the newest row it may mean. Only if there is none it adds one, a candidate that is
      not serving, of the named version or of version "unknown". */
  lemma ResolveNewest(db: Db, rawName: string, version: string)
    ensures var (after, id), name := Resolve(db, rawName, version), Strip(rawName);
            if exists k :: 0 <= k < |db.rows| && Meant(db.rows[k], name, version) then
              after == db && id < |db.rows| && Meant(db.rows[id], name, version) &&
              forall k :: id < k < |db.rows| ==> !Meant(db.rows[k], name, version)
            else
              id == |db.rows| && after.pointer == db.pointer &&
              after.rows == db.rows + [Row(name, if version == "" then "unknown" else version, Candidate, false)]
  {
    hide Strip;
    var name := Strip(rawName);
    forall r: Row ensures (if version != "" then Exactly(name, version) else OfModel(name))(r) ==
      Meant(r, name, version)
    {
    }
  }

  /** The row a switch promotes is active and serving, the one that served until then is stable and no longer
      serving, and no other row changes. */
  lemma SwitchMovesSlot(db: Db, target: nat)
    requires target < |db.rows|
    ensures var after := SwitchTo(db, target);
            after.pointer == Some(target) && |after.rows| == |db.rows| &&
            after.rows[target] == Row(db.rows[target].model, db.rows[target].version, Active, true) &&
            forall i :: 0 <= i < |db.rows| && i != target ==>
              after.rows[i] == if db.rows[i].isActive then Row(db.rows[i].model, db.rows[i].version, Stable, false)
                               else db.rows[i]
  {
  }

  /** A request without a name is rejected. One that names a version promotes that version, whatever its
      status, and is not found exactly if there is none. Whatever is not promoted leaves the database as it
      was. */
  lemma SwitchToNamed(db: Db, name: string, version: string)
    ensures var (after, reply) := PostActive(db, name, version);
            (reply == ValidationError <==> name == "") &&
            (!reply.Ok? ==> after == db) &&
            (name != "" && version != "" ==>
               (reply == ModelNotFound <==>
                  forall k :: 0 <= k < |db.rows| ==> db.rows[k].model != name || db.rows[k].version != version)) &&
            (reply.Ok? ==> reply.target < |db.rows| && db.rows[reply.target].model == name &&
                           (version != "" ==> db.rows[reply.target].version == version) &&
                           after == SwitchTo(db, reply.target))
  {
    hide SwitchTo;
    if name != "" && version != "" {
      var t := Newest(db.rows, Exactly(name, version));
      forall k | 0 <= k < |db.rows| ensures t.None? ==> db.rows[k].model != name || db.rows[k].version != version {
        if t.None? { assert !Exactly(name, version)(db.rows[k]); }
      }
    }
  }

  // ---------------------------------------------------------------- invariants

  ghost predicate Unique(rows: seq<Row>) {
    forall i, j :: 0 <= i < j < |rows| ==> rows[i].model != rows[j].model || rows[i].version != rows[j].version
  }

  /** The database constraint on the serving slot. */
  ghost predicate AtMostOneActive(rows: seq<Row>) {
    forall i, j :: 0 <= i < j < |rows| ==> !(rows[i].isActive && rows[j].isActive)
  }

  /** The active-model row names the one active version, and there is none before the first switch. */
  ghost predicate PointerAgrees(db: Db) {
    match db.pointer
    case None => forall i :: 0 <= i < |db.rows| ==> !db.rows[i].isActive
    case Some(p) => p < |db.rows| && forall i :: 0 <= i < |db.rows| ==> (db.rows[i].isActive <==> i == p)
  }

  ghost predicate Consistent(db: Db) {
    Unique(db.rows) && PointerAgrees(db)
  }

  /** The ACTIVE status and the serving flag are two views of one fact. */
  ghost predicate StatusAgrees(db: Db) {
    forall i :: 0 <= i < |db.rows| ==> (db.rows[i].isActive <==> db.rows[i].status == Active)
  }

  /** Between its statements the switch never has two active rows, whatever it starts from in a
      consistent database; in the other order it would, as soon as another row is active. */
  lemma SwitchNeverTwoActive(db: Db, target: nat)
    requires Consistent(db) && target < |db.rows|
    ensures AtMostOneActive(db.rows)
    ensures AtMostOneActive(DemoteOthers(db.rows, target))
    ensures AtMostOneActive(Promote(DemoteOthers(db.rows, target), target))
    ensures AtMostOneActive(Promote(db.rows, target)) <==> db.pointer == None || db.pointer == Some(target)
  {
    var p := Promote(db.rows, target);
    if db.pointer.Some? && db.pointer.value != target {
      assert p[db.pointer.value].isActive && p[target].isActive;
    }
  }

  lemma SwitchKeepsConsistent(db: Db, target: nat)
    requires Consistent(db) && target < |db.rows|
    ensures Consistent(SwitchTo(db, target)) && SwitchTo(db, target).pointer == Some(target)
    ensures forall i :: 0 <= i < |db.rows| ==>
              SwitchTo(db, target).rows[i].model == db.rows[i].model &&
                SwitchTo(db, target).rows[i].version == db.rows[i].version
  {
  }

  lemma ResolveKeepsConsistent(db: Db, rawName: string, version: string)
    requires Consistent(db)
    ensures var (after, id) := Resolve(db, rawName, version);
            Consistent(after) && after.pointer == db.pointer &&
            db.rows <= after.rows && |after.rows| <= |db.rows| + 1 &&
            id < |after.rows| && after.rows[id].model == Strip(rawName) &&
            (version != "" ==> after.rows[id].version == version)
  {
    hide Strip;
  }

  lemma PostActiveKeepsConsistent(db: Db, name: string, version: string)
    requires Consistent(db)
    ensures Consistent(PostActive(db, name, version).0)
    ensures db.pointer.Some? ==> PostActive(db, name, version).0.pointer.Some?
  {
    hide SwitchTo;
    var target := Selected(db, name, version);
    if name != "" && target.Some? { SwitchKeepsConsistent(db, target.value); }
  }

  /** Without a named version a switch promotes the newest version of the model that is not retired, and
      fails exactly when there is none. */
  lemma AutoSelection(db: Db, name: string)
    requires name != ""
    ensures match PostActive(db, name, "").1
            case Ok(t) => t < |db.rows| && db.rows[t].model == name && !Retired(db.rows[t].status) &&
                          forall j :: t < j < |db.rows| && db.rows[j].model == name ==> Retired(db.rows[j].status)
            case ModelNotFound => forall j :: 0 <= j < |db.rows| && db.rows[j].model == name ==>
              Retired(db.rows[j].status)
            case ValidationError => false
  {
    hide SwitchTo;
    var t := Newest(db.rows, Usable(name));
    assert t.Some? ==> Usable(name)(db.rows[t.value]);
    forall j | (if t.Some? then t.value else -1) < j < |db.rows| && db.rows[j].model == name
      ensures Retired(db.rows[j].status)
    {
      assert !Usable(name)(db.rows[j]);
    }
  }

  /** The documentation promises the most recent version. That one is promoted exactly if it is not
      retired. */
  lemma MostRecentIffUsable(db: Db, name: string)
    requires name != "" && Newest(db.rows, OfModel(name)).Some?
    ensures var p := Newest(db.rows, OfModel(name)).value;
            PostActive(db, name, "").1 == Ok(p) <==> !Retired(db.rows[p].status)
  {
    hide SwitchTo;
    var p, t := Newest(db.rows, OfModel(name)).value, Newest(db.rows, Usable(name));
    assert OfModel(name)(db.rows[p]);
    assert Usable(name)(db.rows[p]) <==> !Retired(db.rows[p].status);
    forall j | p < j < |db.rows| ensures !Usable(name)(db.rows[j]) { assert !OfModel(name)(db.rows[j]); }
    assert t.Some? ==> Usable(name)(db.rows[t.value]);
  }

  function RolledBackRelease(): Db {
    Db([Row("model_a", "1", Stable, false), Row("model_a", "2", RolledBack, false)], None)
  }

  /** Version 2 is the most recent, but was rolled back: a switch to the model promotes version 1. */
  lemma MostRecentMayBePassedOver()
    ensures Newest(RolledBackRelease().rows, OfModel("model_a")) == Some(1)
    ensures PostActive(RolledBackRelease(), "model_a", "").1 == Ok(0)
  {
    hide SwitchTo;
    var rows := RolledBackRelease().rows;
    var t := Newest(rows, Usable("model_a"));
    assert OfModel("model_a")(rows[1]) && Usable("model_a")(rows[0]) && !Usable("model_a")(rows[1]);
    assert t == Some(0);
  }

  // ---------------------------------------------------------------- all runs of the registry

  datatype Op = Ingest(name: string, version: string) | Switch(name: string, version: string)

  function Apply(db: Db, op: Op): Db {
    match op
    case Ingest(n, v) => Resolve(db, n, v).0
    case Switch(n, v) => PostActive(db, n, v).0
  }

  function ApplyAll(db: Db, ops: seq<Op>): Db {
    if ops == [] then db else Apply(ApplyAll(db, ops[..|ops| - 1]), ops[|ops| - 1])
  }

  /** After any sequence of ingestions and switches the constraints hold, and once a switch has succeeded
      there is always exactly one active version, the pointer's; ingestion never moves it. */
  lemma {:induction false} RegistryInvariant(db: Db, ops: seq<Op>)
    requires Consistent(db)
    ensures Consistent(ApplyAll(db, ops)) && AtMostOneActive(ApplyAll(db, ops).rows)
    ensures db.pointer.Some? ==> ApplyAll(db, ops).pointer.Some?
    ensures (forall op :: op in ops ==> op.Ingest?) ==>
              ApplyAll(db, ops).pointer == db.pointer && db.rows <= ApplyAll(db, ops).rows
  {
    hide Resolve, PostActive;
    if ops != [] {
      var most, op := ops[..|ops| - 1], ops[|ops| - 1];
      RegistryInvariant(db, most);
      var mid := ApplyAll(db, most);
      assert op in ops && forall o :: o in most ==> o in ops;
      match op {
        case Ingest(n, v) => ResolveKeepsConsistent(mid, n, v);
        case Switch(n, v) => PostActiveKeepsConsistent(mid, n, v);
      }
    }
  }

  lemma StatusStep(db: Db, op: Op)
    requires StatusAgrees(db)
    ensures StatusAgrees(Apply(db, op))
  {
    hide Strip, Newest;
    match op {
      case Ingest(n, v) =>
      case Switch(n, v) =>
        hide SwitchTo;
        var t := Selected(db, n, v);
        if n != "" && t.Some? { StatusAfterSwitch(db, t.value); }
    }
  }

  lemma StatusAfterSwitch(db: Db, target: nat)
    requires StatusAgrees(db) && target < |db.rows|
    ensures StatusAgrees(SwitchTo(db, target))
  {
  }

  /** Calls that only ingest and switch never let status and flag drift apart. */
  lemma {:induction false} StatusInvariant(db: Db, ops: seq<Op>)
    requires StatusAgrees(db)
    ensures StatusAgrees(ApplyAll(db, ops))
  {
    hide Apply;
    if ops != [] {
      StatusInvariant(db, ops[..|ops| - 1]);
      StatusStep(ApplyAll(db, ops[..|ops| - 1]), ops[|ops| - 1]);
    }
  }

  /** Without a named version, switching to the model of row p lands on row p exactly when no newer
      version of that model is usable. */
  lemma SwitchLandsOn(db: Db, name: string, p: nat)
    requires name != "" && p < |db.rows| && db.rows[p].model == name && !Retired(db.rows[p].status)
    ensures PostActive(db, name, "").0.pointer == Some(p) <==>
            forall j :: p < j < |db.rows| && db.rows[j].model == name ==> Retired(db.rows[j].status)
  {
    var t := Newest(db.rows, Usable(name));
    assert Usable(name)(db.rows[p]);
    assert Usable(name)(db.rows[t.value]);
    if t.value == p {
      forall j | p < j < |db.rows| && db.rows[j].model == name ensures Retired(db.rows[j].status) {
        assert !Usable(name)(db.rows[j]);
      }
    }
  }

  function TwoModels(): Db {
    Db([Row("model_a", "1", Active, true), Row("model_b", "1", Stable, false)], Some(0))
  }

  function FailedOver(): Db {
    Db([Row("model_a", "1", Stable, false), Row("model_b", "1", Active, true)], Some(1))
  }

  lemma StripName()
    ensures Strip("model_a") == "model_a"
  {
  }

  lemma AfterFailover()
    ensures PostActive(TwoModels(), "model_b", "").0 == FailedOver()
    ensures Resolve(FailedOver(), "model_a", "2").0 == Create(FailedOver(), "model_a", "2").0
  {
    hide Strip;
    var t := Newest(TwoModels().rows, Usable("model_b"));
    assert Usable("model_b")(TwoModels().rows[1]) && !Usable("model_b")(TwoModels().rows[0]);
    assert t == Some(1);
    assert PostActive(TwoModels(), "model_b", "").0.rows == FailedOver().rows;
    StripName();
    var f := Newest(FailedOver().rows, Exactly("model_a", "2"));
    assert !Exactly("model_a", "2")(FailedOver().rows[0]) && !Exactly("model_a", "2")(FailedOver().rows[1]);
  }

  /** Fail over to the other model, ingest metrics of a new version of the first, switch back: the slot
      goes to the version that has never served, not to the one that was serving. */
  lemma SwitchBackMayPromoteNewVersion()
    ensures Consistent(TwoModels()) && StatusAgrees(TwoModels())
    ensures var mid := Resolve(PostActive(TwoModels(), "model_b", "").0, "model_a", "2").0;
            PostActive(mid, "model_a", "").0.pointer == Some(2) && mid.rows[2] == Row("model_a", "2", Candidate, false)
  {
    AfterFailover();
    var mid := Create(FailedOver(), "model_a", "2").0;
    SwitchLandsOn(mid, "model_a", 2);
  }

  // ---------------------------------------------------------------- the tables

  class RegistryTables {
    var rows: seq<Row>
    var pointer: Option<nat>

    constructor ()
      ensures State() == Db([], None)
    {
      rows, pointer := [], None;
    }

    function State(): Db
      reads this
    {
      Db(rows, pointer)
    }

    method ResolveVersion(rawName: string, version: string) returns (id: nat)
      modifies this
      ensures (State(), id) == Resolve(old(State()), rawName, version)
    {
      var name := Strip(rawName);
      var found := Newest(rows, if version != "" then Exactly(name, version) else OfModel(name));
      if found.Some? { return found.value; }
      id := |rows|;
      rows := rows + [Row(name, if version != "" then version else "unknown", Candidate, false)];
    }

    /** The bulk update, the promotion and the pointer, in that order. */
    method SwitchActive(target: nat)
      requires target < |rows|
      modifies this
      ensures State() == SwitchTo(old(State()), target)
    {
      for i := 0 to |rows|
        invariant |rows| == |old(rows)| && pointer == old(pointer)
        invariant forall k :: 0 <= k < |rows| ==>
                    rows[k] == if k < i then DemoteOthers(old(rows), target)[k] else old(rows)[k]
      {
        if rows[i].isActive && i != target { rows := rows[i := Demoted(rows[i])]; }
      }
      assert rows == DemoteOthers(old(rows), target);
      rows := rows[target := rows[target].(isActive := true, status := Active)];
      pointer := Some(target);
    }

    method PostActiveModel(name: string, version: string) returns (reply: Reply)
      modifies this
      ensures (State(), reply) == PostActive(old(State()), name, version)
    {
      hide SwitchTo;
      if name == "" { return ValidationError; }
      var target := Newest(rows, if version != "" then Exactly(name, version) else Usable(name));
      if target.None? { return ModelNotFound; }
      SwitchActive(target.value);
      reply := Ok(target.value);
    }
  }
}
