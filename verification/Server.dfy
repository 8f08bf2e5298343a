/** The handlers over the tables (crates/api/src/objects.rs, members.rs, types.rs): what each request does to
    the database as a function of the tables, and the same handlers statement by statement on a database
    that updates in place. Each request is one atomic step here; see module Interleaving for writes that
    are not. */
module Server {
  import opened Prelude
  import opened Json
  import opened Registry
  import opened Objects
  import opened FieldPerms
  import opened Rbac
  import opened Gate
  import opened Types
  import opened Workflow
  import opened Cases
  import Members

  /** The data and version columns of `entity_data`; its `scope_parent_id` column is `access.parents`. */
  datatype Row = Row(data: Record, version: int)

  /** All tables a handler touches. `minted` holds every id ever handed out: ids are random, and minting
      one twice is taken not to happen. */
  datatype Db = Db(
    access: Access,
    rows: map<Id, Row>,
    registry: TypeCache,
    perms: Overrides,
    workflows: Workflows,
    mirror: map<Id, CaseRow>,
    checks: Checks,
    minted: set<Id>)

  const CASE := "case"

  datatype IfMatch = Absent | Unparseable | Tag(version: int)
  datatype Verb = Put | Patch

  datatype Request =
    | RegisterType(spec: TypeSpec)
    | CreateObject(typeId: string, payload: Record, id: Id)
    | Write(verb: Verb, typeId: string, id: Id, ifMatch: IfMatch, payload: Record)
    | DeleteObject(typeId: string, id: Id, ifMatch: IfMatch)
    | Grant(typeId: string, id: Id, member: Id, role: string)
    | ChangeRole(typeId: string, id: Id, member: Id, role: string)
    | Revoke(typeId: string, id: Id, member: Id)
    | RecordCheck(typeId: string, id: Id, name: string, passed: bool)

  /** The tables after a request, and its answer. */
  datatype Reply = Reply(db: Db, result: Result<()>)

  predicate RowExists(db: Db, id: Id, typeId: string) {
    id in db.rows && id in db.access.types && db.access.types[id] == typeId
  }

  // ---- PUT and PATCH ------------------------------------------------------------------

  /** A write between its SELECT and its UPDATE. `baseVersion` is the version of the row that was read; the
      handler does not read it, only these statements about it do. */
  datatype Pending = Pending(
    id: Id, typeId: string, verb: Verb, payload: Record, expected: int,
    base: Record, baseVersion: int, data: Record, parent: Option<Id>)

  function Applied(td: TypeDef, verb: Verb, existing: Record, payload: Record): Record {
    match verb
    case Put => PutData(td, existing, payload)
    case Patch => PatchData(existing, payload)
  }

  /** The gates before the payload is looked at: type, object gate, row, If-Match. */
  function Admit(db: Db, caller: Caller, typeId: string, id: Id, ifMatch: IfMatch): (r: Result<int>)
    ensures r.Ok? ==> typeId in db.registry && RowExists(db, id, typeId) && ifMatch == Tag(r.value)
    ensures r.Ok? ==> caller.admin || (var rank := EffectiveRank(db.access, caller.actor, id); rank.Some? && rank.value >= 2)
    ensures r == Err(NotFound) || r == Err(PreconditionRequired) || r == Err(PreconditionFailed) || r.Ok?
  {
    if typeId !in db.registry then Err(NotFound)
    else if !RequireAction(db.access, caller, db.registry[typeId], Some(id), Edit) then Err(NotFound)
    else if !RowExists(db, id, typeId) then Err(NotFound)
    else match ifMatch
      case Absent => Err(PreconditionRequired)
      case Unparseable => Err(PreconditionFailed)
      case Tag(expected) => Ok(expected)
  }

  /** The new record, or why the payload is refused: input check, final check, field gate, case gate. */
  function Assemble(db: Db, caller: Caller, verb: Verb, typeId: string, id: Id, payload: Record): Result<Record>
    requires typeId in db.registry && id in db.rows
  {
    var td, base := db.registry[typeId], db.rows[id].data;
    if !InputOk(td, payload, false) then Err(BadRequest)
    else
      var data := Applied(td, verb, base, payload);
      if !FinalOk(td, data) then Err(Unprocessable)
      else if !WritesAllowed(db.access.roles, db.perms, td, RankOn(db.access, caller, id), payload.Keys) then
        Err(FieldForbidden)
      else if typeId == CASE then
        match ValidateCaseChange(db.workflows, db.checks, id, data, StrAt(base, "status"))
        case Err(e) => Err(e)
        case Ok(_) => Ok(data)
      else Ok(data)
  }

  /** Everything up to the UPDATE, on one reading of the tables. */
  function Prepare(db: Db, caller: Caller, verb: Verb, typeId: string, id: Id, ifMatch: IfMatch, payload: Record): Result<Pending> {
    match Admit(db, caller, typeId, id, ifMatch)
    case Err(e) => Err(e)
    case Ok(expected) =>
      match Assemble(db, caller, verb, typeId, id, payload)
      case Err(e) => Err(e)
      case Ok(data) =>
        Ok(Pending(id, typeId, verb, payload, expected, db.rows[id].data, db.rows[id].version, data,
                   ScopeParent(db.registry[typeId], data)))
  }

  /** `update entity_data ... where version = $5`: no row is a failed precondition; the parent is a
      foreign key. */
  function Update(db: Db, p: Pending): Result<Db> {
    if !(RowExists(db, p.id, p.typeId) && db.rows[p.id].version == p.expected) then Err(PreconditionFailed)
    else if p.expected >= MAX_I32 then Err(Internal)
    else if p.parent.Some? && p.parent.value !in db.access.types then Err(Unprocessable)
    else Ok(db.(
      rows := db.rows[p.id := Row(p.data, p.expected + 1)],
      access := db.access.(parents := db.access.parents[p.id := p.parent])))
  }

  predicate MirrorKeysExist(db: Db, id: Id, row: CaseRow) {
    && id in db.access.types
    && row.workflowId in db.workflows
    && (row.assignee.Some? ==> row.assignee.value in db.access.types)
    && (row.project.Some? ==> row.project.value in db.access.types)
  }

  /** The mirror upsert: the trigger runs if the row is there, then the foreign keys are checked. */
  ghost function SyncMirror(db: Db, id: Id, data: Record, version: int): Result<Db> {
    var row := MirrorOf(data, version);
    if id in db.mirror && GuardRaises(db.workflows, db.checks, id, db.mirror[id].status, row) then Err(ClosePreconditionsUnmet)
    else if !MirrorKeysExist(db, id, row) then Err(Unprocessable)
    else Ok(db.(mirror := db.mirror[id := row]))
  }

  /** The UPDATE and, for a case, the mirror upsert after it. They do not share a transaction: when the
      upsert fails the row stays written. */
  ghost function Finish(db: Db, p: Pending): Reply {
    match Update(db, p)
    case Err(e) => Reply(db, Err(e))
    case Ok(updated) =>
      if p.typeId != CASE then Reply(updated, Ok(()))
      else match SyncMirror(updated, p.id, p.data, p.expected + 1)
        case Err(e) => Reply(updated, Err(e))
        case Ok(synced) => Reply(synced, Ok(()))
  }

  ghost function ItemWrite(db: Db, caller: Caller, verb: Verb, typeId: string, id: Id, ifMatch: IfMatch, payload: Record): Reply {
    match Prepare(db, caller, verb, typeId, id, ifMatch, payload)
    case Err(e) => Reply(db, Err(e))
    case Ok(p) => Finish(db, p)
  }

  // ---- create and delete ---------------------------------------------------------------

  function InsertRow(db: Db, id: Id, typeId: string, data: Record, parent: Option<Id>, creator: Id): Db {
    db.(
      access := Members.InsertEntity(db.access, id, typeId, parent, creator),
      rows := db.rows[id := Row(data, 1)],
      minted := db.minted + {id})
  }

  /** What a create inserts. */
  datatype NewRow = NewRow(data: Record, parent: Option<Id>)

  /** POST, up to its transaction. */
  function PrepareCreate(db: Db, caller: Caller, typeId: string, payload: Record): Result<NewRow> {
    if typeId !in db.registry then Err(NotFound)
    else
      var td := db.registry[typeId];
      if !InputOk(td, payload, true) then Err(BadRequest)
      else
        var data := CreateData(td, payload);
        var parent := ScopeParent(td, data);
        if !FinalOk(td, data) then Err(Unprocessable)
        else
          var gate := if typeId == CASE then Validate(db.workflows, WorkflowIdOf(data), None, StatusOf(data)) else Ok(());
          if gate.Err? then Err(gate.error)
          else if parent.None? && td.scopeParents != [] && td.ScopeParentRequired() then Err(Unprocessable)
          else if !RequireAction(db.access, caller, td, parent, Gate.Create) then Err(NotFound)
          else Ok(NewRow(data, parent))
  }

  /** The transaction of a create: a failed insert leaves nothing. */
  ghost function InsertAll(db: Db, creator: Id, typeId: string, row: NewRow, id: Id): Reply {
    if id in db.minted then Reply(db, Err(Conflict))
    else if (row.parent.Some? && row.parent.value !in db.access.types) || creator !in db.access.types then
      Reply(db, Err(Unprocessable))
    else
      var inserted := InsertRow(db, id, typeId, row.data, row.parent, creator);
      if typeId != CASE then Reply(inserted, Ok(()))
      else match SyncMirror(inserted, id, row.data, 1)
        case Err(e) => Reply(db, Err(e))
        case Ok(synced) => Reply(synced, Ok(()))
  }

  ghost function CollCreate(db: Db, caller: Caller, typeId: string, payload: Record, id: Id): Reply {
    match PrepareCreate(db, caller, typeId, payload)
    case Err(e) => Reply(db, Err(e))
    case Ok(row) => InsertAll(db, caller.actor, typeId, row, id)
  }

  function Without(o: Option<Id>, id: Id): Option<Id> {
    if o == Some(id) then None else o
  }

  /** The delete and its cascades. */
  function RemoveRow(db: Db, id: Id): Db {
    db.(
      access := Members.DeleteEntity(db.access, id),
      rows := db.rows - {id},
      mirror := map c | c in db.mirror && c != id ::
        db.mirror[c].(assignee := Without(db.mirror[c].assignee, id), project := Without(db.mirror[c].project, id)),
      checks := map k | k in db.checks && k.0 != id :: db.checks[k])
  }

  function ItemDelete(db: Db, caller: Caller, typeId: string, id: Id, ifMatch: IfMatch): Reply {
    if typeId !in db.registry then Reply(db, Err(NotFound))
    else if !RequireAction(db.access, caller, db.registry[typeId], Some(id), Gate.Delete) then Reply(db, Err(NotFound))
    else if !RowExists(db, id, typeId) then Reply(db, Err(NotFound))
    else match ifMatch
      case Absent => Reply(db, Err(PreconditionRequired))
      case Unparseable => Reply(db, Err(PreconditionFailed))
      case Tag(expected) =>
        if db.rows[id].version != expected then Reply(db, Err(PreconditionFailed))
        else Reply(RemoveRow(db, id), Ok(()))
  }

  // ---- the other requests ------------------------------------------------------------------

  function WithAccess(db: Db, r: Result<Access>): Reply {
    match r
    case Err(e) => Reply(db, Err(e))
    case Ok(access) => Reply(db.(access := access), Ok(()))
  }

  function SetCheck(db: Db, caller: Caller, typeId: string, id: Id, name: string, passed: bool): Reply {
    if typeId != CASE || !Members.ObjectExists(db.access, id, typeId) then Reply(db, Err(NotFound))
    else match Members.RequireRank(db.access, caller, id, Members.MANAGE_RANK)
      case Err(e) => Reply(db, Err(e))
      case Ok(_) =>
        if id !in db.mirror then Reply(db, Err(Unprocessable))
        else Reply(db.(checks := db.checks[(id, name) := passed]), Ok(()))
  }

  function CreateType(db: Db, caller: Caller, spec: TypeSpec): Reply {
    if !caller.admin then Reply(db, Err(Forbidden))
    else match SpecVerdict(spec, db.registry)
      case Err(e) => Reply(db, Err(e))
      case Ok(_) => Reply(db.(registry := db.registry[spec.typeId := TypeOf(spec)]), Ok(()))
  }

  ghost function Handle(db: Db, caller: Caller, req: Request): Reply {
    match req
    case RegisterType(spec) => CreateType(db, caller, spec)
    case CreateObject(typeId, payload, id) => CollCreate(db, caller, typeId, payload, id)
    case Write(verb, typeId, id, ifMatch, payload) => ItemWrite(db, caller, verb, typeId, id, ifMatch, payload)
    case DeleteObject(typeId, id, ifMatch) => ItemDelete(db, caller, typeId, id, ifMatch)
    case Grant(typeId, id, member, role) => WithAccess(db, Members.AddMember(db.access, caller, typeId, id, member, role))
    case ChangeRole(typeId, id, member, role) => WithAccess(db, Members.SetMember(db.access, caller, typeId, id, member, role))
    case Revoke(typeId, id, member) => WithAccess(db, Members.RemoveMember(db.access, caller, typeId, id, member))
    case RecordCheck(typeId, id, name, passed) => SetCheck(db, caller, typeId, id, name, passed)
  }

  datatype Step = Step(caller: Caller, request: Request)

  /** The tables after a sequence of requests. */
  ghost function Run(db: Db, steps: seq<Step>): Db {
    if steps == [] then db
    else
      var last := steps[|steps| - 1];
      Handle(Run(db, steps[..|steps| - 1]), last.caller, last.request).db
  }

  // ---- the handlers in place ---------------------------------------------------------------

  class Database {
    var types: map<Id, string>
    var parents: map<Id, Option<Id>>
    var members: map<(Id, Id), string>
    var roles: map<string, int>
    var rows: map<Id, Row>
    var registry: TypeCache
    var perms: Overrides
    var workflows: Workflows
    var mirror: map<Id, CaseRow>
    var checks: Checks
    var minted: set<Id>

    function AccessTables(): Access
      reads this
    {
      Access(types, parents, members, roles)
    }

    ghost function Tables(): Db
      reads this
    {
      Db(AccessTables(), rows, registry, perms, workflows, mirror, checks, minted)
    }

    /** The tables and the answer are those of the specification. */
    ghost predicate Did(r: Result<()>, reply: Reply)
      reads this
    {
      Tables() == reply.db && r == reply.result
    }

    /** `type_fields` has the primary key (type_id, field). */
    ghost predicate FieldsAreKeyed()
      reads this
    {
      forall t | t in registry :: DistinctFields(registry[t].fields)
    }

    method AddMember(caller: Caller, typeId: string, id: Id, member: Id, role: string) returns (r: Result<()>)
      modifies this
      ensures Did(r, Handle(old(Tables()), caller, Grant(typeId, id, member, role)))
    {
      if !Members.ObjectExists(AccessTables(), id, typeId) { return Err(NotFound); }
      var rank := Members.RequireRank(AccessTables(), caller, id, Members.MANAGE_RANK);
      if rank.Err? { return Err(rank.error); }
      var target := RankOf(AccessTables(), role);
      if target.None? { return Err(Unprocessable); }
      if target.value > rank.value { return Err(Forbidden); }
      if PrincipalsContain(AccessTables(), id, member) { return Err(Conflict); }
      if member !in types { return Err(Unprocessable); }
      members := members[(id, member) := role];
      return Ok(());
    }

    method SetMember(caller: Caller, typeId: string, id: Id, member: Id, role: string) returns (r: Result<()>)
      modifies this
      ensures Did(r, Handle(old(Tables()), caller, ChangeRole(typeId, id, member, role)))
    {
      if !Members.ObjectExists(AccessTables(), id, typeId) { return Err(NotFound); }
      var rank := Members.RequireRank(AccessTables(), caller, id, Members.MANAGE_RANK);
      if rank.Err? { return Err(rank.error); }
      var target := RankOf(AccessTables(), role);
      if target.None? { return Err(Unprocessable); }
      if target.value > rank.value { return Err(Forbidden); }
      if (id, member) !in members { return Err(NotFound); }
      var current := members[(id, member)];
      if current == Members.OWNER && role != Members.OWNER && |Members.Owners(AccessTables(), id)| <= 1 {
        return Err(Conflict);
      }
      members := members[(id, member) := role];
      return Ok(());
    }

    method RemoveMember(caller: Caller, typeId: string, id: Id, member: Id) returns (r: Result<()>)
      modifies this
      ensures Did(r, Handle(old(Tables()), caller, Revoke(typeId, id, member)))
    {
      if !Members.ObjectExists(AccessTables(), id, typeId) { return Err(NotFound); }
      if (id, member) !in members { return Err(NotFound); }
      var current := members[(id, member)];
      if member != caller.actor {
        var rank := Members.RequireRank(AccessTables(), caller, id, Members.MANAGE_RANK);
        if rank.Err? { return Err(rank.error); }
      }
      if current == Members.OWNER && |Members.Owners(AccessTables(), id)| <= 1 {
        return Err(Conflict);
      }
      members := members - {(id, member)};
      return Ok(());
    }

    method SetCloseCheck(caller: Caller, typeId: string, id: Id, name: string, passed: bool) returns (r: Result<()>)
      modifies this
      ensures Did(r, Handle(old(Tables()), caller, RecordCheck(typeId, id, name, passed)))
    {
      if typeId != CASE { return Err(NotFound); }
      if !Members.ObjectExists(AccessTables(), id, typeId) { return Err(NotFound); }
      var rank := Members.RequireRank(AccessTables(), caller, id, Members.MANAGE_RANK);
      if rank.Err? { return Err(rank.error); }
      if id !in mirror { return Err(Unprocessable); }
      checks := checks[(id, name) := passed];
      return Ok(());
    }

    method Register(caller: Caller, spec: TypeSpec) returns (r: Result<()>)
      modifies this
      ensures Did(r, Handle(old(Tables()), caller, RegisterType(spec)))
    {
      if !caller.admin { return Err(Forbidden); }
      var verdict := ValidateSpec(spec, registry);
      if verdict.Err? { return Err(verdict.error); }
      registry := registry[spec.typeId := TypeOf(spec)];
      return Ok(());
    }

    /** The upsert with its trigger; on failure nothing of this statement stays. */
    method UpsertCaseMirror(id: Id, data: Record, version: int) returns (r: Result<()>)
      modifies this`mirror
      ensures match SyncMirror(old(Tables()), id, data, version)
        case Ok(synced) => r == Ok(()) && Tables() == synced
        case Err(e) => r == Err(e) && Tables() == old(Tables())
    {
      var row := MirrorOf(data, version);
      if id in mirror {
        var guarded := CasesGuard(workflows, checks, id, mirror[id], row);
        if guarded.Err? { return Err(guarded.error); }
      }
      if id !in types || row.workflowId !in workflows
         || (row.assignee.Some? && row.assignee.value !in types)
         || (row.project.Some? && row.project.value !in types)
      {
        return Err(Unprocessable);
      }
      mirror := mirror[id := row];
      return Ok(());
    }

    method AssembleData(caller: Caller, verb: Verb, typeId: string, id: Id, payload: Record) returns (r: Result<Record>)
      requires FieldsAreKeyed() && typeId in registry && id in rows
      ensures r == Assemble(Tables(), caller, verb, typeId, id, payload)
    {
      var td := registry[typeId];
      var existing := rows[id].data;
      if !InputOk(td, payload, false) { return Err(BadRequest); }
      var oldStatus := StrAt(existing, "status");
      var data := NewData(td, verb, existing, payload);
      if !FinalOk(td, data) { return Err(Unprocessable); }
      var written := KeysOf(payload);
      var barred := RequireWrite(roles, perms, td, RankOn(AccessTables(), caller, id), written);
      if barred.Some? { return Err(FieldForbidden); }
      if typeId == CASE {
        var gate := CheckCaseChange(id, data, oldStatus);
        if gate.Err? { return Err(gate.error); }
      }
      return Ok(data);
    }

    /** PUT and PATCH up to the UPDATE. */
    method PrepareWrite(caller: Caller, verb: Verb, typeId: string, id: Id, ifMatch: IfMatch, payload: Record)
      returns (r: Result<Pending>)
      requires FieldsAreKeyed()
      ensures r == Prepare(Tables(), caller, verb, typeId, id, ifMatch, payload)
    {
      if typeId !in registry { return Err(NotFound); }
      if !RequireAction(AccessTables(), caller, registry[typeId], Some(id), Edit) { return Err(NotFound); }
      if !(id in rows && id in types && types[id] == typeId) { return Err(NotFound); }
      if ifMatch.Absent? { return Err(PreconditionRequired); }
      if ifMatch.Unparseable? { return Err(PreconditionFailed); }
      var data := AssembleData(caller, verb, typeId, id, payload);
      if data.Err? { return Err(data.error); }
      return Ok(Pending(id, typeId, verb, payload, ifMatch.version, rows[id].data, rows[id].version, data.value,
                        ScopeParent(registry[typeId], data.value)));
    }

    method StoreUpdate(p: Pending) returns (r: Result<()>)
      modifies this`rows, this`parents
      ensures match Update(old(Tables()), p)
        case Ok(updated) => r == Ok(()) && Tables() == updated
        case Err(e) => r == Err(e) && Tables() == old(Tables())
    {
      if !(p.id in rows && p.id in types && types[p.id] == p.typeId && rows[p.id].version == p.expected) {
        return Err(PreconditionFailed);
      }
      if p.expected >= MAX_I32 { return Err(Internal); }
      if p.parent.Some? && p.parent.value !in types { return Err(Unprocessable); }
      rows := rows[p.id := Row(p.data, p.expected + 1)];
      parents := parents[p.id := p.parent];
      return Ok(());
    }

    method ItemPutOrPatch(caller: Caller, verb: Verb, typeId: string, id: Id, ifMatch: IfMatch, payload: Record) returns (r: Result<()>)
      requires FieldsAreKeyed()
      modifies this
      ensures Did(r, Handle(old(Tables()), caller, Write(verb, typeId, id, ifMatch, payload)))
    {
      var prepared := PrepareWrite(caller, verb, typeId, id, ifMatch, payload);
      if prepared.Err? { return Err(prepared.error); }
      r := FinishWrite(prepared.value);
    }

    /** The UPDATE and, for a case, the mirror upsert after it, each its own statement. */
    method FinishWrite(p: Pending) returns (r: Result<()>)
      modifies this
      ensures Did(r, Finish(old(Tables()), p))
    {
      r := StoreUpdate(p);
      if r.Ok? && p.typeId == CASE {
        r := UpsertCaseMirror(p.id, p.data, p.expected + 1);
      }
    }

    method CheckCaseChange(id: Id, data: Record, oldStatus: Option<string>) returns (r: Result<()>)
      ensures r == ValidateCaseChange(workflows, checks, id, data, oldStatus)
    {
      var wfId, newStatus := WorkflowIdOf(data), StatusOf(data);
      var legal := Validate(workflows, wfId, oldStatus, newStatus);
      if legal.Err? { return legal; }
      if wfId in workflows {
        var wf := workflows[wfId];
        if wf.IsTerminal(newStatus) && oldStatus != Some(newStatus) {
          var unmet := UnmetCloseChecks(checks, id, wf.closeChecks);
          if unmet != [] { return Err(ClosePreconditionsUnmet); }
        }
      }
      return Ok(());
    }

    method PrepareInsert(caller: Caller, typeId: string, payload: Record) returns (r: Result<NewRow>)
      requires FieldsAreKeyed()
      ensures r == PrepareCreate(Tables(), caller, typeId, payload)
    {
      if typeId !in registry { return Err(NotFound); }
      var td := registry[typeId];
      if !InputOk(td, payload, true) { return Err(BadRequest); }
      var data := BuildCreateData(td, payload);
      if !FinalOk(td, data) { return Err(Unprocessable); }
      if typeId == CASE {
        var legal := Validate(workflows, WorkflowIdOf(data), None, StatusOf(data));
        if legal.Err? { return Err(legal.error); }
      }
      var sp := ScopeParent(td, data);
      if sp.None? && td.scopeParents != [] && td.ScopeParentRequired() { return Err(Unprocessable); }
      if !RequireAction(AccessTables(), caller, td, sp, Gate.Create) { return Err(NotFound); }
      return Ok(NewRow(data, sp));
    }

    method Create(caller: Caller, typeId: string, payload: Record, id: Id) returns (r: Result<()>)
      requires FieldsAreKeyed()
      modifies this
      ensures Did(r, Handle(old(Tables()), caller, CreateObject(typeId, payload, id)))
    {
      var prepared := PrepareInsert(caller, typeId, payload);
      if prepared.Err? { return Err(prepared.error); }
      r := InsertRows(caller.actor, typeId, prepared.value, id);
    }

    /** The transaction of a create: a failed mirror insert rolls it back. */
    method InsertRows(creator: Id, typeId: string, row: NewRow, id: Id) returns (r: Result<()>)
      modifies this
      ensures Did(r, InsertAll(old(Tables()), creator, typeId, row, id))
    {
      if id in minted { return Err(Conflict); }
      if (row.parent.Some? && row.parent.value !in types) || creator !in types { return Err(Unprocessable); }
      ghost var before := Tables();
      var types0, parents0, members0, rows0, minted0 := types, parents, members, rows, minted;
      types, parents := types[id := typeId], parents[id := row.parent];
      rows, minted := rows[id := Row(row.data, 1)], minted + {id};
      members := members[(id, creator) := Members.OWNER];
      assert Tables() == InsertRow(before, id, typeId, row.data, row.parent, creator);
      r := Ok(());
      if typeId == CASE {
        r := UpsertCaseMirror(id, row.data, 1);
        if r.Err? {
          types, parents, members, rows, minted := types0, parents0, members0, rows0, minted0;
        }
      }
    }

    method Delete(caller: Caller, typeId: string, id: Id, ifMatch: IfMatch) returns (r: Result<()>)
      modifies this
      ensures Did(r, Handle(old(Tables()), caller, DeleteObject(typeId, id, ifMatch)))
    {
      if typeId !in registry { return Err(NotFound); }
      if !RequireAction(AccessTables(), caller, registry[typeId], Some(id), Gate.Delete) { return Err(NotFound); }
      if !(id in rows && id in types && types[id] == typeId) { return Err(NotFound); }
      if ifMatch.Absent? { return Err(PreconditionRequired); }
      if ifMatch.Unparseable? { return Err(PreconditionFailed); }
      if rows[id].version != ifMatch.version { return Err(PreconditionFailed); }
      Cascade(id);
      return Ok(());
    }

    /** The delete of an entity and what its foreign keys cascade to, table by table. */
    method Cascade(id: Id)
      modifies this
      ensures Tables() == RemoveRow(old(Tables()), id)
    {
      CascadeAccess(id);
      rows := rows - {id};
      mirror := map c | c in mirror && c != id ::
        mirror[c].(assignee := Without(mirror[c].assignee, id), project := Without(mirror[c].project, id));
      checks := map k | k in checks && k.0 != id :: checks[k];
    }

    method CascadeAccess(id: Id)
      modifies this`types, this`parents, this`members
      ensures AccessTables() == Members.DeleteEntity(old(AccessTables()), id)
    {
      types := types - {id};
      parents := map x | x in parents && x != id :: if parents[x] == Some(id) then None else parents[x];
      members := map k | k in members && k.0 != id && k.1 != id :: members[k];
    }
  }

  method NewData(td: TypeDef, verb: Verb, existing: Record, payload: Record) returns (data: Record)
    requires DistinctFields(td.fields)
    ensures data == Applied(td, verb, existing, payload)
  {
    if verb.Put? {
      data := BuildPutData(td, existing, payload);
    } else {
      var merged := MergePatchInPlace(Obj(existing), Obj(payload));
      data := MembersOf(merged);
    }
  }

  /** The keys of a payload, in some order. */
  method KeysOf(payload: Record) returns (keys: seq<string>)
    ensures (set k | k in keys) == payload.Keys
  {
    keys := [];
    var todo := payload.Keys;
    while todo != {}
      invariant todo <= payload.Keys
      invariant forall k :: k in keys <==> k in payload.Keys - todo
      decreases |todo|
    {
      var k :| k in todo;
      keys := keys + [k];
      todo := todo - {k};
    }
  }
}
