/** What a PUT, PATCH or DELETE answers and does, case by case, in terms of the tables and the payload alone. */
module WriteAnswers {
  import opened Prelude
  import opened Json
  import opened Registry
  import opened Objects
  import opened Rbac
  import opened Cases
  import opened Server
  import opened Runs
  import opened Validity
  import opened FloorRules
  import opened RosterAnswers
  import CreateAnswers
  import FieldPerms
  import Gate
  import Workflow
  import M = Members

  /** Every key of the payload is a field that callers may change after creation. */
  ghost predicate KeysEditable(td: TypeDef, payload: Record) {
    forall k | k in payload :: exists f :: f in td.fields && f.field == k && f.editable && !EngineOwned(f)
  }

  lemma InputIffEditable(td: TypeDef, payload: Record)
    requires DistinctFields(td.fields)
    ensures InputOk(td, payload, false) <==> KeysEditable(td, payload)
  {
    forall k | k in payload
      ensures td.Field(k).Some? && td.Field(k).value.Writable()
        <==> exists f :: f in td.fields && f.field == k && f.editable && !EngineOwned(f)
    {
      CreateAnswers.KnownField(td, k);
    }
  }

  // ---- the new record --------------------------------------------------------------------

  /** A PUT gives each editable field the payload's value, or its default, or nothing, and leaves every
      other key as it was. */
  lemma PutInFull(td: TypeDef, existing: Record, payload: Record)
    requires DistinctFields(td.fields)
    ensures var next := Applied(td, Put, existing, payload);
      && (forall f | f in td.fields && f.editable && !EngineOwned(f) ::
            Lookup(next, f.field) == if Given(payload, f.field) then Some(payload[f.field]) else DefaultOf(f))
      && (forall k | (forall f | f in td.fields && f.field == k :: !f.editable || EngineOwned(f)) ::
            Lookup(next, k) == Lookup(existing, k))
  {
    var next := Applied(td, Put, existing, payload);
    forall f | f in td.fields && f.editable && !EngineOwned(f)
      ensures Lookup(next, f.field) == if Given(payload, f.field) then Some(payload[f.field]) else DefaultOf(f)
    {
      CreateAnswers.KnownField(td, f.field);
      PutLookup(td, existing, payload, f.field);
    }
    forall k | (forall f | f in td.fields && f.field == k :: !f.editable || EngineOwned(f))
      ensures Lookup(next, k) == Lookup(existing, k)
    {
      PutLookup(td, existing, payload, k);
    }
  }

  /** A PATCH decides every path of the record, however deep, and leaves those it is silent on. */
  lemma PatchInFull(td: TypeDef, existing: Record, payload: Record, path: seq<string>)
    requires path != []
    ensures var before, after := At(Obj(existing), path), At(Obj(Applied(td, Patch, existing, payload)), path);
      match Says(Obj(payload), path)
      case Silent => after == before
      case Cleared => after.None?
      case Written(v) => after == Some(v)
      case Opened => after.Some? && after.value.Obj?
  {
    MergeFollowsThePatch(Obj(existing), Obj(payload), path);
  }

  /** The payload nulls no required field, and what it gives is of its field's kind. */
  ghost predicate PatchFits(td: TypeDef, payload: Record) {
    forall f | f in td.fields && f.field in payload ::
      if payload[f.field].Null? then !f.required else KindFits(f, payload[f.field])
  }

  /** Of a valid record a PATCH makes a valid record exactly if its payload fits. */
  lemma PatchStaysValidIff(td: TypeDef, existing: Record, payload: Record)
    requires Valid(td, existing)
    ensures Valid(td, Applied(td, Patch, existing, payload)) <==> PatchFits(td, payload)
  {
    hide KindFits;
    var next := Applied(td, Patch, existing, payload);
    forall f | f in td.fields
      ensures f.field !in payload ==> Lookup(next, f.field) == Lookup(existing, f.field)
      ensures f.field in payload && payload[f.field].Null? ==> f.field !in next
      ensures f.field in payload && !payload[f.field].Null? ==>
        Given(next, f.field) && (KindFits(f, next[f.field]) <==> KindFits(f, payload[f.field]))
    {
      PatchedField(td, existing, payload, f);
    }
  }

  lemma PatchedField(td: TypeDef, existing: Record, payload: Record, f: FieldDef)
    ensures var next := Applied(td, Patch, existing, payload);
      if f.field !in payload then Lookup(next, f.field) == Lookup(existing, f.field)
      else if payload[f.field].Null? then f.field !in next
      else Given(next, f.field) && (KindFits(f, next[f.field]) <==> KindFits(f, payload[f.field]))
  {
    if f.field !in payload {
      PatchKeepsOmittedKeys(existing, payload, f.field);
    } else if !payload[f.field].Null? {
      var next := Applied(td, Patch, existing, payload);
      assert next[f.field] == MergePatch(if f.field in existing then existing[f.field] else Null, payload[f.field]);
    }
  }

  /** Each editable field is given a value of its kind, or has a default that fits, or may be absent. */
  ghost predicate PutFits(td: TypeDef, payload: Record) {
    forall f | f in td.fields && f.editable && !EngineOwned(f) ::
      if Given(payload, f.field) then KindFits(f, payload[f.field])
      else if DefaultOf(f).Some? && !DefaultOf(f).value.Null? then KindFits(f, DefaultOf(f).value)
      else !f.required
  }

  lemma PutStaysValidIff(td: TypeDef, existing: Record, payload: Record)
    requires Valid(td, existing) && DistinctFields(td.fields)
    ensures Valid(td, Applied(td, Put, existing, payload)) <==> PutFits(td, payload)
  {
    hide KindFits, Applied, EngineOwned, DefaultOf;
    PutInFull(td, existing, payload);
    var next := Applied(td, Put, existing, payload);
    forall f | f in td.fields && (!f.editable || EngineOwned(f)) ensures Lookup(next, f.field) == Lookup(existing, f.field) {
      forall g | g in td.fields && g.field == f.field ensures g == f { CreateAnswers.KnownField(td, f.field); }
    }
  }

  // ---- the case gate ---------------------------------------------------------------------

  /** The status stays, or its workflow lists the move; a case without a status starts at the initial one. */
  predicate Moves(db: Db, before: Record, next: Record) {
    var wf, status := TextOr(next, "workflow_id", "default"), TextOr(next, "status", "");
    wf in db.workflows &&
    match TextAt(before, "status")
    case None => status == db.workflows[wf].initial
    case Some(s) => s == status || (s in db.workflows[wf].transitions && status in db.workflows[wf].transitions[s])
  }

  /** The status becomes the last of its workflow's. */
  predicate Closes(db: Db, before: Record, next: Record) {
    var wf, status := TextOr(next, "workflow_id", "default"), TextOr(next, "status", "");
    wf in db.workflows && var states := db.workflows[wf].states;
    states != [] && states[|states| - 1] == status && TextAt(before, "status") != Some(status)
  }

  /** Each check that the workflow asks for at the close stands recorded as passed. */
  predicate ChecksPassed(db: Db, id: Id, next: Record) {
    var wf := TextOr(next, "workflow_id", "default");
    wf in db.workflows && forall name | name in db.workflows[wf].closeChecks :: (id, name) in db.checks && db.checks[(id, name)]
  }

  lemma MoveGate(db: Db, before: Record, next: Record)
    ensures Workflow.Validate(db.workflows, WorkflowIdOf(next), StrAt(before, "status"), StatusOf(next)) ==
      if !CreateAnswers.StatusListed(db, next) then Err(Unprocessable)
      else if !Moves(db, before, next) then Err(IllegalTransition)
      else Ok(())
  {}

  lemma CaseGate(db: Db, id: Id, before: Record, next: Record)
    ensures ValidateCaseChange(db.workflows, db.checks, id, next, StrAt(before, "status")) ==
      if !CreateAnswers.StatusListed(db, next) then Err(Unprocessable)
      else if !Moves(db, before, next) then Err(IllegalTransition)
      else if Closes(db, before, next) && !ChecksPassed(db, id, next) then Err(ClosePreconditionsUnmet)
      else Ok(())
  {
    MoveGate(db, before, next);
    hide Moves, Workflow.Validate, Unmet;
    var wf := WorkflowIdOf(next);
    if wf in db.workflows { UnmetEmptyIffAllPassed(db.checks, id, db.workflows[wf].closeChecks); }
  }

  // ---- up to the UPDATE --------------------------------------------------------------------

  /** The caller's rank for the field floors. */
  function FieldRank(a: Access, caller: Caller, obj: Id): int {
    match Own(a, caller, obj) case None => 0 case Some(rank) => rank
  }

  /** The caller ranks high enough for each field it gives. */
  ghost predicate WithinFloors(db: Db, caller: Caller, td: TypeDef, id: Id, payload: Record) {
    var rank := FieldRank(db.access, caller, id);
    rank == 0x7fff_ffff ||
    forall f | f in td.fields && f.field in payload :: HighEnoughToWrite(db.access.roles, db.perms, td.typeId, f, rank)
  }

  lemma FloorGate(db: Db, caller: Caller, td: TypeDef, id: Id, payload: Record)
    requires DistinctFields(td.fields)
    ensures FieldPerms.WritesAllowed(db.access.roles, db.perms, td, FieldPerms.RankOn(db.access, caller, id), payload.Keys)
      <==> WithinFloors(db, caller, td, id, payload)
  {
    hide EffectiveRank, HighEnoughToWrite, FieldPerms.FieldFloors;
    var rank := FieldRank(db.access, caller, id);
    assert rank == FieldPerms.RankOn(db.access, caller, id);
    forall f | f in td.fields && f.field in payload
      ensures FieldPerms.MayWrite(db.access.roles, db.perms, td, rank, f.field)
        <==> HighEnoughToWrite(db.access.roles, db.perms, td.typeId, f, rank)
    {
      CreateAnswers.KnownField(td, f.field);
      FloorsInFigures(db.access.roles, db.perms, td.typeId, f, rank);
    }
    forall k | k in payload && td.Field(k).Some? ensures td.Field(k).value in td.fields && td.Field(k).value.field == k {}
  }

  ghost predicate CaseMoves(db: Db, id: Id, before: Record, next: Record) {
    && CreateAnswers.StatusListed(db, next) && Moves(db, before, next)
    && (Closes(db, before, next) ==> ChecksPassed(db, id, next))
  }

  /** The order in which a payload is refused, and what an accepted one comes to. */
  lemma AssembleAnswer(db: Db, caller: Caller, verb: Verb, typeId: string, id: Id, payload: Record)
    requires typeId in db.registry && id in db.rows && DistinctFields(db.registry[typeId].fields)
    ensures var r, td, before := Assemble(db, caller, verb, typeId, id, payload), db.registry[typeId], db.rows[id].data;
      var next := Applied(td, verb, before, payload);
      var fields := KeysEditable(td, payload) && Valid(td, next) && WithinFloors(db, caller, td, id, payload);
      && (r == Err(BadRequest) <==> !KeysEditable(td, payload))
      && (r == Err(FieldForbidden) <==> KeysEditable(td, payload) && Valid(td, next) && !fields)
      && (r == Err(IllegalTransition) <==> fields && typeId == "case" && CreateAnswers.StatusListed(db, next) && !Moves(db, before, next))
      && (r == Err(ClosePreconditionsUnmet) <==>
            && fields && typeId == "case" && CreateAnswers.StatusListed(db, next) && Moves(db, before, next)
            && Closes(db, before, next) && !ChecksPassed(db, id, next))
      && (r == Err(Unprocessable) <==>
            && KeysEditable(td, payload)
            && (!Valid(td, next) || (fields && typeId == "case" && !CreateAnswers.StatusListed(db, next))))
      && (r.Ok? <==> fields && (typeId == "case" ==> CaseMoves(db, id, before, next)))
      && (r.Ok? ==> r.value == next)
  {
    hide InputOk, FinalOk, Applied, KeysEditable, Valid, WithinFloors, CreateAnswers.StatusListed, Moves, Closes, ChecksPassed;
    hide FieldPerms.WritesAllowed, FieldPerms.RankOn, ValidateCaseChange;
    var td, before := db.registry[typeId], db.rows[id].data;
    var next := Applied(td, verb, before, payload);
    InputIffEditable(td, payload);
    FinalIffValid(td, next);
    FloorGate(db, caller, td, id, payload);
    CaseGate(db, id, before, next);
  }

  /** What lets a payload through, all of it. */
  ghost predicate PayloadFits(db: Db, caller: Caller, verb: Verb, typeId: string, id: Id, payload: Record)
    requires typeId in db.registry && id in db.rows
  {
    var td, before := db.registry[typeId], db.rows[id].data;
    && KeysEditable(td, payload)
    && (if verb.Put? then PutFits(td, payload) else PatchFits(td, payload))
    && WithinFloors(db, caller, td, id, payload)
    && (typeId == "case" ==> CaseMoves(db, id, before, Applied(td, verb, before, payload)))
  }

  /** The object is there under its type, and the caller is an admin or ranks that high on it. */
  predicate Reaches(db: Db, caller: Caller, typeId: string, id: Id, least: int) {
    && There(db.access, id, typeId)
    && (caller.admin || (var rank := EffectiveRank(db.access, caller.actor, id); rank.Some? && rank.value >= least))
  }

  lemma AdmitAnswer(db: Db, caller: Caller, typeId: string, id: Id, ifMatch: IfMatch)
    requires Good(db)
    ensures Admit(db, caller, typeId, id, ifMatch) ==
      if !(typeId in db.registry && Reaches(db, caller, typeId, id, 2)) then Err(NotFound)
      else if ifMatch.Absent? then Err(PreconditionRequired)
      else if ifMatch.Unparseable? then Err(PreconditionFailed)
      else Ok(ifMatch.version)
  {
    hide Good, EffectiveRank, Gate.RequireAction;
    GoodKeys(db);
    if typeId in db.registry { GateInFigures(db.access, caller, db.registry[typeId], id, Gate.Edit); }
  }

  /** A record in good tables is valid, and its type's field names differ. */
  lemma GoodRecord(db: Db, typeId: string, id: Id)
    requires Good(db) && typeId in db.registry && There(db.access, id, typeId)
    ensures RowExists(db, id, typeId) && DistinctFields(db.registry[typeId].fields)
    ensures Valid(db.registry[typeId], db.rows[id].data)
  {
    GoodKeys(db);
    CreateAnswers.GoodNames(db, typeId);
    hide M.Sound, FinalOk, WellFormed;
    assert RowGood(db, id);
    FinalIffValid(db.registry[typeId], db.rows[id].data);
  }

  /** A PUT or PATCH up to its UPDATE goes through exactly if the object is there, the caller ranks two on
      it, a tag is given and the payload fits; else why it does not. */
  lemma PrepareAnswer(db: Db, caller: Caller, verb: Verb, typeId: string, id: Id, ifMatch: IfMatch, payload: Record)
    requires Good(db)
    ensures var r := Prepare(db, caller, verb, typeId, id, ifMatch, payload);
      var reaches := typeId in db.registry && Reaches(db, caller, typeId, id, 2);
      && (reaches ==> id in db.rows)
      && (r == Err(NotFound) <==> !reaches)
      && (r == Err(PreconditionRequired) <==> reaches && ifMatch.Absent?)
      && (r == Err(PreconditionFailed) <==> reaches && ifMatch.Unparseable?)
      && (r == Err(BadRequest) <==> reaches && ifMatch.Tag? && !KeysEditable(db.registry[typeId], payload))
      && (r.Ok? <==> reaches && ifMatch.Tag? && PayloadFits(db, caller, verb, typeId, id, payload))
      && (r.Ok? ==>
            && r.value.id == id && r.value.typeId == typeId && r.value.expected == ifMatch.version
            && r.value.data == Applied(db.registry[typeId], verb, db.rows[id].data, payload)
            && r.value.parent == NamedParent(db.registry[typeId], r.value.data))
  {
    hide Good, Reaches, Admit, Assemble, KeysEditable, Valid, WithinFloors, PutFits, PatchFits, Applied, ScopeParent, NamedParent;
    hide CreateAnswers.StatusListed, Moves, Closes, ChecksPassed;
    AdmitAnswer(db, caller, typeId, id, ifMatch);
    if typeId in db.registry && Reaches(db, caller, typeId, id, 2) {
      assert There(db.access, id, typeId) by { ReachesThere(db, caller, typeId, id, 2); }
      GoodRecord(db, typeId, id);
      AssembleAnswer(db, caller, verb, typeId, id, payload);
      var td, before := db.registry[typeId], db.rows[id].data;
      if verb.Put? { PutStaysValidIff(td, before, payload); } else { PatchStaysValidIff(td, before, payload); }
      ParentNames(td, Applied(td, verb, before, payload));
    }
  }

  lemma ReachesThere(db: Db, caller: Caller, typeId: string, id: Id, least: int)
    requires Reaches(db, caller, typeId, id, least)
    ensures There(db.access, id, typeId)
  {
    hide EffectiveRank;
  }

  lemma ParentNames(td: TypeDef, data: Record)
    ensures ScopeParent(td, data) == NamedParent(td, data)
  {}

  // ---- as a whole --------------------------------------------------------------------------

  /** A write is stored exactly if it is prepared, its tag is the row's version, that version can still
      grow, and the parent the row names has not been deleted. */
  ghost predicate Stores(db: Db, caller: Caller, verb: Verb, typeId: string, id: Id, ifMatch: IfMatch, payload: Record) {
    && typeId in db.registry && Reaches(db, caller, typeId, id, 2) && id in db.rows
    && ifMatch == Tag(db.rows[id].version) && ifMatch.version < 0x7fff_ffff
    && PayloadFits(db, caller, verb, typeId, id, payload)
    && (var parent := NamedParent(db.registry[typeId], db.rows[id].data); parent.Some? ==> parent.value in db.access.types)
  }

  /** The UPDATE and what follows it. */
  lemma FinishAnswer(db: Db, p: Pending)
    requires Good(db) && Fits(db, p) && RowExists(db, p.id, p.typeId)
    ensures var reply, row := Finish(db, p), db.rows[p.id];
      var stored := row.version == p.expected && p.expected < 0x7fff_ffff && (p.parent.Some? ==> p.parent.value in db.access.types);
      && (reply.result == Err(PreconditionFailed) <==> row.version != p.expected)
      && (reply.result == Err(Internal) <==> row.version == p.expected && p.expected >= 0x7fff_ffff)
      && (reply.result.Err? ==>
            reply.result.error in {PreconditionFailed, Internal, Unprocessable, ClosePreconditionsUnmet})
      && reply.db == (if stored then db.(rows := db.rows[p.id := Row(p.data, p.expected + 1)], mirror := reply.db.mirror) else db)
      && (if stored then p.typeId != "case" ==> reply.result.Ok? && reply.db.mirror == db.mirror else reply.result.Err?)
  {
    hide Good, Fits, SyncMirror, Update, RowExists, Cases.MirrorOf;
    UpdateAnswer(db, p);
    if Update(db, p).Ok? && p.typeId == "case" {
      var updated := Update(db, p).value;
      if SyncMirror(updated, p.id, p.data, p.expected + 1).Ok? {
        SyncShape(updated, p.id, p.data, p.expected + 1);
      } else {
        SyncErrors(updated, p.id, p.data, p.expected + 1);
      }
    }
  }

  lemma UpdateAnswer(db: Db, p: Pending)
    requires Good(db) && Fits(db, p) && RowExists(db, p.id, p.typeId)
    ensures Update(db, p) ==
      if db.rows[p.id].version != p.expected then Err(PreconditionFailed)
      else if p.expected >= 0x7fff_ffff then Err(Internal)
      else if p.parent.Some? && p.parent.value !in db.access.types then Err(Unprocessable)
      else Ok(db.(rows := db.rows[p.id := Row(p.data, p.expected + 1)]))
  {
    hide Good, Fits;
    if Update(db, p).Ok? { UpdateKeepsGood(db, p); }
  }

  lemma SyncErrors(db: Db, id: Id, data: Record, version: int)
    requires SyncMirror(db, id, data, version).Err?
    ensures SyncMirror(db, id, data, version).error in {Unprocessable, ClosePreconditionsUnmet}
  {
    hide MirrorKeysExist, GuardRaises, MirrorOf;
  }

  lemma StoresIff(db: Db, caller: Caller, verb: Verb, typeId: string, id: Id, ifMatch: IfMatch, payload: Record)
    requires Good(db)
    ensures var r := Prepare(db, caller, verb, typeId, id, ifMatch, payload);
      && (Stores(db, caller, verb, typeId, id, ifMatch, payload) <==> r.Ok? && Update(db, r.value).Ok?)
      && (r.Ok? ==> typeId in db.registry && id in db.rows && r.value.id == id && r.value.typeId == typeId
                    && r.value.data == Applied(db.registry[typeId], verb, db.rows[id].data, payload))
  {
    hide Good, Reaches, Prepare, KeysEditable, PayloadFits, Applied, Fits, Update;
    PrepareAnswer(db, caller, verb, typeId, id, ifMatch, payload);
    var r := Prepare(db, caller, verb, typeId, id, ifMatch, payload);
    if r.Ok? {
      PreparedFor(db, caller, verb, typeId, id, ifMatch, payload);
      PreparedFits(db, caller, verb, typeId, id, ifMatch, payload);
      UpdateAnswer(db, r.value);
      SameParent(db, r.value);
    }
  }

  /** A PUT or PATCH: when it is stored, as what and at which version, and why it is refused when not. What
      a case's mirror makes of it is said by CaseRuns.CaseWriteOutcome. */
  lemma WriteAnswer(db: Db, caller: Caller, verb: Verb, typeId: string, id: Id, ifMatch: IfMatch, payload: Record)
    requires Good(db)
    ensures var reply, stores := Handle(db, caller, Write(verb, typeId, id, ifMatch, payload)), Stores(db, caller, verb, typeId, id, ifMatch, payload);
      var reaches := typeId in db.registry && Reaches(db, caller, typeId, id, 2);
      && (reply.result == Err(NotFound) <==> !reaches)
      && (reply.result == Err(PreconditionRequired) <==> reaches && ifMatch.Absent?)
      && (reply.result == Err(BadRequest) <==> reaches && ifMatch.Tag? && !KeysEditable(db.registry[typeId], payload))
      && (reaches ==> id in db.rows)
      && (reply.result == Err(PreconditionFailed) <==>
            reaches && !ifMatch.Absent? && (ifMatch.Tag? ==>
              PayloadFits(db, caller, verb, typeId, id, payload) && ifMatch.version != db.rows[id].version))
      && (if stores then
            && reply.db == db.(rows := db.rows[id := Row(Applied(db.registry[typeId], verb, db.rows[id].data, payload), ifMatch.version + 1)],
                               mirror := reply.db.mirror)
            && (typeId != "case" ==> reply.result.Ok? && reply.db.mirror == db.mirror)
          else reply.result.Err? && reply.db == db)
  {
    hide Good, Reaches, Prepare, Finish, KeysEditable, PayloadFits, Applied, Fits;
    PrepareAnswer(db, caller, verb, typeId, id, ifMatch, payload);
    var r := Prepare(db, caller, verb, typeId, id, ifMatch, payload);
    if r.Ok? {
      PreparedFor(db, caller, verb, typeId, id, ifMatch, payload);
      PreparedFits(db, caller, verb, typeId, id, ifMatch, payload);
      FinishAnswer(db, r.value);
      SameParent(db, r.value);
    }
  }

  lemma SameParent(db: Db, p: Pending)
    requires Fits(db, p) && RowExists(db, p.id, p.typeId) && p.typeId in db.registry
    ensures p.parent == NamedParent(db.registry[p.typeId], db.rows[p.id].data)
  {
    hide FinalOk;
  }

  // ---- delete --------------------------------------------------------------------------------

  /** Nothing of the object is left: no row, type, edge to or from it, mirror row or check, and nobody's
      parent, assignee or project. All else is as it was. */
  ghost predicate Forgets(db: Db, after: Db, id: Id) {
    && after == db.(access := after.access, rows := db.rows - {id}, mirror := after.mirror, checks := after.checks)
    && after.access.types == db.access.types - {id} && after.access.roles == db.access.roles
    && after.access.parents.Keys == db.access.parents.Keys - {id}
    && (forall x | x in after.access.parents ::
          after.access.parents[x] == if db.access.parents[x] == Some(id) then None else db.access.parents[x])
    && (forall k :: k in after.access.members <==> k in db.access.members && id != k.0 && id != k.1)
    && (forall k | k in after.access.members :: after.access.members[k] == db.access.members[k])
    && (forall k :: k in after.checks <==> k in db.checks && id != k.0)
    && (forall k | k in after.checks :: after.checks[k] == db.checks[k])
    && after.mirror.Keys == db.mirror.Keys - {id}
    && (forall c | c in after.mirror :: after.mirror[c] == db.mirror[c].(
          assignee := if db.mirror[c].assignee == Some(id) then None else db.mirror[c].assignee,
          project := if db.mirror[c].project == Some(id) then None else db.mirror[c].project))
  }

  lemma RemovedIsForgotten(db: Db, id: Id)
    ensures Forgets(db, RemoveRow(db, id), id)
  {}

  /** A delete goes through exactly for an admin or a caller of that rank with the row's current version for
      a tag, and leaves nothing of the object. */
  lemma DeleteAnswer(db: Db, caller: Caller, typeId: string, id: Id, ifMatch: IfMatch)
    requires Good(db)
    ensures var reply := Handle(db, caller, DeleteObject(typeId, id, ifMatch));
      var reaches := typeId in db.registry && Reaches(db, caller, typeId, id, Takes(db.registry[typeId], Gate.Delete));
      && (reaches ==> id in db.rows)
      && (reply.result.Ok? <==> reaches && ifMatch == Tag(db.rows[id].version))
      && (reply.result == Err(NotFound) <==> !reaches)
      && (reply.result == Err(PreconditionRequired) <==> reaches && ifMatch.Absent?)
      && (reply.result == Err(PreconditionFailed) <==> reaches && !ifMatch.Absent? && ifMatch != Tag(db.rows[id].version))
      && (if reply.result.Ok? then Forgets(db, reply.db, id) else reply.db == db)
  {
    hide Good, EffectiveRank, RemoveRow, Forgets, Gate.RequireAction;
    GoodKeys(db);
    if typeId in db.registry { GateInFigures(db.access, caller, db.registry[typeId], id, Gate.Delete); }
    RemovedIsForgotten(db, id);
  }
}
