/** Who may create what, and what a create leaves behind, in terms of the tables and the payload alone. */
module CreateAnswers {
  import opened Prelude
  import opened Json
  import opened Registry
  import opened Objects
  import opened Rbac
  import opened Cases
  import opened Server
  import opened Runs
  import opened Validity
  import Gate
  import Workflow
  import M = Members

  /** Every key of the payload is a field that callers may set. */
  ghost predicate KeysSettable(td: TypeDef, payload: Record) {
    forall k | k in payload :: exists f :: f in td.fields && f.field == k && !EngineOwned(f)
  }

  /** What a new record holds in a field. */
  function Initially(f: FieldDef, payload: Record): Option<Value> {
    if !EngineOwned(f) && Given(payload, f.field) then Some(payload[f.field]) else DefaultOf(f)
  }

  /** A new record holds that, field by field, and nothing else. */
  lemma CreatedData(td: TypeDef, payload: Record)
    requires DistinctFields(td.fields)
    ensures var data := CreateData(td, payload);
      && (forall f | f in td.fields :: Lookup(data, f.field) == Initially(f, payload))
      && (forall k | k in data :: exists f :: f in td.fields && f.field == k)
  {
    var data := CreateData(td, payload);
    forall f | f in td.fields ensures Lookup(data, f.field) == Initially(f, payload) {
      var i :| 0 <= i < |td.fields| && td.fields[i] == f;
      FindAt(td.fields, i);
      assert f.field in td.FieldNames();
    }
  }

  lemma KnownField(td: TypeDef, k: string)
    requires DistinctFields(td.fields)
    ensures td.Field(k).None? ==> forall f | f in td.fields :: f.field != k
    ensures td.Field(k).Some? ==> forall f | f in td.fields && f.field == k :: f == td.Field(k).value
  {
    forall f | f in td.fields && f.field == k ensures td.Field(k) == Some(f) {
      var i :| 0 <= i < |td.fields| && td.fields[i] == f;
      FindAt(td.fields, i);
    }
  }

  lemma InputIffSettable(td: TypeDef, payload: Record)
    requires DistinctFields(td.fields)
    ensures InputOk(td, payload, true) <==> KeysSettable(td, payload)
  {
    forall k | k in payload
      ensures td.Field(k).Some? && td.Field(k).value.Settable() <==> exists f :: f in td.fields && f.field == k && !EngineOwned(f)
    {
      KnownField(td, k);
    }
  }

  /** The workflow is known and lists the status. */
  predicate StatusListed(db: Db, data: Record) {
    var wf := TextOr(data, "workflow_id", "default");
    wf in db.workflows && TextOr(data, "status", "") in db.workflows[wf].states
  }

  predicate StartsInitial(db: Db, data: Record) {
    var wf := TextOr(data, "workflow_id", "default");
    wf in db.workflows && TextOr(data, "status", "") == db.workflows[wf].initial
  }

  lemma InitialGate(db: Db, data: Record)
    ensures Workflow.Validate(db.workflows, WorkflowIdOf(data), None, StatusOf(data)) ==
      if !StatusListed(db, data) then Err(Unprocessable)
      else if !StartsInitial(db, data) then Err(IllegalTransition)
      else Ok(())
  {}

  /** The primary scope parent field is there and required. */
  ghost predicate ParentNeeded(td: TypeDef) {
    td.scopeParents != [] && exists f :: f in td.fields && f.field == td.scopeParents[0] && f.required
  }

  lemma NeededIffRequired(td: TypeDef)
    requires DistinctFields(td.fields)
    ensures td.scopeParents != [] && td.ScopeParentRequired() <==> ParentNeeded(td)
  {
    if td.scopeParents != [] { KnownField(td, td.scopeParents[0]); }
  }

  lemma ParentIsNamed(td: TypeDef, data: Record)
    ensures ScopeParent(td, data) == NamedParent(td, data)
  {}

  /** Admins may place an object anywhere, anyone may place one at the root, and below a parent it takes
      rank two on that parent. */
  predicate MayPlace(db: Db, caller: Caller, parent: Option<Id>) {
    caller.admin || parent.None? || (var rank := EffectiveRank(db.access, caller.actor, parent.value); rank.Some? && rank.value >= 2)
  }

  lemma CreateGate(db: Db, caller: Caller, td: TypeDef, parent: Option<Id>)
    ensures Gate.RequireAction(db.access, caller, td, parent, Gate.Create) <==> MayPlace(db, caller, parent)
  {
    hide EffectiveRank;
  }

  /** The payload makes a valid record, under a parent if the type needs one, and a case starts where its
      workflow does. */
  ghost predicate MakesRecord(db: Db, typeId: string, payload: Record) {
    && typeId in db.registry && KeysSettable(db.registry[typeId], payload)
    && var td, data := db.registry[typeId], CreateData(db.registry[typeId], payload);
    && Valid(td, data)
    && (typeId == "case" ==> StatusListed(db, data) && StartsInitial(db, data))
    && (ParentNeeded(td) ==> NamedParent(td, data).Some?)
  }

  /** A case listed by its workflow, but not at the initial status. */
  ghost predicate StartsElsewhere(db: Db, typeId: string, payload: Record) {
    && typeId == "case" && typeId in db.registry && KeysSettable(db.registry[typeId], payload)
    && var td, data := db.registry[typeId], CreateData(db.registry[typeId], payload);
       Valid(td, data) && StatusListed(db, data) && !StartsInitial(db, data)
  }

  lemma GoodNames(db: Db, typeId: string)
    requires Good(db) && typeId in db.registry
    ensures DistinctFields(db.registry[typeId].fields)
  {
    hide M.Sound, RowGood;
  }

  /** A create up to its transaction. */
  lemma PreparesCreate(db: Db, caller: Caller, typeId: string, payload: Record)
    requires Good(db)
    ensures var r, known := PrepareCreate(db, caller, typeId, payload), typeId in db.registry;
      var parent := if known then NamedParent(db.registry[typeId], CreateData(db.registry[typeId], payload)) else None;
      && (r == Err(NotFound) <==> !known || (MakesRecord(db, typeId, payload) && !MayPlace(db, caller, parent)))
      && (r == Err(BadRequest) <==> known && !KeysSettable(db.registry[typeId], payload))
      && (r == Err(IllegalTransition) <==> StartsElsewhere(db, typeId, payload))
      && (r == Err(Unprocessable) <==>
            && known && KeysSettable(db.registry[typeId], payload)
            && !MakesRecord(db, typeId, payload) && !StartsElsewhere(db, typeId, payload))
      && (r.Ok? <==> MakesRecord(db, typeId, payload) && MayPlace(db, caller, parent))
      && (r.Ok? ==> r.value == NewRow(CreateData(db.registry[typeId], payload), parent))
  {
    hide Good, InputOk, FinalOk, KeysSettable, Valid, CreateData, StatusListed, StartsInitial, ParentNeeded, MayPlace;
    hide ScopeParent, NamedParent, Gate.RequireAction, Workflow.Validate, WorkflowIdOf, StatusOf;
    if typeId in db.registry {
      var td := db.registry[typeId];
      var data := CreateData(td, payload);
      GoodNames(db, typeId);
      InputIffSettable(td, payload);
      FinalIffValid(td, data);
      InitialGate(db, data);
      NeededIffRequired(td);
      ParentIsNamed(td, data);
      CreateGate(db, caller, td, ScopeParent(td, data));
    }
  }

  /** What a case refers to is there: its workflow, and the assignee and project it names. */
  predicate RefersTo(db: Db, data: Record, there: set<Id>) {
    var assignee, project := TextAt(data, "assignee_id"), TextAt(data, "project_id");
    && TextOr(data, "workflow_id", "default") in db.workflows
    && (assignee.Some? ==> assignee.value in there)
    && (project.Some? ==> project.value in there)
  }

  /** The tables with the new object in them, at version one and owned by its creator; the mirror aside. */
  ghost predicate Inserts(db: Db, after: Db, typeId: string, id: Id, data: Record, parent: Option<Id>, creator: Id) {
    && after == db.(access := after.access, rows := db.rows[id := Row(data, 1)], mirror := after.mirror, minted := db.minted + {id})
    && after.access.types == db.access.types[id := typeId]
    && after.access.parents == db.access.parents[id := parent]
    && after.access.members == db.access.members[(id, creator) := "owner"]
    && after.access.roles == db.access.roles
  }

  lemma FirstSync(db: Db, id: Id, data: Record)
    requires id !in db.mirror && id in db.access.types
    ensures var r := SyncMirror(db, id, data, 1);
      && (r.Ok? <==> RefersTo(db, data, db.access.types.Keys))
      && (r.Err? ==> r.error == Unprocessable)
      && (r.Ok? ==> r.value == db.(mirror := db.mirror[id := MirrorOf(data, 1)]))
  {}

  /** The transaction of a create. */
  lemma InsertsAnswer(db: Db, creator: Id, typeId: string, row: NewRow, id: Id)
    requires id in db.mirror ==> id in db.minted
    ensures var reply := InsertAll(db, creator, typeId, row, id);
      var placed := (row.parent.Some? ==> row.parent.value in db.access.types) && creator in db.access.types;
      var refers := typeId == "case" ==> RefersTo(db, row.data, db.access.types.Keys + {id});
      && (reply.result == Err(Conflict) <==> id in db.minted)
      && (reply.result == Err(Unprocessable) <==> id !in db.minted && !(placed && refers))
      && (reply.result.Ok? <==> id !in db.minted && placed && refers)
      && (if reply.result.Ok? then
            && Inserts(db, reply.db, typeId, id, row.data, row.parent, creator)
            && reply.db.mirror == if typeId == "case" then db.mirror[id := MirrorOf(row.data, 1)] else db.mirror
          else reply.db == db)
  {
    hide SyncMirror, MirrorOf;
    if id !in db.minted {
      var inserted := InsertRow(db, id, typeId, row.data, row.parent, creator);
      FirstSync(inserted, id, row.data);
      assert inserted.access.types.Keys == db.access.types.Keys + {id};
    }
  }

  /** Everything there has to be for a create to go through. */
  ghost predicate Accepts(db: Db, caller: Caller, typeId: string, payload: Record, id: Id) {
    && typeId in db.registry && MakesRecord(db, typeId, payload)
    && id !in db.minted && caller.actor in db.access.types
    && var data := CreateData(db.registry[typeId], payload);
    && var parent := NamedParent(db.registry[typeId], data);
    && MayPlace(db, caller, parent)
    && (parent.Some? ==> parent.value in db.access.types)
    && (typeId == "case" ==> RefersTo(db, data, db.access.types.Keys + {id}))
  }

  /** A create goes through exactly when all of that holds, and then inserts the record the payload makes,
      under the parent it names, with its creator as owner; any refusal leaves the tables alone. */
  lemma CreateAnswer(db: Db, caller: Caller, typeId: string, payload: Record, id: Id)
    requires Good(db) && (id in db.mirror ==> id in db.minted)
    ensures var reply, known := Handle(db, caller, CreateObject(typeId, payload, id)), typeId in db.registry;
      var data := if known then CreateData(db.registry[typeId], payload) else map[];
      var parent := if known then NamedParent(db.registry[typeId], data) else None;
      && (reply.result.Ok? <==> Accepts(db, caller, typeId, payload, id))
      && (reply.result == Err(NotFound) <==> !known || (MakesRecord(db, typeId, payload) && !MayPlace(db, caller, parent)))
      && (reply.result == Err(BadRequest) <==> known && !KeysSettable(db.registry[typeId], payload))
      && (reply.result == Err(IllegalTransition) <==> StartsElsewhere(db, typeId, payload))
      && (reply.result == Err(Conflict) <==> MakesRecord(db, typeId, payload) && MayPlace(db, caller, parent) && id in db.minted)
      && (reply.result == Err(Unprocessable) <==>
            && known && KeysSettable(db.registry[typeId], payload)
            && if MakesRecord(db, typeId, payload)
               then MayPlace(db, caller, parent) && id !in db.minted && !Accepts(db, caller, typeId, payload, id)
               else !StartsElsewhere(db, typeId, payload))
      && (if reply.result.Ok? then Inserts(db, reply.db, typeId, id, data, parent, caller.actor) else reply.db == db)
  {
    hide Good, KeysSettable, MakesRecord, StartsElsewhere, MayPlace, CreateData, NamedParent, PrepareCreate, InsertAll, Inserts, RefersTo;
    PreparesCreate(db, caller, typeId, payload);
    var r := PrepareCreate(db, caller, typeId, payload);
    if r.Ok? {
      assert MakesRecord(db, typeId, payload);
      InsertsAnswer(db, caller.actor, typeId, r.value, id);
    }
  }

  lemma InsertedUnder(db: Db, creator: Id, typeId: string, row: NewRow, id: Id)
    ensures var after := InsertAll(db, creator, typeId, row, id).db;
      after.access == db.access || after.access.parents == db.access.parents[id := row.parent]
  {
    hide SyncMirror;
    var inserted := InsertRow(db, id, typeId, row.data, row.parent, creator);
    if SyncMirror(inserted, id, row.data, 1).Ok? { SyncShape(inserted, id, row.data, 1); }
  }

  /** Whatever the request and whoever sends it: an object that is new afterwards under a parent was put
      there by an admin or by a caller of rank two or more on that parent. */
  lemma NewRowsNeedRank(db: Db, caller: Caller, req: Request, obj: Id)
    requires Good(db) && obj !in db.rows && obj in Handle(db, caller, req).db.rows && !caller.admin
    ensures var after := Handle(db, caller, req).db;
      && obj in after.access.parents
      && (after.access.parents[obj].Some? ==>
            var rank := EffectiveRank(db.access, caller.actor, after.access.parents[obj].value); rank.Some? && rank.value >= 2)
  {
    hide Good, EffectiveRank, HasEffect, MakesRecord, CreateData, NamedParent, PrepareCreate, InsertAll;
    hide ItemWrite, ItemDelete, CreateType, WithAccess, SetCheck;
    var after := Handle(db, caller, req).db;
    var e := EffectOf(db, caller, req);
    NewRowIsInserted(db, after, e, obj);
    PreparesCreate(db, caller, req.typeId, req.payload);
    var r := PrepareCreate(db, caller, req.typeId, req.payload);
    InsertedUnder(db, caller.actor, req.typeId, r.value, obj);
  }

  lemma NewRowIsInserted(db: Db, after: Db, e: Effect, obj: Id)
    requires HasEffect(db, after, e) && obj !in db.rows && obj in after.rows
    requires Good(db)
    ensures e.Inserted? && e.id == obj && obj in after.access.parents && obj !in db.access.parents
  {
    GoodKeys(db);
    hide Good;
  }
}
