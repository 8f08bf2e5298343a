/** The typed mirror of a case column by column: each column against the key of the record it is of. */
module MirrorColumns {
  import opened Prelude
  import opened Json
  import opened Cases
  import opened Server
  import opened Runs
  import opened CaseRuns
  import opened Validity
  import opened WriteAnswers
  import CreateAnswers

  /** Title, status, workflow, priority and version are the record's, each from its own key. */
  predicate ColumnsAgree(m: CaseRow, data: Record, version: int) {
    && m.title == TextOr(data, "title", "")
    && m.status == TextOr(data, "status", "backlog")
    && m.workflowId == TextOr(data, "workflow_id", "default")
    && m.priority == TextOr(data, "priority", "normal")
    && m.version == version
  }

  /** A reference column names what the record names, or nothing where that has been deleted. */
  predicate RefersAs(db: Db, column: Option<Id>, named: Option<Id>) {
    column == named || (column.None? && named.Some? && named.value !in db.access.types && named.value in db.minted)
  }

  predicate RefsAgree(db: Db, m: CaseRow, data: Record) {
    RefersAs(db, m.assignee, TextAt(data, "assignee_id")) && RefersAs(db, m.project, TextAt(data, "project_id"))
  }

  /** Every case has a mirror row that agrees in every column, and only objects have one. */
  ghost predicate InStep(db: Db) {
    && (forall c | c in db.mirror :: c in db.access.types)
    && (forall id | IsCase(db, id) ::
          && id in db.mirror && ColumnsAgree(db.mirror[id], db.rows[id].data, db.rows[id].version)
          && RefsAgree(db, db.mirror[id], db.rows[id].data))
  }

  ghost predicate RefsInStep(db: Db) {
    forall id | IsCase(db, id) && id in db.mirror :: RefsAgree(db, db.mirror[id], db.rows[id].data)
  }

  lemma SameFaceIsColumns(m: CaseRow, data: Record, version: int)
    ensures SameFace(m, MirrorOf(data, version)) <==> ColumnsAgree(m, data, version)
  {}

  lemma InStepInParts(db: Db)
    ensures InStep(db) <==> InSync(db) && RefsInStep(db)
  {
    hide SameFace, ColumnsAgree, RefsAgree, MirrorOf;
    forall id | IsCase(db, id) && id in db.mirror
      ensures Mirrored(db, id) <==> ColumnsAgree(db.mirror[id], db.rows[id].data, db.rows[id].version)
    {
      SameFaceIsColumns(db.mirror[id], db.rows[id].data, db.rows[id].version);
    }
    if InSync(db) && RefsInStep(db) {
      forall id | IsCase(db, id)
        ensures id in db.mirror && ColumnsAgree(db.mirror[id], db.rows[id].data, db.rows[id].version)
        ensures RefsAgree(db, db.mirror[id], db.rows[id].data)
      {
        assert Mirrored(db, id);
      }
    }
    if InStep(db) {
      forall id | IsCase(db, id) ensures Mirrored(db, id) && RefsAgree(db, db.mirror[id], db.rows[id].data) {}
    }
  }

  /** An upsert that goes through writes every column from its key, references included, and nothing else. */
  lemma UpsertColumns(db: Db, id: Id, data: Record, version: int)
    requires SyncMirror(db, id, data, version).Ok?
    ensures var after := SyncMirror(db, id, data, version).value;
      && id in after.mirror && after == db.(mirror := db.mirror[id := after.mirror[id]])
      && ColumnsAgree(after.mirror[id], data, version)
      && after.mirror[id].assignee == TextAt(data, "assignee_id") && after.mirror[id].project == TextAt(data, "project_id")
  {
    hide MirrorKeysExist, GuardRaises;
    SyncShape(db, id, data, version);
  }

  /** The upsert is refused by the trigger if it changes the status under an unknown workflow, or to the last
      of its workflow's with a check not passed; else by a foreign key if something it refers to is missing;
      else it goes through. */
  lemma UpsertAnswer(db: Db, id: Id, data: Record, version: int)
    ensures var r, status, wf := SyncMirror(db, id, data, version), TextOr(data, "status", "backlog"), TextOr(data, "workflow_id", "default");
      var closes := wf in db.workflows && db.workflows[wf].states != [] && db.workflows[wf].states[|db.workflows[wf].states| - 1] == status;
      var raises := id in db.mirror && status != db.mirror[id].status
        && (wf !in db.workflows || (closes && !ChecksPassed(db, id, data)));
      && (r == Err(ClosePreconditionsUnmet) <==> raises)
      && (r == Err(Unprocessable) <==> !raises && !(id in db.access.types && CreateAnswers.RefersTo(db, data, db.access.types.Keys)))
      && (r.Ok? <==> !raises && id in db.access.types && CreateAnswers.RefersTo(db, data, db.access.types.Keys))
  {}

  // ---- one request -------------------------------------------------------------------------

  /** The write is stored, and its record names an assignee that does not exist. */
  ghost predicate StoresDangling(db: Db, step: Step) {
    && step.request.Write? && step.request.typeId == "case"
    && var Write(verb, _, id, ifMatch, payload) := step.request;
    && Stores(db, step.caller, verb, "case", id, ifMatch, payload)
    && var named := TextAt(Applied(db.registry["case"], verb, db.rows[id].data, payload), "assignee_id");
       named.Some? && named.value !in db.access.types
  }

  lemma DanglesIff(db: Db, step: Step)
    requires Good(db)
    ensures Dangles(db, step) <==> StoresDangling(db, step)
  {
    hide Good, Stores, Prepare, Update, Applied;
    if step.request.Write? {
      var Write(verb, typeId, id, ifMatch, payload) := step.request;
      StoresIff(db, step.caller, verb, typeId, id, ifMatch, payload);
    }
  }

  lemma RefsKeptElsewhere(db: Db, after: Db, id: Id)
    requires RefsInStep(db)
    requires after.access.types == db.access.types && after.minted == db.minted
    requires forall c | IsCase(after, c) && c != id ::
      IsCase(db, c) && after.rows[c] == db.rows[c] && (c in after.mirror ==> c in db.mirror && after.mirror[c] == db.mirror[c])
    requires IsCase(after, id) && id in after.mirror ==> RefsAgree(after, after.mirror[id], after.rows[id].data)
    ensures RefsInStep(after)
  {
    hide RefsAgree;
    forall c | IsCase(after, c) && c in after.mirror ensures RefsAgree(after, after.mirror[c], after.rows[c].data) {
      if c != id { SameRefs(db, after, c); }
    }
  }

  lemma SameRefs(db: Db, after: Db, c: Id)
    requires IsCase(db, c) && c in db.mirror && RefsAgree(db, db.mirror[c], db.rows[c].data)
    requires c in after.rows && c in after.mirror && after.rows[c] == db.rows[c] && after.mirror[c] == db.mirror[c]
    requires after.access.types == db.access.types && after.minted == db.minted
    ensures RefsAgree(after, after.mirror[c], after.rows[c].data)
  {}

  lemma FinishedRefs(db: Db, p: Pending)
    requires Good(db) && CaseReady(db) && InStep(db) && Fits(db, p) && RowExists(db, p.id, p.typeId)
    requires p.typeId == CASE ==> CaseChecked(db, p) && (Update(db, p).Ok? ==> AssigneeExists(db, p.data))
    ensures RefsInStep(Finish(db, p).db)
  {
    hide Good, InStep, CaseReady, CaseChecked, Fits, SyncMirror, Update, AssigneeExists, RefsInStep, InSync, RowExists;
    InStepInParts(db);
    var after := Finish(db, p).db;
    UpdateAnswer(db, p);
    if Update(db, p).Ok? {
      var updated := Update(db, p).value;
      if p.typeId == CASE {
        CaseWriteOutcome(db, p);
        UpsertColumns(updated, p.id, p.data, p.expected + 1);
        FinishedCaseRefs(db, p, after);
      } else {
        FinishedOtherRefs(db, p, after);
      }
    }
  }

  lemma FinishedCaseRefs(db: Db, p: Pending, after: Db)
    requires RefsInStep(db) && p.id in after.mirror
    requires after == db.(rows := db.rows[p.id := Row(p.data, p.expected + 1)], mirror := db.mirror[p.id := after.mirror[p.id]])
    requires after.mirror[p.id].assignee == TextAt(p.data, "assignee_id") && after.mirror[p.id].project == TextAt(p.data, "project_id")
    ensures RefsInStep(after)
  {
    hide RefsInStep;
    RefsKeptElsewhere(db, after, p.id);
  }

  lemma FinishedOtherRefs(db: Db, p: Pending, after: Db)
    requires RefsInStep(db) && RowExists(db, p.id, p.typeId) && p.typeId != CASE
    requires after == db.(rows := db.rows[p.id := Row(p.data, p.expected + 1)])
    ensures RefsInStep(after)
  {
    hide RefsInStep;
    RefsKeptElsewhere(db, after, p.id);
  }

  lemma WriteKeepsRefs(db: Db, step: Step)
    requires Good(db) && CaseReady(db) && InStep(db) && step.request.Write? && !Dangles(db, step)
    ensures RefsInStep(Handle(db, step.caller, step.request).db)
  {
    hide Good, InStep, CaseReady, Prepare, Update, Finish, Fits, CaseChecked, AssigneeExists, RefsInStep, InSync;
    InStepInParts(db);
    var Write(verb, typeId, id, ifMatch, payload) := step.request;
    var r := Prepare(db, step.caller, verb, typeId, id, ifMatch, payload);
    if r.Ok? {
      PreparedFor(db, step.caller, verb, typeId, id, ifMatch, payload);
      PreparedFits(db, step.caller, verb, typeId, id, ifMatch, payload);
      if typeId == CASE { PreparedCase(db, step.caller, verb, id, ifMatch, payload); }
      FinishedRefs(db, r.value);
    }
  }

  lemma InsertedRefs(db: Db, creator: Id, typeId: string, row: NewRow, id: Id, mirror: map<Id, CaseRow>)
    requires RefsInStep(db) && id !in db.minted
    requires mirror == if typeId == CASE then db.mirror[id := MirrorOf(row.data, 1)] else db.mirror
    ensures RefsInStep(InsertRow(db, id, typeId, row.data, row.parent, creator).(mirror := mirror))
  {
    var after := InsertRow(db, id, typeId, row.data, row.parent, creator).(mirror := mirror);
    forall c | IsCase(after, c) && c in after.mirror ensures RefsAgree(after, after.mirror[c], after.rows[c].data) {
      if c != id { assert IsCase(db, c) && RefsAgree(db, db.mirror[c], db.rows[c].data); }
    }
  }

  lemma CreateKeepsRefs(db: Db, caller: Caller, typeId: string, payload: Record, id: Id)
    requires RefsInStep(db)
    ensures RefsInStep(CollCreate(db, caller, typeId, payload, id).db)
  {
    hide PrepareCreate, RefsInStep, SyncMirror, InsertRow, MirrorOf;
    var prepared := PrepareCreate(db, caller, typeId, payload);
    if prepared.Ok? && id !in db.minted {
      var row := prepared.value;
      var inserted := InsertRow(db, id, typeId, row.data, row.parent, caller.actor);
      InsertedRefs(db, caller.actor, typeId, row, id, if typeId == CASE then db.mirror[id := MirrorOf(row.data, 1)] else db.mirror);
      InsertRowMirror(db, caller.actor, typeId, row, id);
      if SyncMirror(inserted, id, row.data, 1).Ok? { SyncShape(inserted, id, row.data, 1); }
    }
  }

  lemma RemoveKeepsRefs(db: Db, id: Id)
    requires RefsInStep(db) && id in db.minted
    ensures RefsInStep(RemoveRow(db, id))
  {
    var after := RemoveRow(db, id);
    forall c | IsCase(after, c) && c in after.mirror ensures RefsAgree(after, after.mirror[c], after.rows[c].data) {
      assert IsCase(db, c) && RefsAgree(db, db.mirror[c], db.rows[c].data);
    }
  }

  lemma SameTablesKeepRefs(db: Db, after: Db)
    requires RefsInStep(db)
    requires after.mirror == db.mirror && after.rows == db.rows && after.access.types == db.access.types && after.minted == db.minted
    ensures RefsInStep(after)
  {}

  lemma StepKeepsRefs(db: Db, step: Step)
    requires Good(db) && CaseReady(db) && InStep(db) && !Dangles(db, step)
    ensures RefsInStep(Handle(db, step.caller, step.request).db)
  {
    hide Good, InStep, InSync, CaseReady, Dangles, RefsInStep;
    InStepInParts(db);
    var req := step.request;
    if req.Write? {
      WriteKeepsRefs(db, step);
    } else if req.CreateObject? {
      CreateKeepsRefs(db, step.caller, req.typeId, req.payload, req.id);
      assert Handle(db, step.caller, req) == CollCreate(db, step.caller, req.typeId, req.payload, req.id) by { hide CollCreate; }
    } else if req.DeleteObject? {
      DeleteKeepsRefs(db, step);
    } else {
      hide Handle;
      OtherStepKeepsMirror(db, step);
      SameTablesKeepRefs(db, Handle(db, step.caller, req).db);
    }
  }

  lemma DeleteKeepsRefs(db: Db, step: Step)
    requires Good(db) && RefsInStep(db) && step.request.DeleteObject?
    ensures RefsInStep(Handle(db, step.caller, step.request).db)
  {
    hide Good, RefsInStep, Rbac.EffectiveRank, RemoveRow;
    if step.request.id in db.rows {
      GoodRowsMinted(db, step.request.id);
      RemoveKeepsRefs(db, step.request.id);
    }
    assert Handle(db, step.caller, step.request).db == db || Handle(db, step.caller, step.request).db == RemoveRow(db, step.request.id);
  }

  /** One request keeps the mirror in step exactly unless it stores a case with an assignee that does not
      exist. */
  lemma StepInStepIff(db: Db, step: Step)
    requires Good(db) && CaseReady(db) && InStep(db)
    ensures InStep(Handle(db, step.caller, step.request).db) <==> !StoresDangling(db, step)
  {
    hide Good, CaseReady, InStep, InSync, RefsInStep, Handle, Dangles, StoresDangling;
    InStepInParts(db);
    DanglesIff(db, step);
    StepInSyncIff(db, step);
    InStepInParts(Handle(db, step.caller, step.request).db);
    if !Dangles(db, step) { StepKeepsRefs(db, step); }
  }

  /** A write to a case answers without error exactly if it is stored and its assignee, if it names one,
      exists; its mirror row then has every column from the record just stored. With an assignee that does
      not exist the record is stored, the answer is an error and the mirror stays as it was. */
  lemma CaseWriteAnswer(db: Db, caller: Caller, verb: Verb, id: Id, ifMatch: IfMatch, payload: Record)
    requires Good(db) && CaseReady(db) && InStep(db)
    ensures var reply, stores := Handle(db, caller, Write(verb, "case", id, ifMatch, payload)), Stores(db, caller, verb, "case", id, ifMatch, payload);
      var next := if stores then Applied(db.registry["case"], verb, db.rows[id].data, payload) else map[];
      var assignee := TextAt(next, "assignee_id");
      && (reply.result.Ok? <==> stores && (assignee.Some? ==> assignee.value in db.access.types))
      && (stores ==> id in reply.db.rows && reply.db.rows[id] == Row(next, ifMatch.version + 1))
      && (stores && reply.result.Err? ==> reply.result == Err(Unprocessable) && reply.db.mirror == db.mirror)
      && (stores && reply.result.Ok? ==>
            && id in reply.db.mirror && reply.db.mirror == db.mirror[id := reply.db.mirror[id]]
            && ColumnsAgree(reply.db.mirror[id], next, ifMatch.version + 1)
            && reply.db.mirror[id].assignee == assignee && reply.db.mirror[id].project == TextAt(next, "project_id"))
  {
    hide Good, InStep, InSync, RefsInStep, CaseReady, Stores, Prepare, Update, Fits, CaseChecked, Applied, SyncMirror, ColumnsAgree;
    InStepInParts(db);
    StoresIff(db, caller, verb, CASE, id, ifMatch, payload);
    var r := Prepare(db, caller, verb, CASE, id, ifMatch, payload);
    if r.Ok? {
      PreparedFor(db, caller, verb, CASE, id, ifMatch, payload);
      PreparedFits(db, caller, verb, CASE, id, ifMatch, payload);
      PreparedExpects(db, caller, verb, CASE, id, ifMatch, payload);
      PreparedCase(db, caller, verb, id, ifMatch, payload);
      UpdateAnswer(db, r.value);
      if Update(db, r.value).Ok? {
        var updated := Update(db, r.value).value;
        CaseWriteOutcome(db, r.value);
        if SyncMirror(updated, id, r.value.data, r.value.expected + 1).Ok? {
          UpsertColumns(updated, id, r.value.data, r.value.expected + 1);
        }
      }
    }
  }

  /** A case that is created has every mirror column from its record. */
  lemma CaseCreateColumns(db: Db, caller: Caller, payload: Record, id: Id)
    requires Handle(db, caller, CreateObject("case", payload, id)).result.Ok?
    ensures var after := Handle(db, caller, CreateObject("case", payload, id)).db;
      && id in after.rows && id in after.mirror && after.mirror == db.mirror[id := after.mirror[id]]
      && ColumnsAgree(after.mirror[id], after.rows[id].data, 1)
      && after.mirror[id].assignee == TextAt(after.rows[id].data, "assignee_id")
      && after.mirror[id].project == TextAt(after.rows[id].data, "project_id")
  {
    hide PrepareCreate, SyncMirror, ColumnsAgree;
    var row := PrepareCreate(db, caller, "case", payload).value;
    UpsertColumns(InsertRow(db, id, "case", row.data, row.parent, caller.actor), id, row.data, 1);
  }

  // ---- every run ----------------------------------------------------------------------------

  /** In any run, after each request every case's mirror row agrees with its record column by column,
      exactly if no stored write names an assignee that does not exist. */
  lemma ColumnsAgreeThroughoutIff(db: Db, steps: seq<Step>)
    requires Good(db) && CaseReady(db) && InStep(db)
    ensures (forall i | 0 <= i <= |steps| :: InStep(After(db, steps, i)))
      <==> (forall i | 0 <= i < |steps| :: !StoresDangling(After(db, steps, i), steps[i]))
  {
    hide Good, InStep, CaseReady, StoresDangling, Handle, After;
    var holds := (d: Db) => InStep(d);
    var breaks := (d: Db, step: Step) => StoresDangling(d, step);
    forall i | 0 <= i < |steps| && holds(After(db, steps, i))
      ensures holds(After(db, steps, i + 1)) <==> !breaks(After(db, steps, i), steps[i])
    {
      AfterIsGood(db, steps, i);
      AfterIsCaseReady(db, steps, i);
      AfterStep(db, steps, i);
      StepInStepIff(After(db, steps, i), steps[i]);
    }
    AlwaysIffNever(db, steps, holds, breaks);
    assert forall i | 0 <= i <= |steps| :: holds(After(db, steps, i)) == InStep(After(db, steps, i));
    assert forall i | 0 <= i < |steps| :: breaks(After(db, steps, i), steps[i]) == StoresDangling(After(db, steps, i), steps[i]);
  }
}
