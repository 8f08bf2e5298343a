/** Cases over whole runs: the typed mirror against the canonical row, and the close gate. */
module CaseRuns {
  import opened Prelude
  import opened Json
  import opened Registry
  import opened Objects
  import opened Workflow
  import opened Cases
  import opened Catalog
  import opened Server
  import opened Runs
  import Types
  import Rbac
  import M = Members

  ghost predicate CaseReady(db: Db) {
    CASE in db.registry && db.registry[CASE] == CaseType()
  }

  /** The columns the mirror must share with the record; assignee and project are nulled separately when
      what they name is deleted. */
  ghost predicate SameFace(c: CaseRow, d: CaseRow) {
    && c.title == d.title && c.status == d.status && c.workflowId == d.workflowId
    && c.priority == d.priority && c.version == d.version
  }

  ghost predicate IsCase(db: Db, id: Id) {
    RowExists(db, id, CASE)
  }

  ghost predicate Mirrored(db: Db, id: Id)
    requires id in db.rows
  {
    id in db.mirror && SameFace(db.mirror[id], MirrorOf(db.rows[id].data, db.rows[id].version))
  }

  ghost predicate InSync(db: Db) {
    && (forall id | id in db.mirror :: id in db.access.types)
    && (forall id | IsCase(db, id) :: Mirrored(db, id))
  }

  /** Final-valid case records hold strings where the mirror and the workflow look. */
  lemma CaseStrings(data: Record)
    requires FinalOk(CaseType(), data)
    ensures StrAt(data, "status").Some? && StrAt(data, "workflow_id").Some? && StrAt(data, "project_id").Some?
  {
    assert CaseType().fields[3] in CaseType().fields && FieldFinalOk(CaseType().fields[3], data);
    assert CaseType().fields[7] in CaseType().fields && FieldFinalOk(CaseType().fields[7], data);
    assert CaseType().fields[10] in CaseType().fields && FieldFinalOk(CaseType().fields[10], data);
  }

  ghost predicate AssigneeExists(db: Db, data: Record) {
    var named := StrAt(data, "assignee_id");
    named.Some? ==> named.value in db.access.types
  }

  // ---- a write to a case ----------------------------------------------------------------

  /** What `Prepare` established about a case write. */
  ghost predicate CaseChecked(db: Db, p: Pending) {
    && p.typeId == CASE && IsCase(db, p.id)
    && FinalOk(CaseType(), p.data)
    && p.parent == StrAt(p.data, "project_id")
    && ValidateCaseChange(db.workflows, db.checks, p.id, p.data, StrAt(db.rows[p.id].data, "status")).Ok?
  }

  lemma PreparedCase(db: Db, caller: Caller, verb: Verb, id: Id, ifMatch: IfMatch, payload: Record)
    requires CaseReady(db) && Prepare(db, caller, verb, CASE, id, ifMatch, payload).Ok?
    ensures var p := Prepare(db, caller, verb, CASE, id, ifMatch, payload).value;
      CaseChecked(db, p) && p.id == id
  {
    hide Applied, FinalOk, ValidateCaseChange, Rbac.EffectiveRank;
    assert CaseType().scopeParents[0] == "project_id";
  }

  lemma GoodCase(db: Db, id: Id)
    requires Good(db) && CaseReady(db) && IsCase(db, id)
    ensures FinalOk(CaseType(), db.rows[id].data)
  {
    assert RowGood(db, id);
  }

  /** Once the row is updated, the mirror upsert goes through exactly when the assignee exists: the
      trigger has nothing left to refuse. */
  lemma SyncFailsOnlyOnAssignee(db: Db, id: Id, data: Record, oldStatus: string, version: int)
    requires id in db.access.types && id in db.mirror && db.mirror[id].status == oldStatus
    requires StrAt(data, "status").Some?
    requires ValidateCaseChange(db.workflows, db.checks, id, data, Some(oldStatus)).Ok?
    requires var project := StrAt(data, "project_id"); project.Some? && project.value in db.access.types
    ensures SyncMirror(db, id, data, version).Ok? <==> AssigneeExists(db, data)
    ensures SyncMirror(db, id, data, version).Err? ==> SyncMirror(db, id, data, version).error == Unprocessable
  {
    GatesAgree(db.workflows, db.checks, id, data, oldStatus, version);
    hide GuardRaises, Unmet;
  }

  /** In step, the mirror holds the row's status and version. */
  lemma MirroredColumns(db: Db, id: Id)
    requires InSync(db) && IsCase(db, id) && StrAt(db.rows[id].data, "status").Some?
    ensures id in db.mirror && StrAt(db.rows[id].data, "status") == Some(db.mirror[id].status)
    ensures db.mirror[id].version == db.rows[id].version
  {
    assert Mirrored(db, id);
  }

  /** What an accepted UPDATE of a case checked and changed. */
  lemma UpdateShape(db: Db, p: Pending)
    requires Update(db, p).Ok?
    ensures RowExists(db, p.id, p.typeId) && db.rows[p.id].version == p.expected
    ensures p.parent.Some? ==> p.parent.value in db.access.types
    ensures Update(db, p).value == db.(
      rows := db.rows[p.id := Row(p.data, p.expected + 1)],
      access := Update(db, p).value.access)
    ensures Update(db, p).value.access.types == db.access.types
  {}

  /** The facts about a checked case write that the mirror upsert looks at. */
  lemma UpdatedCaseFacts(db: Db, p: Pending)
    requires Good(db) && CaseReady(db) && InSync(db) && CaseChecked(db, p) && Update(db, p).Ok?
    ensures StrAt(p.data, "status").Some?
    ensures p.id in db.mirror && IsCase(db, p.id)
    ensures ValidateCaseChange(db.workflows, db.checks, p.id, p.data, Some(db.mirror[p.id].status)).Ok?
    ensures StrAt(p.data, "project_id").Some? && StrAt(p.data, "project_id").value in db.access.types
  {
    hide FinalOk, Good, CaseReady, CaseType, ValidateCaseChange, InSync, StrAt, IsCase, Update;
    UpdateShape(db, p);
    GoodCase(db, p.id);
    CaseStrings(p.data);
    CaseStrings(db.rows[p.id].data);
    MirroredColumns(db, p.id);
  }

  /** When the upsert goes through the mirror is in step again; when it fails the row has moved on. */
  lemma SyncDecides(db: Db, updated: Db, p: Pending)
    requires InSync(db) && IsCase(db, p.id) && p.id in db.mirror
    requires updated == db.(rows := db.rows[p.id := Row(p.data, p.expected + 1)], access := updated.access)
    requires updated.access.types == db.access.types && db.rows[p.id].version == p.expected
    ensures match SyncMirror(updated, p.id, p.data, p.expected + 1)
      case Ok(synced) => InSync(synced) && synced.rows == updated.rows
      case Err(_) => !InSync(updated)
  {
    hide SyncMirror, InSync, Mirrored;
    match SyncMirror(updated, p.id, p.data, p.expected + 1) {
      case Ok(_) => SyncedStaysInSync(db, updated, p);
      case Err(_) => StaleMirror(db, updated, p);
    }
  }

  lemma StaleMirror(db: Db, updated: Db, p: Pending)
    requires InSync(db) && IsCase(db, p.id) && p.id in db.mirror
    requires updated == db.(rows := db.rows[p.id := Row(p.data, p.expected + 1)], access := updated.access)
    requires updated.access.types == db.access.types && db.rows[p.id].version == p.expected
    ensures !InSync(updated)
  {
    assert Mirrored(db, p.id);
    assert IsCase(updated, p.id) && !Mirrored(updated, p.id);
  }

  /** An accepted case write answers without error and leaves the mirror in step, if its assignee
      exists; if not, it answers an error yet the row has changed, and the mirror is left behind. */
  lemma CaseWriteOutcome(db: Db, p: Pending)
    requires Good(db) && CaseReady(db) && InSync(db) && CaseChecked(db, p) && Update(db, p).Ok?
    ensures var reply := Finish(db, p);
      && p.id in reply.db.rows && reply.db.rows[p.id] == Row(p.data, p.expected + 1)
      && (reply.result.Ok? <==> AssigneeExists(db, p.data))
      && (reply.result.Err? ==> reply.result.error == Unprocessable && reply.db.mirror == db.mirror)
      && (InSync(reply.db) <==> AssigneeExists(db, p.data))
  {
    hide FinalOk, Good, CaseReady, CaseType, ValidateCaseChange, Update, InSync, SyncMirror, IsCase;
    UpdatedCaseFacts(db, p);
    UpdateShape(db, p);
    var updated := Update(db, p).value;
    SyncFailsOnlyOnAssignee(updated, p.id, p.data, db.mirror[p.id].status, p.expected + 1);
    SyncDecides(db, updated, p);
  }

  lemma SyncedStaysInSync(db: Db, updated: Db, p: Pending)
    requires InSync(db) && p.id in db.mirror
    requires updated == db.(rows := db.rows[p.id := Row(p.data, p.expected + 1)], access := updated.access)
    requires updated.access.types == db.access.types
    requires SyncMirror(updated, p.id, p.data, p.expected + 1).Ok?
    ensures InSync(SyncMirror(updated, p.id, p.data, p.expected + 1).value)
    ensures SyncMirror(updated, p.id, p.data, p.expected + 1).value.rows == updated.rows
  {
    hide GuardRaises, MirrorKeysExist;
    var after := SyncMirror(updated, p.id, p.data, p.expected + 1).value;
    forall id | IsCase(after, id) ensures Mirrored(after, id) {
      if id != p.id { assert IsCase(db, id) && Mirrored(db, id); }
    }
  }

  // ---- every run ----------------------------------------------------------------------------

  /** The step is an accepted write of a case with an assignee that does not exist. */
  ghost predicate Dangles(db: Db, step: Step) {
    && step.request.Write? && step.request.typeId == CASE
    && var r := Prepare(db, step.caller, step.request.verb, CASE, step.request.id, step.request.ifMatch, step.request.payload);
       r.Ok? && Update(db, r.value).Ok? && !AssigneeExists(db, r.value.data)
  }

  lemma WriteInSyncIff(db: Db, step: Step)
    requires Good(db) && CaseReady(db) && InSync(db) && step.request.Write?
    ensures InSync(Handle(db, step.caller, step.request).db) <==> !Dangles(db, step)
  {
    hide Good, Prepare, InSync, AssigneeExists, CaseReady, Update;
    var Write(verb, typeId, id, ifMatch, payload) := step.request;
    var prepared := Prepare(db, step.caller, verb, typeId, id, ifMatch, payload);
    if prepared.Ok? {
      PreparedFor(db, step.caller, verb, typeId, id, ifMatch, payload);
      hide CaseChecked, SyncMirror;
      if typeId == CASE {
        PreparedCase(db, step.caller, verb, id, ifMatch, payload);
        if Update(db, prepared.value).Ok? { CaseWriteOutcome(db, prepared.value); }
      } else {
        OtherWriteKeepsInSync(db, prepared.value);
      }
    }
  }

  lemma OtherWriteKeepsInSync(db: Db, p: Pending)
    requires InSync(db) && p.typeId != CASE && RowExists(db, p.id, p.typeId)
    ensures InSync(Finish(db, p).db)
  {
    var after := Finish(db, p).db;
    forall id | IsCase(after, id) ensures Mirrored(after, id) {
      assert IsCase(db, id) && id != p.id;
    }
  }

  lemma InsertedInSync(db: Db, creator: Id, typeId: string, row: NewRow, id: Id, mirror: map<Id, CaseRow>)
    requires InSync(db) && id !in db.minted
    requires mirror == if typeId == CASE then db.mirror[id := MirrorOf(row.data, 1)] else db.mirror
    ensures InSync(InsertRow(db, id, typeId, row.data, row.parent, creator).(mirror := mirror))
  {
    hide MirrorOf;
    var after := InsertRow(db, id, typeId, row.data, row.parent, creator).(mirror := mirror);
    forall x | IsCase(after, x) ensures Mirrored(after, x) {
      if x != id { assert IsCase(db, x) && Mirrored(db, x); }
    }
  }

  lemma InsertKeepsInSync(db: Db, creator: Id, typeId: string, row: NewRow, id: Id)
    requires InSync(db)
    ensures InSync(InsertAll(db, creator, typeId, row, id).db)
  {
    hide InSync, SyncMirror, InsertRow, MirrorOf;
    var inserted := InsertRow(db, id, typeId, row.data, row.parent, creator);
    if id !in db.minted {
      InsertedInSync(db, creator, typeId, row, id, if typeId == CASE then db.mirror[id := MirrorOf(row.data, 1)] else db.mirror);
      if SyncMirror(inserted, id, row.data, 1).Ok? { SyncShape(inserted, id, row.data, 1); }
      InsertRowMirror(db, creator, typeId, row, id);
    }
  }

  lemma InsertRowMirror(db: Db, creator: Id, typeId: string, row: NewRow, id: Id)
    ensures InsertRow(db, id, typeId, row.data, row.parent, creator).mirror == db.mirror
  {}

  lemma CreateKeepsInSync(db: Db, caller: Caller, typeId: string, payload: Record, id: Id)
    requires InSync(db)
    ensures InSync(CollCreate(db, caller, typeId, payload, id).db)
  {
    hide PrepareCreate, InSync, InsertAll;
    var prepared := PrepareCreate(db, caller, typeId, payload);
    if prepared.Ok? { InsertKeepsInSync(db, caller.actor, typeId, prepared.value, id); }
  }

  lemma RemoveKeepsInSync(db: Db, id: Id)
    requires InSync(db)
    ensures InSync(RemoveRow(db, id))
  {
    var after := RemoveRow(db, id);
    forall x | IsCase(after, x) ensures Mirrored(after, x) {
      assert IsCase(db, x) && Mirrored(db, x);
    }
  }

  lemma StepInSyncIff(db: Db, step: Step)
    requires Good(db) && CaseReady(db) && InSync(db)
    ensures InSync(Handle(db, step.caller, step.request).db) <==> !Dangles(db, step)
  {
    hide Good, InSync, CaseReady, Prepare, Update, AssigneeExists;
    var req := step.request;
    if req.Write? {
      WriteInSyncIff(db, step);
    } else if req.CreateObject? {
      CreateKeepsInSync(db, step.caller, req.typeId, req.payload, req.id);
      assert Handle(db, step.caller, req) == CollCreate(db, step.caller, req.typeId, req.payload, req.id) by { hide CollCreate; }
    } else if req.DeleteObject? {
      RemoveKeepsInSync(db, req.id);
      hide Rbac.EffectiveRank, RemoveRow;
      assert Handle(db, step.caller, req).db == db || Handle(db, step.caller, req).db == RemoveRow(db, req.id);
    } else {
      hide Handle;
      OtherStepKeepsMirror(db, step);
      SameRowsKeepInSync(db, Handle(db, step.caller, req).db);
    }
  }

  lemma OtherStepKeepsMirror(db: Db, step: Step)
    requires Good(db) && !step.request.Write? && !step.request.CreateObject? && !step.request.DeleteObject?
    ensures var after := Handle(db, step.caller, step.request).db;
      after.mirror == db.mirror && after.rows == db.rows && after.access.types == db.access.types && after.minted == db.minted
  {
    var after := Handle(db, step.caller, step.request).db;
    assert after.mirror == db.mirror by {
      hide Good, Types.SpecVerdict, M.AddMember, M.SetMember, M.RemoveMember, M.RequireRank;
    }
    hide Handle, Good;
    var e := EffectOf(db, step.caller, step.request);
  }

  lemma SameRowsKeepInSync(db: Db, after: Db)
    requires InSync(db)
    requires after.mirror == db.mirror && after.rows == db.rows && after.access.types == db.access.types && after.minted == db.minted
    ensures InSync(after)
  {
    forall id | IsCase(after, id) ensures Mirrored(after, id) {
      assert IsCase(db, id);
    }
  }

  lemma StepKeepsCaseReady(db: Db, step: Step)
    requires Good(db) && CaseReady(db)
    ensures CaseReady(Handle(db, step.caller, step.request).db)
  {
    hide Good, Handle;
    var e := EffectOf(db, step.caller, step.request);
  }

  lemma {:induction false} RunKeepsCaseReady(db: Db, steps: seq<Step>)
    requires Good(db) && CaseReady(db)
    ensures CaseReady(Run(db, steps))
  {
    if steps != [] {
      RunKeepsCaseReady(db, steps[..|steps| - 1]);
      RunKeepsGood(db, steps[..|steps| - 1]);
      StepKeepsCaseReady(Run(db, steps[..|steps| - 1]), steps[|steps| - 1]);
    }
  }

  /** In any run, the mirror's title, status, workflow, priority and version are those of the canonical row
      after each request, exactly if no accepted write names an assignee that does not exist. */
  lemma RunsKeepTheMirrorIff(db: Db, steps: seq<Step>)
    requires Good(db) && CaseReady(db) && InSync(db)
    ensures (forall i | 0 <= i <= |steps| :: InSync(After(db, steps, i)))
      <==> (forall i | 0 <= i < |steps| :: !Dangles(After(db, steps, i), steps[i]))
  {
    hide Good, InSync, CaseReady, Dangles, Handle, After;
    var holds := (d: Db) => InSync(d);
    var breaks := (d: Db, step: Step) => Dangles(d, step);
    forall i | 0 <= i < |steps| && holds(After(db, steps, i))
      ensures holds(After(db, steps, i + 1)) <==> !breaks(After(db, steps, i), steps[i])
    {
      AfterIsGood(db, steps, i);
      AfterIsCaseReady(db, steps, i);
      AfterStep(db, steps, i);
      StepInSyncIff(After(db, steps, i), steps[i]);
    }
    AlwaysIffNever(db, steps, holds, breaks);
    assert forall i | 0 <= i <= |steps| :: holds(After(db, steps, i)) == InSync(After(db, steps, i));
    assert forall i | 0 <= i < |steps| :: breaks(After(db, steps, i), steps[i]) == Dangles(After(db, steps, i), steps[i]);
  }

  lemma AfterIsCaseReady(db: Db, steps: seq<Step>, i: nat)
    requires Good(db) && CaseReady(db) && i <= |steps|
    ensures CaseReady(After(db, steps, i))
  {
    hide Good, CaseReady, Handle;
    RunKeepsCaseReady(db, steps[..i]);
  }

  /** The record after an accepted or refused write. */
  lemma CaseWriteMoves(db: Db, step: Step, id: Id)
    requires CaseReady(db) && IsCase(db, id) && step.request.Write? && step.request.id == id
    ensures var after := Handle(db, step.caller, step.request).db;
      && id in after.rows
      && (after.rows[id].data != db.rows[id].data ==>
            ValidateCaseChange(db.workflows, db.checks, id, after.rows[id].data, StrAt(db.rows[id].data, "status")).Ok?)
  {
    hide Prepare, ValidateCaseChange, CaseReady, FinalOk, Finish;
    var Write(verb, typeId, _, ifMatch, payload) := step.request;
    var prepared := Prepare(db, step.caller, verb, typeId, id, ifMatch, payload);
    if prepared.Ok? {
      PreparedFor(db, step.caller, verb, typeId, id, ifMatch, payload);
      PreparedCase(db, step.caller, verb, id, ifMatch, payload);
      WrittenData(db, prepared.value);
    }
  }

  /** Only a write to it changes an object's record. */
  lemma OnlyWritesChangeData(db: Db, step: Step, id: Id)
    requires Good(db) && id in db.rows && id in Handle(db, step.caller, step.request).db.rows
    requires Handle(db, step.caller, step.request).db.rows[id].data != db.rows[id].data
    ensures step.request.Write? && step.request.id == id
  {
    hide Good, Handle, M.DeleteEntity;
    GoodRowsMinted(db, id);
    var e := EffectOf(db, step.caller, step.request);
  }

  /** Whenever a request moves a case into its workflow's terminal state, every close check of that
      workflow has a passed row at that moment. */
  lemma TerminalEntriesAreChecked(db: Db, step: Step, id: Id, name: string)
    requires Good(db) && CaseReady(db) && IsCase(db, id)
    requires id in Handle(db, step.caller, step.request).db.rows
    requires EntersTerminal(db.workflows, db.rows[id].data, Handle(db, step.caller, step.request).db.rows[id].data)
    requires name in db.workflows[WorkflowIdOf(Handle(db, step.caller, step.request).db.rows[id].data)].closeChecks
    ensures Passed(db.checks, id, name)
  {
    hide Good, FinalOk, CaseReady, CaseType, Handle, ValidateCaseChange, StrAt, Passed, WorkflowIdOf;
    GoodCase(db, id);
    CaseStrings(db.rows[id].data);
    var data := Handle(db, step.caller, step.request).db.rows[id].data;
    OnlyWritesChangeData(db, step, id);
    CaseWriteMoves(db, step, id);
    TerminalEntryWasChecked(db.workflows, db.checks, id, data, StrAt(db.rows[id].data, "status"), name);
  }

  ghost predicate EntersTerminal(workflows: Workflows, before: Record, after: Record) {
    && StatusOf(after) != StatusOf(before)
    && WorkflowIdOf(after) in workflows
    && workflows[WorkflowIdOf(after)].IsTerminal(StatusOf(after))
  }

  lemma WrittenData(db: Db, p: Pending)
    ensures Finish(db, p).db == db || (p.id in Finish(db, p).db.rows && Finish(db, p).db.rows[p.id].data == p.data)
  {
    hide MirrorKeysExist, GuardRaises;
  }
}
