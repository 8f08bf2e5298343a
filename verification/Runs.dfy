/** What every sequence of requests keeps, whoever sends them: foreign keys, acyclic team and scope graphs,
    final-valid records, and scope edges that no update moves. */
module Runs {
  import opened Prelude
  import opened Json
  import opened Registry
  import opened Objects
  import opened Rbac
  import opened Fixpoint
  import opened Types
  import opened Server
  import FieldPerms
  import M = Members
  import Cases

  /** The parent column is what the record names, unless that parent has been deleted. */
  ghost predicate Placed(db: Db, id: Id)
    requires id in db.rows && id in db.access.types && id in db.access.parents && db.access.types[id] in db.registry
  {
    var named := ScopeParent(db.registry[db.access.types[id]], db.rows[id].data);
    || db.access.parents[id] == named
    || (db.access.parents[id].None? && named.Some? && named.value !in db.access.types && named.value in db.minted)
  }

  ghost predicate RowGood(db: Db, id: Id)
    requires id in db.rows && id in db.access.types && id in db.access.parents
  {
    && db.access.types[id] in db.registry
    && FinalOk(db.registry[db.access.types[id]], db.rows[id].data)
    && Placed(db, id)
  }

  ghost predicate Good(db: Db) {
    && M.Sound(db.access)
    && db.rows.Keys == db.access.types.Keys
    && db.access.types.Keys <= db.minted
    && (forall t | t in db.registry :: WellFormed(db.registry[t]))
    && (forall id | id in db.rows :: RowGood(db, id))
  }

  lemma GoodIsSound(db: Db)
    requires Good(db)
    ensures M.Sound(db.access)
  {}

  lemma GoodKeys(db: Db)
    requires Good(db)
    ensures db.rows.Keys == db.access.types.Keys == db.access.parents.Keys
    ensures forall id | id in db.access.parents && db.access.parents[id].Some? :: db.access.parents[id].value in db.access.types
  {}

  lemma GoodRowsMinted(db: Db, id: Id)
    requires Good(db) && id in db.rows
    ensures id in db.minted
  {
    hide M.Sound, RowGood, WellFormed;
  }

  // ---- writes ---------------------------------------------------------------------------

  /** A pending write that fits the row it is about to replace. */
  ghost predicate Fits(db: Db, p: Pending) {
    RowExists(db, p.id, p.typeId) && p.typeId in db.registry ==>
      && FinalOk(db.registry[p.typeId], p.data)
      && p.parent == ScopeParent(db.registry[p.typeId], p.data)
      && p.parent == ScopeParent(db.registry[p.typeId], db.rows[p.id].data)
  }

  lemma AssembledShape(db: Db, caller: Caller, verb: Verb, typeId: string, id: Id, payload: Record)
    requires typeId in db.registry && id in db.rows
    requires Assemble(db, caller, verb, typeId, id, payload).Ok?
    ensures var data := Assemble(db, caller, verb, typeId, id, payload).value;
      && InputOk(db.registry[typeId], payload, false) && FinalOk(db.registry[typeId], data)
      && data == Applied(db.registry[typeId], verb, db.rows[id].data, payload)
  {
    hide InputOk, Applied, FinalOk, FieldPerms.WritesAllowed, FieldPerms.RankOn, Cases.ValidateCaseChange;
  }

  lemma PreparedFits(db: Db, caller: Caller, verb: Verb, typeId: string, id: Id, ifMatch: IfMatch, payload: Record)
    requires Good(db) && Prepare(db, caller, verb, typeId, id, ifMatch, payload).Ok?
    ensures Fits(db, Prepare(db, caller, verb, typeId, id, ifMatch, payload).value)
  {
    hide M.Sound, RowGood, WellFormed, Assemble, InputOk, FinalOk, PutData, PatchData, ScopeParent, Admit;
    AssembledShape(db, caller, verb, typeId, id, payload);
    UpdatesKeepScopeParent(db.registry[typeId], db.rows[id].data, payload);
  }

  /** An accepted UPDATE leaves the access tables as they are, parent column included. */
  lemma UpdateKeepsGood(db: Db, p: Pending)
    requires Good(db) && Fits(db, p) && Update(db, p).Ok?
    ensures Update(db, p).value.access == db.access
    ensures Good(Update(db, p).value)
  {
    hide FinalOk, M.Sound, ScopeParent;
    GoodKeys(db);
    var after := Update(db, p).value;
    assert RowGood(db, p.id);
    assert db.access.parents[p.id] == p.parent;
    assert after.access.parents == db.access.parents;
    forall id | id in after.rows ensures RowGood(after, id) {
      assert RowGood(db, id);
    }
  }

  lemma MirrorOnlyKeepsGood(db: Db, mirror: map<Id, Cases.CaseRow>)
    requires Good(db)
    ensures Good(db.(mirror := mirror))
  {
    hide FinalOk, M.Sound, ScopeParent;
    GoodKeys(db);
    var after := db.(mirror := mirror);
    forall id | id in after.rows ensures RowGood(after, id) {
      assert RowGood(db, id);
    }
  }

  lemma FinishKeepsGood(db: Db, p: Pending)
    requires Good(db) && Fits(db, p)
    ensures Good(Finish(db, p).db) && Finish(db, p).db.access == db.access
  {
    hide Good, Fits, MirrorKeysExist, Cases.GuardRaises;
    if Update(db, p).Ok? {
      UpdateKeepsGood(db, p);
      var updated := Update(db, p).value;
      MirrorOnlyKeepsGood(updated, Finish(db, p).db.mirror);
    }
  }

  lemma WriteKeepsGood(db: Db, caller: Caller, verb: Verb, typeId: string, id: Id, ifMatch: IfMatch, payload: Record)
    requires Good(db)
    ensures var after := ItemWrite(db, caller, verb, typeId, id, ifMatch, payload).db;
      Good(after) && after.access == db.access
  {
    hide Good, Fits, Finish, Prepare;
    if Prepare(db, caller, verb, typeId, id, ifMatch, payload).Ok? {
      PreparedFits(db, caller, verb, typeId, id, ifMatch, payload);
      FinishKeepsGood(db, Prepare(db, caller, verb, typeId, id, ifMatch, payload).value);
    }
  }

  // ---- the other requests ------------------------------------------------------------------

  lemma InsertRowSound(db: Db, id: Id, typeId: string, row: NewRow, creator: Id)
    requires M.Sound(db.access) && id !in db.access.types && creator in db.access.types
    requires row.parent.Some? ==> row.parent.value in db.access.types
    ensures M.Sound(InsertRow(db, id, typeId, row.data, row.parent, creator).access)
  {
    M.InsertKeepsSound(db.access, id, typeId, row.parent, creator);
  }

  lemma InsertKeepsRow(db: Db, id: Id, typeId: string, row: NewRow, creator: Id, x: Id)
    requires x in db.rows && x in db.access.types && x in db.access.parents && RowGood(db, x)
    requires id !in db.minted && x != id
    ensures RowGood(InsertRow(db, id, typeId, row.data, row.parent, creator), x)
  {
    hide FinalOk, ScopeParent;
  }

  lemma InsertKeepsGood(db: Db, id: Id, typeId: string, row: NewRow, creator: Id)
    requires Good(db) && typeId in db.registry && id !in db.minted && creator in db.access.types
    requires FinalOk(db.registry[typeId], row.data) && row.parent == ScopeParent(db.registry[typeId], row.data)
    requires row.parent.Some? ==> row.parent.value in db.access.types
    ensures Good(InsertRow(db, id, typeId, row.data, row.parent, creator))
  {
    hide FinalOk, ScopeParent, M.Sound, RowGood, WellFormed;
    GoodKeys(db);
    GoodIsSound(db);
    InsertRowSound(db, id, typeId, row, creator);
    var after := InsertRow(db, id, typeId, row.data, row.parent, creator);
    forall x | x in db.rows ensures RowGood(after, x) {
      if x != id { InsertKeepsRow(db, id, typeId, row, creator, x); }
    }
    NewRowGood(db, id, typeId, row, creator);
    assert after.rows.Keys == db.rows.Keys + {id};
  }

  lemma NewRowGood(db: Db, id: Id, typeId: string, row: NewRow, creator: Id)
    requires typeId in db.registry
    requires FinalOk(db.registry[typeId], row.data) && row.parent == ScopeParent(db.registry[typeId], row.data)
    ensures RowGood(InsertRow(db, id, typeId, row.data, row.parent, creator), id)
  {
    hide FinalOk, ScopeParent;
  }

  lemma CreateKeepsGood(db: Db, caller: Caller, typeId: string, payload: Record, id: Id)
    requires Good(db)
    ensures Good(CollCreate(db, caller, typeId, payload, id).db)
  {
    hide Good, FinalOk, ScopeParent, CreateData, Cases.GuardRaises, InputOk, EffectiveRank, InsertRow, MirrorKeysExist;
    if PrepareCreate(db, caller, typeId, payload).Ok? {
      var row := PrepareCreate(db, caller, typeId, payload).value;
      var reply := InsertAll(db, caller.actor, typeId, row, id);
      if reply.result.Ok? {
        InsertKeepsGood(db, id, typeId, row, caller.actor);
        MirrorOnlyKeepsGood(InsertRow(db, id, typeId, row.data, row.parent, caller.actor), reply.db.mirror);
      }
    }
  }

  lemma RemoveKeepsGood(db: Db, id: Id)
    requires Good(db) && id in db.rows
    ensures Good(RemoveRow(db, id))
  {
    hide FinalOk, ScopeParent;
    GoodKeys(db);
    var after := RemoveRow(db, id);
    M.DeleteKeepsSound(db.access, id);
    forall x | x in after.rows ensures RowGood(after, x) {
      assert RowGood(db, x);
    }
  }

  lemma AccessOnlyKeepsGood(db: Db, access: Access)
    requires Good(db) && M.Sound(access) && access.types == db.access.types && access.parents == db.access.parents
    ensures Good(db.(access := access))
  {
    hide FinalOk, M.Sound, ScopeParent;
    GoodKeys(db);
    var after := db.(access := access);
    forall id | id in after.rows ensures RowGood(after, id) {
      assert RowGood(db, id);
    }
  }

  lemma AcceptedIsNew(spec: TypeSpec, current: TypeCache)
    requires SpecVerdict(spec, current).Ok?
    ensures spec.typeId !in current
  {}

  lemma RegisterKeepsGood(db: Db, spec: TypeSpec)
    requires Good(db) && SpecVerdict(spec, db.registry).Ok?
    ensures Good(db.(registry := db.registry[spec.typeId := TypeOf(spec)]))
  {
    hide FinalOk, M.Sound, ScopeParent, SpecVerdict;
    GoodKeys(db);
    var after := db.(registry := db.registry[spec.typeId := TypeOf(spec)]);
    AcceptedTypesAreWellFormed(spec, db.registry);
    assert spec.typeId !in db.registry by { AcceptedIsNew(spec, db.registry); }
    forall id | id in after.rows ensures RowGood(after, id) {
      assert RowGood(db, id);
    }
  }

  lemma ChecksOnlyKeepGood(db: Db, checks: Cases.Checks)
    requires Good(db)
    ensures Good(db.(checks := checks))
  {
    hide FinalOk, M.Sound, ScopeParent;
    GoodKeys(db);
    var after := db.(checks := checks);
    forall id | id in after.rows ensures RowGood(after, id) {
      assert RowGood(db, id);
    }
  }

  lemma RosterKeepsGood(db: Db, caller: Caller, req: Request)
    requires Good(db) && (req.Grant? || req.ChangeRole? || req.Revoke?)
    ensures Good(Handle(db, caller, req).db)
  {
    hide Good;
    hide M.Sound;
    GoodIsSound(db);
    var a := db.access;
    match req {
      case Grant(typeId, id, member, role) =>
        if M.AddMember(a, caller, typeId, id, member, role).Ok? {
          M.AddMemberKeepsSound(a, caller, typeId, id, member, role);
          AccessOnlyKeepsGood(db, M.AddMember(a, caller, typeId, id, member, role).value);
        }
      case ChangeRole(typeId, id, member, role) =>
        if M.SetMember(a, caller, typeId, id, member, role).Ok? {
          M.SetMemberKeepsSound(a, caller, typeId, id, member, role);
          AccessOnlyKeepsGood(db, M.SetMember(a, caller, typeId, id, member, role).value);
        }
      case Revoke(typeId, id, member) =>
        if M.RemoveMember(a, caller, typeId, id, member).Ok? {
          M.RemoveMemberKeepsSound(a, caller, typeId, id, member);
          AccessOnlyKeepsGood(db, M.RemoveMember(a, caller, typeId, id, member).value);
        }
    }
  }

  lemma HandleKeepsGood(db: Db, caller: Caller, req: Request)
    requires Good(db)
    ensures Good(Handle(db, caller, req).db)
  {
    hide Good, EffectiveRank, FinalOk, ItemWrite, CollCreate;
    match req {
      case RegisterType(spec) =>
        if CreateType(db, caller, spec).result.Ok? { RegisterKeepsGood(db, spec); }
      case CreateObject(typeId, payload, id) => CreateKeepsGood(db, caller, typeId, payload, id);
      case Write(verb, typeId, id, ifMatch, payload) => WriteKeepsGood(db, caller, verb, typeId, id, ifMatch, payload);
      case DeleteObject(typeId, id, ifMatch) =>
        if ItemDelete(db, caller, typeId, id, ifMatch).result.Ok? { RemoveKeepsGood(db, id); }
      case RecordCheck(typeId, id, name, passed) =>
        ChecksOnlyKeepGood(db, SetCheck(db, caller, typeId, id, name, passed).db.checks);
      case _ => RosterKeepsGood(db, caller, req);
    }
  }

  /** Over all runs: foreign keys hold, the member-to-team graph and the scope graph stay acyclic, and
      every record passes final validation and sits where it says. */
  lemma {:induction false} RunKeepsGood(db: Db, steps: seq<Step>)
    requires Good(db)
    ensures Good(Run(db, steps))
  {
    if steps != [] {
      var last := steps[|steps| - 1];
      RunKeepsGood(db, steps[..|steps| - 1]);
      HandleKeepsGood(Run(db, steps[..|steps| - 1]), last.caller, last.request);
    }
  }

  // ---- properties of every step of a run ------------------------------------------------

  /** The tables after the first `i` steps. */
  ghost function After(db: Db, steps: seq<Step>, i: nat): Db
    requires i <= |steps|
  {
    Run(db, steps[..i])
  }

  lemma AfterStep(db: Db, steps: seq<Step>, i: nat)
    requires i < |steps|
    ensures After(db, steps, i + 1) == Handle(After(db, steps, i), steps[i].caller, steps[i].request).db
  {
    hide Handle;
    assert steps[..i + 1][..i] == steps[..i];
  }

  lemma AfterNothing(db: Db, steps: seq<Step>)
    ensures After(db, steps, 0) == db
  {}

  lemma AfterIsGood(db: Db, steps: seq<Step>, i: nat)
    requires Good(db) && i <= |steps|
    ensures Good(After(db, steps, i))
  {
    hide Good, Handle;
    RunKeepsGood(db, steps[..i]);
  }

  /** What each step keeps exactly unless it breaks it, holds all along exactly if no step breaks it. */
  lemma AlwaysIffNever(db: Db, steps: seq<Step>, holds: Db -> bool, breaks: (Db, Step) -> bool)
    requires holds(db)
    requires forall i | 0 <= i < |steps| && holds(After(db, steps, i)) ::
      holds(After(db, steps, i + 1)) <==> !breaks(After(db, steps, i), steps[i])
    ensures (forall i | 0 <= i <= |steps| :: holds(After(db, steps, i)))
      <==> (forall i | 0 <= i < |steps| :: !breaks(After(db, steps, i), steps[i]))
  {
    AfterNothing(db, steps);
    hide After;
    var heldAt := (i: nat) => i <= |steps| && holds(After(db, steps, i));
    var brokenAt := (i: nat) => i < |steps| && breaks(After(db, steps, i), steps[i]);
    HoldsIffNeverBroken(|steps|, heldAt, brokenAt);
    assert forall i: nat | i <= |steps| :: heldAt(i) == holds(After(db, steps, i));
    assert forall i: nat | i < |steps| :: brokenAt(i) == breaks(After(db, steps, i), steps[i]);
  }

  // ---- what one request does to the rows ------------------------------------------------

  datatype Effect =
    | Kept
    | Inserted(id: Id, typeId: string, row: NewRow)
    | Removed(id: Id)
    | Wrote(id: Id)

  /** The rows, types, parents and ids after a request; rosters, checks and the mirror aside. */
  ghost predicate HasEffect(db: Db, after: Db, e: Effect) {
    && (forall t | t in db.registry :: t in after.registry && after.registry[t] == db.registry[t])
    && match e
      case Kept =>
        && after.rows == db.rows && after.minted == db.minted
        && after.access.types == db.access.types && after.access.parents == db.access.parents
      case Inserted(id, typeId, row) =>
        && id !in db.minted && after.minted == db.minted + {id}
        && after.rows == db.rows[id := Row(row.data, 1)]
        && after.access.types == db.access.types[id := typeId] && after.access.parents == db.access.parents[id := row.parent]
      case Removed(id) =>
        && id in db.rows && after.minted == db.minted
        && after.rows == db.rows - {id} && after.access == M.DeleteEntity(db.access, id)
      case Wrote(id) =>
        && id in db.rows && after.minted == db.minted && after.access == db.access
        && id in after.rows && after.rows == db.rows[id := after.rows[id]]
  }

  lemma FinishEffect(db: Db, p: Pending)
    requires Good(db) && Fits(db, p)
    ensures var after := Finish(db, p).db; HasEffect(db, after, Kept) || HasEffect(db, after, Wrote(p.id))
  {
    hide Good, Fits, MirrorKeysExist, Cases.GuardRaises;
    FinishKeepsGood(db, p);
  }

  lemma PreparedFor(db: Db, caller: Caller, verb: Verb, typeId: string, id: Id, ifMatch: IfMatch, payload: Record)
    requires Prepare(db, caller, verb, typeId, id, ifMatch, payload).Ok?
    ensures var p := Prepare(db, caller, verb, typeId, id, ifMatch, payload).value;
      p.id == id && p.typeId == typeId && RowExists(db, id, typeId) && typeId in db.registry
  {
    hide Assemble;
  }

  lemma WriteEffect(db: Db, caller: Caller, verb: Verb, typeId: string, id: Id, ifMatch: IfMatch, payload: Record)
    requires Good(db)
    ensures var after := ItemWrite(db, caller, verb, typeId, id, ifMatch, payload).db;
      HasEffect(db, after, Kept) || HasEffect(db, after, Wrote(id))
  {
    hide Good, Fits, Prepare, Finish;
    if Prepare(db, caller, verb, typeId, id, ifMatch, payload).Ok? {
      PreparedFits(db, caller, verb, typeId, id, ifMatch, payload);
      PreparedFor(db, caller, verb, typeId, id, ifMatch, payload);
      FinishEffect(db, Prepare(db, caller, verb, typeId, id, ifMatch, payload).value);
    }
  }

  /** A mirror upsert that goes through changes the mirror and nothing else. */
  lemma SyncShape(db: Db, id: Id, data: Record, version: int)
    requires SyncMirror(db, id, data, version).Ok?
    ensures SyncMirror(db, id, data, version).value == db.(mirror := db.mirror[id := Cases.MirrorOf(data, version)])
  {
    hide MirrorKeysExist, Cases.GuardRaises, Cases.MirrorOf;
  }

  lemma InsertEffect(db: Db, creator: Id, typeId: string, row: NewRow, id: Id)
    ensures var after := InsertAll(db, creator, typeId, row, id).db;
      HasEffect(db, after, Kept) || HasEffect(db, after, Inserted(id, typeId, row))
  {
    hide SyncMirror, Cases.MirrorOf;
    var inserted := InsertRow(db, id, typeId, row.data, row.parent, creator);
    if SyncMirror(inserted, id, row.data, 1).Ok? { SyncShape(inserted, id, row.data, 1); }
  }

  lemma CreateEffect(db: Db, caller: Caller, typeId: string, payload: Record, id: Id)
    ensures var after := CollCreate(db, caller, typeId, payload, id).db;
      HasEffect(db, after, Kept) || exists row :: HasEffect(db, after, Inserted(id, typeId, row))
  {
    hide PrepareCreate, InsertAll;
    var prepared := PrepareCreate(db, caller, typeId, payload);
    if prepared.Ok? { InsertEffect(db, caller.actor, typeId, prepared.value, id); }
  }

  lemma DeleteEffect(db: Db, caller: Caller, typeId: string, id: Id, ifMatch: IfMatch) returns (e: Effect)
    requires Good(db)
    ensures HasEffect(db, ItemDelete(db, caller, typeId, id, ifMatch).db, e)
    ensures e == Kept || e == Removed(id)
  {
    hide Good, EffectiveRank;
    e := if ItemDelete(db, caller, typeId, id, ifMatch).result.Ok? then Removed(id) else Kept;
  }

  /** A roster request writes or removes one edge, or nothing. */
  lemma RosterShape(a: Access, caller: Caller, typeId: string, id: Id, member: Id, role: string)
    ensures M.AddMember(a, caller, typeId, id, member, role).Ok? ==>
      M.AddMember(a, caller, typeId, id, member, role).value == M.WithEdge(a, id, member, role)
    ensures M.SetMember(a, caller, typeId, id, member, role).Ok? ==>
      M.SetMember(a, caller, typeId, id, member, role).value == M.WithEdge(a, id, member, role)
    ensures M.RemoveMember(a, caller, typeId, id, member).Ok? ==>
      M.RemoveMember(a, caller, typeId, id, member).value == M.WithoutEdge(a, id, member)
  {
    hide M.RequireRank, PrincipalsContain, M.Owners, M.WithEdge, M.WithoutEdge;
  }

  lemma RosterEffect(db: Db, caller: Caller, req: Request)
    requires req.Grant? || req.ChangeRole? || req.Revoke?
    ensures HasEffect(db, Handle(db, caller, req).db, Kept)
  {
    hide M.AddMember, M.SetMember, M.RemoveMember;
    RosterShape(db.access, caller, req.typeId, req.id, req.member, if req.Revoke? then "" else req.role);
  }

  lemma RegisterEffect(db: Db, caller: Caller, spec: TypeSpec)
    ensures HasEffect(db, CreateType(db, caller, spec).db, Kept)
  {
    hide SpecVerdict, TypeOf;
    if SpecVerdict(spec, db.registry).Ok? { AcceptedIsNew(spec, db.registry); }
  }

  lemma SetCheckShape(db: Db, caller: Caller, typeId: string, id: Id, name: string, passed: bool)
    ensures var reply := SetCheck(db, caller, typeId, id, name, passed);
      reply.db == if reply.result.Ok? then db.(checks := db.checks[(id, name) := passed]) else db
  {
    hide M.RequireRank, M.ObjectExists;
  }

  lemma CheckEffect(db: Db, caller: Caller, typeId: string, id: Id, name: string, passed: bool)
    ensures HasEffect(db, SetCheck(db, caller, typeId, id, name, passed).db, Kept)
  {
    hide SetCheck;
    SetCheckShape(db, caller, typeId, id, name, passed);
  }

  /** Registering a type, recording a check and changing a roster leave the rows alone. */
  lemma QuietEffect(db: Db, caller: Caller, req: Request)
    requires !req.Write? && !req.CreateObject? && !req.DeleteObject?
    ensures HasEffect(db, Handle(db, caller, req).db, Kept)
  {
    hide HasEffect, CreateType, SetCheck, WithAccess;
    match req {
      case RegisterType(spec) => RegisterEffect(db, caller, spec);
      case RecordCheck(typeId, id, name, passed) => CheckEffect(db, caller, typeId, id, name, passed);
      case _ => RosterEffect(db, caller, req);
    }
  }

  lemma EffectOf(db: Db, caller: Caller, req: Request) returns (e: Effect)
    requires Good(db)
    ensures HasEffect(db, Handle(db, caller, req).db, e)
    ensures e.Wrote? ==> req.Write? && req.id == e.id
    ensures e.Inserted? ==> req.CreateObject? && req.id == e.id && req.typeId == e.typeId
    ensures e.Removed? ==> req.DeleteObject? && req.id == e.id
  {
    hide Good, HasEffect, ItemWrite, CollCreate, ItemDelete;
    var after := Handle(db, caller, req).db;
    match req {
      case Write(verb, typeId, id, ifMatch, payload) =>
        WriteEffect(db, caller, verb, typeId, id, ifMatch, payload);
        e := if HasEffect(db, after, Kept) then Kept else Wrote(id);
      case CreateObject(typeId, payload, id) =>
        CreateEffect(db, caller, typeId, payload, id);
        if HasEffect(db, after, Kept) {
          e := Kept;
        } else {
          var row :| HasEffect(db, after, Inserted(id, typeId, row));
          e := Inserted(id, typeId, row);
        }
      case DeleteObject(typeId, id, ifMatch) => e := DeleteEffect(db, caller, typeId, id, ifMatch);
      case _ =>
        QuietEffect(db, caller, req);
        e := Kept;
    }
  }

  // ---- scope edges -----------------------------------------------------------------------

  /** One request leaves an object's parent alone, or nulls it because that parent is gone. */
  lemma ScopeEdgesAreWriteOnce(db: Db, caller: Caller, req: Request, id: Id)
    requires Good(db) && id in db.rows && id in Handle(db, caller, req).db.rows
    ensures id in db.access.parents && id in Handle(db, caller, req).db.access.parents
    ensures var after := Handle(db, caller, req).db.access;
      || after.parents[id] == db.access.parents[id]
      || (after.parents[id].None? && db.access.parents[id].Some? && db.access.parents[id].value !in after.types)
  {
    hide Handle, M.Sound, FinalOk;
    GoodKeys(db);
    var e := EffectOf(db, caller, req);
  }

  /** The record names a parent that has been deleted. */
  ghost predicate Orphaned(db: Db, id: Id) {
    && id in db.rows && id in db.access.types && db.access.types[id] in db.registry
    && var named := ScopeParent(db.registry[db.access.types[id]], db.rows[id].data);
       named.Some? && named.value !in db.access.types && named.value in db.minted
  }

  /** Deleting a parent orphans exactly its scope children. */
  lemma DeleteOrphansChildren(db: Db, id: Id, child: Id)
    requires Good(db) && id in db.rows && child in db.rows && child != id && !Orphaned(db, child)
    ensures Orphaned(RemoveRow(db, id), child) <==> db.access.parents[child] == Some(id)
  {
    assert RowGood(db, child);
  }

  /** No update of an orphan is ever accepted: it writes back the parent its record still names, and that
      foreign key fails. */
  lemma OrphanWritesFail(db: Db, caller: Caller, verb: Verb, typeId: string, id: Id, ifMatch: IfMatch, payload: Record)
    requires Good(db) && Orphaned(db, id)
    ensures var reply := ItemWrite(db, caller, verb, typeId, id, ifMatch, payload);
      reply.result.Err? && reply.db == db
  {
    hide Good;
    if Prepare(db, caller, verb, typeId, id, ifMatch, payload).Ok? {
      PreparedFits(db, caller, verb, typeId, id, ifMatch, payload);
    }
  }

  /** That foreign key is all that stands between a prepared write with the row's own version and its
      UPDATE: it is accepted exactly when the row is no orphan. */
  lemma CurrentWriteAcceptedIff(db: Db, caller: Caller, verb: Verb, typeId: string, id: Id, payload: Record)
    requires Good(db) && id in db.rows && db.rows[id].version < MAX_I32
    requires Prepare(db, caller, verb, typeId, id, Tag(db.rows[id].version), payload).Ok?
    ensures Update(db, Prepare(db, caller, verb, typeId, id, Tag(db.rows[id].version), payload).value).Ok?
      <==> !Orphaned(db, id)
  {
    PreparedFits(db, caller, verb, typeId, id, Tag(db.rows[id].version), payload);
    PreparedFor(db, caller, verb, typeId, id, Tag(db.rows[id].version), payload);
    PreparedExpects(db, caller, verb, typeId, id, Tag(db.rows[id].version), payload);
    GoodKeys(db);
    hide Prepare, FinalOk, ScopeParent, M.Sound, WellFormed;
    assert RowGood(db, id);
  }

  lemma PreparedExpects(db: Db, caller: Caller, verb: Verb, typeId: string, id: Id, ifMatch: IfMatch, payload: Record)
    requires Prepare(db, caller, verb, typeId, id, ifMatch, payload).Ok?
    ensures ifMatch == Tag(Prepare(db, caller, verb, typeId, id, ifMatch, payload).value.expected)
  {
    hide Assemble, EffectiveRank;
  }

  /** An orphan that nobody writes stays one. */
  lemma OrphanKept(db: Db, after: Db, e: Effect, id: Id)
    requires HasEffect(db, after, e) && Orphaned(db, id) && db.access.types.Keys <= db.minted && id in db.minted
    requires e.Wrote? ==> e.id != id
    ensures if id in after.rows then after.rows[id] == db.rows[id] && Orphaned(after, id) else id in after.minted
  {
    hide ScopeParent;
  }

  lemma OrphanStaysFrozen(db: Db, caller: Caller, req: Request, id: Id)
    requires Good(db) && Orphaned(db, id)
    ensures var after := Handle(db, caller, req).db;
      if id in after.rows then after.rows[id] == db.rows[id] && Orphaned(after, id) else id in after.minted
  {
    hide RowGood, WellFormed, M.Sound, ItemWrite, HasEffect;
    if req.Write? && req.id == id {
      OrphanWritesFail(db, caller, req.verb, req.typeId, id, req.ifMatch, req.payload);
    } else {
      hide Handle;
      var e := EffectOf(db, caller, req);
      OrphanKept(db, Handle(db, caller, req).db, e, id);
    }
  }

  /** Ids are never handed out again. */
  lemma MintedStayGone(db: Db, caller: Caller, req: Request, id: Id)
    requires Good(db) && id in db.minted && id !in db.rows
    ensures var after := Handle(db, caller, req).db; id in after.minted && id !in after.rows
  {
    hide Handle, Good;
    var e := EffectOf(db, caller, req);
  }

  /** An orphan's record never changes again, in any run: it can only be deleted. */
  lemma {:induction false} OrphansNeverChange(db: Db, steps: seq<Step>, id: Id)
    requires Good(db) && Orphaned(db, id)
    ensures var after := Run(db, steps);
      if id in after.rows then after.rows[id] == db.rows[id] && Orphaned(after, id) else id in after.minted
  {
    hide EffectiveRank, FinalOk, SpecVerdict, PrepareCreate, M.RequireRank, M.Sound;
    GoodKeys(db);
    if steps != [] {
      var n := |steps| - 1;
      var before := Run(db, steps[..n]);
      RunKeepsGood(db, steps[..n]);
      OrphansNeverChange(db, steps[..n], id);
      if id in before.rows {
        OrphanStaysFrozen(before, steps[n].caller, steps[n].request, id);
      } else {
        MintedStayGone(before, steps[n].caller, steps[n].request, id);
      }
    }
  }
}
