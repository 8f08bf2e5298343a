/** Who can get at an object: by reach of it, or as a platform admin. The admin flag of a request is read
    from the caller's own actor record (crates/api/src/auth.rs), so a write of that record is a way in. */
module Outsiders {
  import opened Prelude
  import opened Fixpoint
  import opened Json
  import opened Registry
  import opened Objects
  import opened Rbac
  import opened Catalog
  import opened Server
  import opened Runs
  import opened Ranks
  import opened Authority
  import FieldPerms
  import M = Members

  const ACTOR := "actor"
  const ROLE := "platform_role"

  ghost predicate ActorReady(db: Db) {
    ACTOR in db.registry && db.registry[ACTOR] == ActorType()
  }

  predicate IsActor(db: Db, id: Id) {
    RowExists(db, id, ACTOR)
  }

  /** What the session lookup reads. */
  predicate AdminOf(db: Db, actor: Id) {
    IsActor(db, actor) && StrAt(db.rows[actor].data, ROLE) == Some("admin")
  }

  /** The caller a session yields: an actor that is there, with the flag its record gives it. */
  predicate SignedIn(db: Db, caller: Caller) {
    IsActor(db, caller.actor) && caller.admin == AdminOf(db, caller.actor)
  }

  // ---- what changes who is an admin ------------------------------------------------------------

  /** The request is a write of the record, and its UPDATE goes through. */
  ghost predicate Stores(db: Db, caller: Caller, req: Request, id: Id) {
    && req.Write? && req.id == id
    && var prepared := Prepare(db, caller, req.verb, req.typeId, id, req.ifMatch, req.payload);
       prepared.Ok? && Update(db, prepared.value).Ok?
  }

  /** The role a payload leaves: what it gives, else by PUT the default and by PATCH what was there. */
  predicate LeavesAdmin(verb: Verb, payload: Record, before: bool) {
    if ROLE in payload then payload[ROLE] == Str("admin") else verb.Patch? && before
  }

  lemma RoleField()
    ensures |ActorType().fields| == 7 && ActorType().fields[4].field == ROLE
    ensures ActorType().Field(ROLE) == Some(ActorType().fields[4]) && ActorType().fields[4].Writable()
    ensures ActorType().fields[4].Default() == Some(Str("member")) && ActorType().fields[4].permClass == "owner_grade"
  {
    hide EnumOptions;
    RoleFieldShape();
    hide ActorType;
    ActorTypeWellFormed();
    FindAt(ActorType().fields, 4);
  }

  lemma RoleFieldShape()
    ensures |ActorType().fields| == 7
    ensures var f := ActorType().fields[4]; f.field == ROLE && f.Writable() && f.permClass == "owner_grade"
    ensures ActorType().fields[4].Default() == Some(Str("member"))
  {}

  lemma RoleAfterPatch(existing: Record, payload: Record)
    ensures StrAt(PatchData(existing, payload), ROLE) == Some("admin")
      <==> LeavesAdmin(Patch, payload, StrAt(existing, ROLE) == Some("admin"))
  {
    if ROLE in payload {
      var merged := MergePatch(Obj(existing), Obj(payload));
      var old_ := if ROLE in existing then existing[ROLE] else Null;
      assert ROLE in merged.m <==> !payload[ROLE].Null?;
      assert !payload[ROLE].Null? ==> merged.m[ROLE] == MergePatch(old_, payload[ROLE]);
    } else {
      PatchKeepsOmittedKeys(existing, payload, ROLE);
      assert Lookup(PatchData(existing, payload), ROLE) == Lookup(existing, ROLE);
    }
  }

  lemma RoleAfterPut(existing: Record, payload: Record)
    ensures StrAt(PutData(ActorType(), existing, payload), ROLE) == Some("admin") <==> LeavesAdmin(Put, payload, false)
  {
    RoleField();
    hide ActorType, PutData;
    PutLookup(ActorType(), existing, payload, ROLE);
    assert Lookup(PutData(ActorType(), existing, payload), ROLE) == GivenOrDefault(ActorType().fields[4], payload);
  }

  lemma RoleAfterWrite(verb: Verb, existing: Record, payload: Record)
    ensures StrAt(Applied(ActorType(), verb, existing, payload), ROLE) == Some("admin")
      <==> LeavesAdmin(verb, payload, StrAt(existing, ROLE) == Some("admin"))
  {
    hide ActorType, PutData, PatchData, StrAt;
    RoleAfterPatch(existing, payload);
    RoleAfterPut(existing, payload);
  }

  /** The record after a write: the assembled one, or the one before. */
  lemma RowAfterWrite(db: Db, caller: Caller, req: Request)
    requires Good(db) && req.Write? && req.id in db.rows
    ensures var after := Handle(db, caller, req).db;
      && req.id in after.rows && after.access.types == db.access.types
      && if Stores(db, caller, req, req.id)
         then req.typeId in db.registry && RowExists(db, req.id, req.typeId)
           && after.rows[req.id].data == Applied(db.registry[req.typeId], req.verb, db.rows[req.id].data, req.payload)
         else after.rows[req.id] == db.rows[req.id]
  {
    hide Good, Prepare, Update, SyncMirror, Applied;
    QuietStepKeepsAccess(db, caller, req);
    var prepared := Prepare(db, caller, req.verb, req.typeId, req.id, req.ifMatch, req.payload);
    if prepared.Ok? {
      var p := prepared.value;
      PreparedFor(db, caller, req.verb, req.typeId, req.id, req.ifMatch, req.payload);
      PreparedData(db, caller, req.verb, req.typeId, req.id, req.ifMatch, req.payload);
      if Update(db, p).Ok? {
        StoredRow(db, p);
        if SyncMirror(Update(db, p).value, p.id, p.data, p.expected + 1).Ok? {
          SyncShape(Update(db, p).value, p.id, p.data, p.expected + 1);
        }
      }
    }
  }

  lemma PreparedData(db: Db, caller: Caller, verb: Verb, typeId: string, id: Id, ifMatch: IfMatch, payload: Record)
    requires Prepare(db, caller, verb, typeId, id, ifMatch, payload).Ok?
    ensures typeId in db.registry && id in db.rows
    ensures Prepare(db, caller, verb, typeId, id, ifMatch, payload).value.data == Applied(db.registry[typeId], verb, db.rows[id].data, payload)
  {
    hide Assemble, Applied;
    AssembledShape(db, caller, verb, typeId, id, payload);
  }

  lemma StoredRow(db: Db, p: Pending)
    requires Update(db, p).Ok?
    ensures p.id in Update(db, p).value.rows && Update(db, p).value.rows[p.id].data == p.data
  {}

  /** Exactly which requests decide whether an actor is an admin afterwards: an accepted write of its record
      that gives the role, or resets it, and the delete of the record. */
  lemma AdminAfter(db: Db, caller: Caller, req: Request, actor: Id)
    requires Good(db) && ActorReady(db) && IsActor(db, actor)
    ensures var after := Handle(db, caller, req).db;
      AdminOf(after, actor) <==>
        && actor in after.rows
        && if Stores(db, caller, req, actor) then LeavesAdmin(req.verb, req.payload, AdminOf(db, actor)) else AdminOf(db, actor)
  {
    hide Good, Stores, ActorType, Applied, StrAt, LeavesAdmin;
    GoodRowsMinted(db, actor);
    if req.Write? && req.id == actor {
      RowAfterWrite(db, caller, req);
      RoleAfterWrite(req.verb, db.rows[actor].data, req.payload);
      hide Handle;
    } else {
      assert !Stores(db, caller, req, actor) by { OnlyWritesStore(db, caller, req, actor); }
      hide Handle;
      var e := EffectOf(db, caller, req);
    }
  }

  lemma OnlyWritesStore(db: Db, caller: Caller, req: Request, id: Id)
    requires !(req.Write? && req.id == id)
    ensures !Stores(db, caller, req, id)
  {}

  /** The step makes the actor an admin. */
  ghost predicate Promotes(db: Db, step: Step, actor: Id) {
    && IsActor(db, actor) && Stores(db, step.caller, step.request, actor)
    && ROLE in step.request.payload && step.request.payload[ROLE] == Str("admin")
  }

  /** Giving the role takes, from a caller who is no admin, the rank on that record which the field asks
      for: owner, unless an override row says otherwise. */
  lemma PromotionNeedsTheFloor(db: Db, step: Step, actor: Id)
    requires Good(db) && ActorReady(db) && Promotes(db, step, actor)
    requires FieldPerms.RankOn(db.access, step.caller, actor) < MAX_I32
    ensures FieldPerms.RankOn(db.access, step.caller, actor)
      >= FieldPerms.FieldFloors(db.access.roles, db.perms, ActorType().typeId, ActorType().fields[4]).write
    ensures db.perms == map[] ==> FieldPerms.RankOn(db.access, step.caller, actor) >= 4
  {
    hide Good, Prepare, Update, ActorType, Assemble, FieldPerms.RankOn, FieldPerms.WritesAllowed, FieldPerms.FieldFloors;
    var req := step.request;
    PreparedFor(db, step.caller, req.verb, req.typeId, actor, req.ifMatch, req.payload);
    AssembledOk(db, step.caller, req.verb, req.typeId, actor, req.ifMatch, req.payload);
    AssembledIsAllowed(db, step.caller, req.verb, req.typeId, actor, req.payload);
    RoleFloor(db.access.roles, db.perms, FieldPerms.RankOn(db.access, step.caller, actor), req.payload.Keys);
  }

  lemma RoleFloor(roles: map<string, int>, perms: FieldPerms.Overrides, rank: int, written: set<string>)
    requires FieldPerms.WritesAllowed(roles, perms, ActorType(), rank, written) && ROLE in written && rank < MAX_I32
    ensures rank >= FieldPerms.FieldFloors(roles, perms, ActorType().typeId, ActorType().fields[4]).write
    ensures perms == map[] ==> rank >= 4
  {
    hide ActorType, FieldPerms.FieldFloors;
    RoleField();
    assert FieldPerms.MayWrite(roles, perms, ActorType(), rank, ROLE);
    if perms == map[] { OwnerGradeFloor(roles, ActorType().typeId, ActorType().fields[4]); }
  }

  lemma OwnerGradeFloor(roles: map<string, int>, typeId: string, f: FieldDef)
    requires f.permClass == "owner_grade"
    ensures FieldPerms.FieldFloors(roles, map[], typeId, f).write == 4
  {}

  lemma AssembledOk(db: Db, caller: Caller, verb: Verb, typeId: string, id: Id, ifMatch: IfMatch, payload: Record)
    requires Prepare(db, caller, verb, typeId, id, ifMatch, payload).Ok?
    ensures typeId in db.registry && id in db.rows && Assemble(db, caller, verb, typeId, id, payload).Ok?
  {
    hide Assemble;
  }

  // ---- what gives reach ------------------------------------------------------------------------

  /** The request is an accepted grant to somebody the actor stands for, on the object or an ancestor the
      climb visits, or on a team that has reach of the object. */
  ghost predicate Admits(a: Access, caller: Caller, req: Request, obj: Id, actor: Id) {
    && req.Grant? && M.AddMember(a, caller, req.typeId, req.id, req.member, req.role).Ok?
    && req.member in Principals(a, actor)
    && (req.id in Climb(a.parents, obj, 0) || (req.typeId == TEAM && EffectiveRank(a, req.id, obj).Some?))
  }

  lemma GrantGivesReachIff(a: Access, typeId: string, id: Id, member: Id, role: string, actor: Id, obj: Id)
    requires M.ObjectExists(a, id, typeId) && role in a.roles && EffectiveRank(a, actor, obj).None?
    ensures EffectiveRank(M.WithEdge(a, id, member, role), actor, obj).Some? <==>
      && member in Principals(a, actor)
      && (id in Climb(a.parents, obj, 0) || (typeId == TEAM && EffectiveRank(a, id, obj).Some?))
  {
    var after := M.WithEdge(a, id, member, role);
    PrincipalsAfterEdge(a, typeId, id, member, role, actor);
    hide Principals, Climb;
    if EffectiveRank(after, actor, obj).Some? {
      var k :| Counts(after, actor, obj, k);
      assert k != (id, member) ==> !Counts(a, actor, obj, k);
      if typeId == TEAM && k != (id, member) { assert Counts(a, id, obj, k); }
    }
    if member in Principals(a, actor) {
      if id in Climb(a.parents, obj, 0) { assert Counts(after, actor, obj, (id, member)); }
      if typeId == TEAM && EffectiveRank(a, id, obj).Some? {
        var k :| Counts(a, id, obj, k);
        assert Counts(after, actor, obj, k);
      }
    }
  }

  lemma PrincipalsAfterEdge(a: Access, typeId: string, id: Id, member: Id, role: string, actor: Id)
    requires M.ObjectExists(a, id, typeId)
    ensures Principals(M.WithEdge(a, id, member, role), actor) == Principals(a, actor)
      + (if typeId == TEAM && member in Principals(a, actor) then Principals(a, id) else {})
  {
    if typeId == TEAM {
      M.PrincipalsAfterJoining(a, id, member, role, actor);
    } else {
      M.OnlyJoiningAddsTeamEdges(a, typeId, id, member, role);
    }
  }

  lemma RoleChangeGivesNoReach(a: Access, caller: Caller, typeId: string, id: Id, member: Id, role: string, actor: Id, obj: Id)
    requires M.ForeignKeys(a) && M.SetMember(a, caller, typeId, id, member, role).Ok? && EffectiveRank(a, actor, obj).None?
    ensures EffectiveRank(M.SetMember(a, caller, typeId, id, member, role).value, actor, obj).None?
  {
    M.OnlyJoiningAddsTeamEdges(a, typeId, id, member, role);
    hide Climb, M.RequireRank, M.Owners;
    var after := M.WithEdge(a, id, member, role);
    assert forall k | Counts(after, actor, obj, k) :: Counts(a, actor, obj, k);
  }

  lemma GoodKeysHold(db: Db)
    requires Good(db)
    ensures M.ForeignKeys(db.access)
  {
    hide RowGood, WellFormed;
  }

  /** A request gives an actor without reach of the object reach of it exactly if it is such a grant,
      whoever sends it. */
  lemma ReachGainedIff(db: Db, caller: Caller, req: Request, obj: Id, actor: Id)
    requires Good(db) && obj in db.minted && EffectiveRank(db.access, actor, obj).None?
    ensures EffectiveRank(Handle(db, caller, req).db.access, actor, obj).Some? <==> Admits(db.access, caller, req, obj, actor)
  {
    hide Good, EffectiveRank, Principals, Climb, PrincipalsContain, M.RequireRank, M.Owners, M.ForeignKeys;
    GoodKeysHold(db);
    if req.Grant? {
      if M.AddMember(db.access, caller, req.typeId, req.id, req.member, req.role).Ok? {
        GrantGivesReachIff(db.access, req.typeId, req.id, req.member, req.role, actor, obj);
      }
    } else if req.ChangeRole? {
      if M.SetMember(db.access, caller, req.typeId, req.id, req.member, req.role).Ok? {
        RoleChangeGivesNoReach(db.access, caller, req.typeId, req.id, req.member, req.role, actor, obj);
      }
    } else {
      hide Handle;
      OnlyRostersRaiseRanks(db, caller, req, actor, obj);
    }
  }

  // ---- getting in -------------------------------------------------------------------------------

  /** The actor has reach of the object, or is an admin. */
  ghost predicate Inside(db: Db, obj: Id, actor: Id) {
    AdminOf(db, actor) || EffectiveRank(db.access, actor, obj).Some?
  }

  ghost predicate GetsIn(db: Db, step: Step, obj: Id, actor: Id) {
    Admits(db.access, step.caller, step.request, obj, actor) || Promotes(db, step, actor)
  }

  lemma BecomesAdminIff(db: Db, step: Step, actor: Id)
    requires Good(db) && ActorReady(db) && actor in db.minted && !AdminOf(db, actor)
    ensures AdminOf(Handle(db, step.caller, step.request).db, actor) <==> Promotes(db, step, actor)
  {
    hide Good, ActorReady, Prepare, Update, StrAt;
    if IsActor(db, actor) {
      AdminAfter(db, step.caller, step.request, actor);
      if Promotes(db, step, actor) { RowAfterWrite(db, step.caller, step.request); }
    } else {
      hide Handle;
      NoNewActor(db, step, actor);
    }
  }

  lemma NoNewActor(db: Db, step: Step, actor: Id)
    requires Good(db) && actor in db.minted && !IsActor(db, actor)
    ensures !IsActor(Handle(db, step.caller, step.request).db, actor)
  {
    hide Good, Handle;
    GoodKeys(db);
    var e := EffectOf(db, step.caller, step.request);
  }

  /** Who is outside gets in by a step exactly if the step grants it reach or makes it an admin. */
  lemma GetsInIff(db: Db, step: Step, obj: Id, actor: Id)
    requires Good(db) && ActorReady(db) && obj in db.minted && actor in db.minted && !Inside(db, obj, actor)
    ensures Inside(Handle(db, step.caller, step.request).db, obj, actor) <==> GetsIn(db, step, obj, actor)
  {
    hide Good, ActorReady, Handle, EffectiveRank, Admits, Promotes, AdminOf;
    ReachGainedIff(db, step.caller, step.request, obj, actor);
    BecomesAdminIff(db, step, actor);
  }

  // ---- whole runs -------------------------------------------------------------------------------

  ghost predicate AllOutside(db: Db, obj: Id, crowd: set<Id>) {
    forall actor | actor in crowd :: !Inside(db, obj, actor)
  }

  ghost predicate LetsIn(db: Db, step: Step, obj: Id, crowd: set<Id>) {
    exists actor | actor in crowd :: GetsIn(db, step, obj, actor)
  }

  /** Every step comes from a session of that moment. */
  ghost predicate AllSignedIn(db: Db, steps: seq<Step>) {
    forall i | 0 <= i < |steps| :: SignedIn(After(db, steps, i), steps[i].caller)
  }

  /** If a member of the crowd sent the step, the object's record is as it was. */
  ghost predicate HandsOff(db: Db, steps: seq<Step>, i: nat, obj: Id, crowd: set<Id>)
    requires i < |steps|
  {
    var before, after := After(db, steps, i), After(db, steps, i + 1);
    steps[i].caller.actor in crowd && obj in before.rows ==> obj in after.rows && after.rows[obj] == before.rows[obj]
  }

  lemma StepKeepsActorReady(db: Db, step: Step)
    requires Good(db) && ActorReady(db)
    ensures ActorReady(Handle(db, step.caller, step.request).db)
  {
    hide Good, Handle, ActorType;
    var e := EffectOf(db, step.caller, step.request);
  }

  lemma {:induction false} RunKeepsActorReady(db: Db, steps: seq<Step>)
    requires Good(db) && ActorReady(db)
    ensures ActorReady(Run(db, steps))
  {
    hide Good, Handle, ActorReady;
    if steps != [] {
      RunKeepsActorReady(db, steps[..|steps| - 1]);
      RunKeepsGood(db, steps[..|steps| - 1]);
      StepKeepsActorReady(Run(db, steps[..|steps| - 1]), steps[|steps| - 1]);
    }
  }

  /** What every moment of the run inherits. */
  lemma Meanwhile(db: Db, steps: seq<Step>, i: nat, obj: Id, crowd: set<Id>)
    requires Good(db) && ActorReady(db) && obj in db.minted && crowd <= db.minted && i <= |steps|
    ensures var now := After(db, steps, i); Good(now) && ActorReady(now) && obj in now.minted && crowd <= now.minted
  {
    hide Good, ActorReady, Handle;
    AfterIsGood(db, steps, i);
    RunKeepsActorReady(db, steps[..i]);
    MintedGrow(db, steps[..i]);
  }

  lemma CrowdGetsInIff(db: Db, step: Step, obj: Id, crowd: set<Id>)
    requires Good(db) && ActorReady(db) && obj in db.minted && crowd <= db.minted && AllOutside(db, obj, crowd)
    ensures AllOutside(Handle(db, step.caller, step.request).db, obj, crowd) <==> !LetsIn(db, step, obj, crowd)
  {
    hide Good, ActorReady, Handle, Inside, GetsIn;
    forall actor | actor in crowd
      ensures Inside(Handle(db, step.caller, step.request).db, obj, actor) <==> GetsIn(db, step, obj, actor)
    {
      GetsInIff(db, step, obj, actor);
    }
  }

  /** A caller who is outside leaves the record alone. */
  lemma OutsiderKeepsRow(db: Db, step: Step, obj: Id)
    requires Good(db) && obj in db.rows && SignedIn(db, step.caller) && !Inside(db, obj, step.caller.actor)
    ensures var after := Handle(db, step.caller, step.request).db; obj in after.rows && after.rows[obj] == db.rows[obj]
  {
    hide Good, Handle, EffectiveRank, AdminOf;
    RowChangesNeedRank(db, step.caller, step.request, obj);
  }

  /** In any run of anybody's requests, admins and insiders included: nobody of the crowd is ever inside,
      exactly if no step grants one of them reach or makes one of them an admin. As long as that is so, no
      request of theirs touches the object's record. */
  lemma OutsidersStayOutIff(db: Db, steps: seq<Step>, obj: Id, crowd: set<Id>)
    requires Good(db) && ActorReady(db) && obj in db.minted && crowd <= db.minted
    requires AllOutside(db, obj, crowd) && AllSignedIn(db, steps)
    ensures (forall i | 0 <= i <= |steps| :: AllOutside(After(db, steps, i), obj, crowd))
      <==> (forall i | 0 <= i < |steps| :: !LetsIn(After(db, steps, i), steps[i], obj, crowd))
    ensures forall i | 0 <= i < |steps| && AllOutside(After(db, steps, i), obj, crowd) :: HandsOff(db, steps, i, obj, crowd)
  {
    hide Good, ActorReady, Handle, AllOutside, LetsIn, After, SignedIn;
    var holds := (d: Db) => AllOutside(d, obj, crowd);
    var breaks := (d: Db, step: Step) => LetsIn(d, step, obj, crowd);
    forall i | 0 <= i < |steps| && AllOutside(After(db, steps, i), obj, crowd)
      ensures holds(After(db, steps, i + 1)) <==> !breaks(After(db, steps, i), steps[i])
      ensures HandsOff(db, steps, i, obj, crowd)
    {
      Meanwhile(db, steps, i, obj, crowd);
      AfterStep(db, steps, i);
      CrowdGetsInIff(After(db, steps, i), steps[i], obj, crowd);
      assert SignedIn(After(db, steps, i), steps[i].caller);
      if steps[i].caller.actor in crowd && obj in After(db, steps, i).rows {
        OneOutside(After(db, steps, i), obj, crowd, steps[i].caller.actor);
        OutsiderKeepsRow(After(db, steps, i), steps[i], obj);
      }
    }
    AlwaysIffNever(db, steps, holds, breaks);
    assert forall i | 0 <= i <= |steps| :: holds(After(db, steps, i)) == AllOutside(After(db, steps, i), obj, crowd);
    assert forall i | 0 <= i < |steps| :: breaks(After(db, steps, i), steps[i]) == LetsIn(After(db, steps, i), steps[i], obj, crowd);
  }

  lemma OneOutside(db: Db, obj: Id, crowd: set<Id>, actor: Id)
    requires AllOutside(db, obj, crowd) && actor in crowd
    ensures !Inside(db, obj, actor)
  {
    hide Inside;
  }

  // ---- the crowd on its own ---------------------------------------------------------------------

  /** The step puts into a team with reach of the object someone the actor stands for. */
  ghost predicate Gains(db: Db, step: Step, obj: Id, actor: Id) {
    && Joins(db.access, step.caller, step.request)
    && EffectiveRank(db.access, step.request.id, obj).Some?
    && step.request.member in Principals(db.access, actor)
  }

  /** What is open to a caller who is outside, short of the cap: putting somebody into a team, and writing
      an actor's role. */
  lemma TwoWaysIn(db: Db, step: Step, obj: Id, actor: Id)
    requires Good(db) && Outside(db, obj, step.caller.actor) && Outside(db, obj, actor) && !step.caller.admin
    ensures GetsIn(db, step, obj, actor) <==> Gains(db, step, obj, actor) || Promotes(db, step, actor)
  {
    hide Good, Promotes, EffectiveRank, Principals, Climb, Uncut, PrincipalsContain, M.RequireRank;
    var req, a := step.request, db.access;
    if req.Grant? && M.AddMember(a, step.caller, req.typeId, req.id, req.member, req.role).Ok? {
      ManagedElsewhere(db, step.caller, req.id, obj);
      if req.typeId == TEAM && (req.id, req.member) in a.members && req.member in Principals(a, actor) && EffectiveRank(a, req.id, obj).Some? {
        MembersHoldTheTeamsReach(a, req.id, req.member, actor, obj);
      }
    }
  }

  lemma MembersHoldTheTeamsReach(a: Access, team: Id, member: Id, actor: Id, obj: Id)
    requires (team, member) in a.members && team in a.types && a.types[team] == TEAM
    requires member in Principals(a, actor) && EffectiveRank(a, team, obj).Some?
    ensures EffectiveRank(a, actor, obj).Some?
  {
    ClosureFollows(TeamEdges(a), {actor}, member, team) by { assert (member, team) in TeamEdges(a); }
    StandingForIsNoLess(a, actor, team, obj);
  }

  /** One request from a crowd of callers who are outside leaves the record as it is, and lets one of them
      in exactly by a join into a team with reach or by a promotion. */
  lemma CrowdStep(db: Db, step: Step, obj: Id, crowd: set<Id>)
    requires Good(db) && ActorReady(db) && obj in db.rows && Uncut(db.access.parents, obj, 0) && crowd <= db.minted
    requires AllOutside(db, obj, crowd) && step.caller.actor in crowd && SignedIn(db, step.caller)
    ensures var after := Handle(db, step.caller, step.request).db;
      && obj in after.rows && after.rows[obj] == db.rows[obj] && Uncut(after.access.parents, obj, 0)
      && (AllOutside(after, obj, crowd) <==> !CrowdLetsIn(db, step, obj, crowd))
  {
    hide Good, ActorReady, Handle, EffectiveRank, Uncut, Gains, Promotes, GetsIn, AdminOf;
    GoodRowsMinted(db, obj);
    OneOutside(db, obj, crowd, step.caller.actor);
    OutsiderKeepsRow(db, step, obj);
    StepKeepsUncut(db, step.caller, step.request, obj);
    CrowdGetsInIff(db, step, obj, crowd);
    forall actor | actor in crowd
      ensures GetsIn(db, step, obj, actor) <==> Gains(db, step, obj, actor) || Promotes(db, step, actor)
    {
      TwoWaysIn(db, step, obj, actor);
    }
  }

  ghost predicate CrowdLetsIn(db: Db, step: Step, obj: Id, crowd: set<Id>) {
    exists actor | actor in crowd :: Gains(db, step, obj, actor) || Promotes(db, step, actor)
  }

  /** The crowd is outside, the object is there with the record `row`, and no cap cuts its climb. */
  ghost predicate Untouched(db: Db, obj: Id, crowd: set<Id>, row: Row) {
    && AllOutside(db, obj, crowd)
    && obj in db.rows && db.rows[obj] == row && Uncut(db.access.parents, obj, 0)
  }

  lemma CrowdStepUntouched(db: Db, step: Step, obj: Id, crowd: set<Id>, row: Row)
    requires Good(db) && ActorReady(db) && crowd <= db.minted && Untouched(db, obj, crowd, row)
    requires step.caller.actor in crowd && SignedIn(db, step.caller)
    ensures Untouched(Handle(db, step.caller, step.request).db, obj, crowd, row) <==> !CrowdLetsIn(db, step, obj, crowd)
  {
    hide Good, ActorReady, Handle, AllOutside, CrowdLetsIn, SignedIn, Uncut;
    CrowdStep(db, step, obj, crowd);
  }

  /** However many callers who are outside work together, and whatever they send: none of them ever gets in
      and the record stays as it was, exactly as long as no step puts one of them into a team with reach or
      makes one of them an admin. The object may have at most eight ancestors: beyond that, a caller can
      manage an ancestor and grant itself in from there. */
  lemma CrowdStaysOutIff(db: Db, steps: seq<Step>, obj: Id, crowd: set<Id>)
    requires Good(db) && ActorReady(db) && obj in db.rows && |AncestorsOf(db.access.parents, obj)| <= 8
    requires crowd <= db.minted && AllOutside(db, obj, crowd)
    requires AllSignedIn(db, steps) && forall step | step in steps :: step.caller.actor in crowd
    ensures (forall i | 0 <= i <= |steps| :: Untouched(After(db, steps, i), obj, crowd, db.rows[obj]))
      <==> (forall i | 0 <= i < |steps| :: !CrowdLetsIn(After(db, steps, i), steps[i], obj, crowd))
  {
    hide Good, ActorReady, Handle, AllOutside, CrowdLetsIn, After, SignedIn, AncestorsOf, Uncut;
    var row := db.rows[obj];
    var holds := (d: Db) => Untouched(d, obj, crowd, row);
    var breaks := (d: Db, step: Step) => CrowdLetsIn(d, step, obj, crowd);
    GoodForest(db);
    GoodRowsMinted(db, obj);
    UncutIffFewAncestors(db.access.parents, obj, 0);
    assert Untouched(db, obj, crowd, row);
    forall i | 0 <= i < |steps| && holds(After(db, steps, i))
      ensures holds(After(db, steps, i + 1)) <==> !breaks(After(db, steps, i), steps[i])
    {
      Meanwhile(db, steps, i, obj, crowd);
      AfterStep(db, steps, i);
      assert SignedIn(After(db, steps, i), steps[i].caller) && steps[i] in steps;
      CrowdStepUntouched(After(db, steps, i), steps[i], obj, crowd, row);
    }
    AlwaysIffNever(db, steps, holds, breaks);
    assert forall i | 0 <= i <= |steps| :: holds(After(db, steps, i)) == Untouched(After(db, steps, i), obj, crowd, row);
    assert forall i | 0 <= i < |steps| :: breaks(After(db, steps, i), steps[i]) == CrowdLetsIn(After(db, steps, i), steps[i], obj, crowd);
  }
}
