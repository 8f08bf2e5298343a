/** Who can gain what, and who owns what, over whole runs of requests. */
module Ranks {
  import opened Prelude
  import opened Rbac
  import opened Fixpoint
  import opened Server
  import opened Runs
  import M = Members
  import Cases
  import Gate
  import Json
  import Types

  // ---- creating an object changes no rank on any other -------------------------------

  lemma {:induction false} ClimbAvoidsNewRow(parents: map<Id, Option<Id>>, id: Id, parent: Option<Id>, obj: Id, depth: nat)
    requires depth <= DEPTH_CAP && obj != id && id !in parents
    requires forall x | x in parents && parents[x].Some? :: parents[x].value != id
    ensures Climb(parents[id := parent], obj, depth) == Climb(parents, obj, depth)
    ensures id !in Climb(parents, obj, depth)
    decreases DEPTH_CAP - depth
  {
    if obj in parents && parents[obj].Some? && depth < DEPTH_CAP {
      ClimbAvoidsNewRow(parents, id, parent, parents[obj].value, depth + 1);
    }
  }

  lemma PrincipalsAfterInsert(a: Access, id: Id, typeId: string, parent: Option<Id>, creator: Id, actor: Id)
    requires M.ForeignKeys(a) && id !in a.types
    ensures Principals(a, actor) <= Principals(M.InsertEntity(a, id, typeId, parent, creator), actor)
    ensures Principals(M.InsertEntity(a, id, typeId, parent, creator), actor) <= Principals(a, actor) + {id}
  {
    var after := M.InsertEntity(a, id, typeId, parent, creator);
    assert TeamEdges(a) <= TeamEdges(after);
    ClosureMonotone(TeamEdges(a), {actor}, TeamEdges(after), {actor});
    ClosureHasSeeds(TeamEdges(a), {actor});
    forall e | e in TeamEdges(after) && e.0 in Principals(a, actor) + {id}
      ensures e.1 in Principals(a, actor) + {id}
    {
      var k :| k in after.members && k.0 in after.types && after.types[k.0] == TEAM && e == (k.1, k.0);
      if k.0 != id {
        assert k in a.members && k.1 in a.types;
        assert e in TeamEdges(a);
        ClosureFollows(TeamEdges(a), {actor}, e.0, e.1);
      }
    }
    ClosureWithin(TeamEdges(after), {actor}, Principals(a, actor) + {id});
  }

  lemma InsertKeepsRanks(a: Access, id: Id, typeId: string, parent: Option<Id>, creator: Id, actor: Id, obj: Id)
    requires M.ForeignKeys(a) && id !in a.types && obj != id
    ensures EffectiveRank(M.InsertEntity(a, id, typeId, parent, creator), actor, obj) == EffectiveRank(a, actor, obj)
  {
    hide Principals, Climb, EffectiveRank;
    var after := M.InsertEntity(a, id, typeId, parent, creator);
    ClimbAvoidsNewRow(a.parents, id, parent, obj, 0);
    PrincipalsAfterInsert(a, id, typeId, parent, creator, actor);
    forall k ensures Counts(after, actor, obj, k) <==> Counts(a, actor, obj, k) {
      if Counts(after, actor, obj, k) { assert k.0 != id; }
    }
    SameCountsSameRank(a, after, actor, obj);
  }

  // ---- requests and runs ------------------------------------------------------------------

  /** The rank the roster guards let a caller act with. */
  ghost predicate ActsWithin(db: Db, caller: Caller, id: Id, cap: int) {
    var rank := M.RequireRank(db.access, caller, id, M.MANAGE_RANK);
    rank.Ok? ==> rank.value <= cap
  }

  /** The step acts with a rank of at most `cap`, and a team it puts a new member into holds nowhere more
      than `cap` and what that member's side already has. */
  ghost predicate Modest(db: Db, step: Step, cap: int) {
    match step.request
    case Grant(typeId, id, member, role) =>
      && ActsWithin(db, step.caller, id, cap)
      && (typeId == TEAM && (id, member) !in db.access.members
          && M.AddMember(db.access, step.caller, typeId, id, member, role).Ok? ==>
            M.TeamHoldsNoMore(db.access, id, member, cap))
    case ChangeRole(_, id, _, _) => ActsWithin(db, step.caller, id, cap)
    case _ => true
  }

  lemma GrantBounded(a: Access, caller: Caller, typeId: string, id: Id, member: Id, role: string, cap: int)
    requires M.AddMember(a, caller, typeId, id, member, role).Ok?
    requires M.RequireRank(a, caller, id, M.MANAGE_RANK).value <= cap
    ensures M.NoEscalation(a, M.AddMember(a, caller, typeId, id, member, role).value, cap)
      <==> (typeId == TEAM && (id, member) !in a.members ==> M.TeamHoldsNoMore(a, id, member, cap))
  {
    hide EffectiveRank, M.NoEscalation, M.TeamHoldsNoMore, TeamEdges;
    if typeId == TEAM && (id, member) !in a.members {
      M.JoiningATeam(a, id, member, role, cap);
    } else {
      M.OnlyJoiningAddsTeamEdges(a, typeId, id, member, role);
      M.SameTeamsNoEscalation(a, id, member, role, cap);
    }
  }

  lemma RosterStepBounded(db: Db, step: Step, cap: int, actor: Id, obj: Id)
    requires Modest(db, step, cap) && (step.request.Grant? || step.request.ChangeRole?)
    ensures M.Bounded(EffectiveRank(Handle(db, step.caller, step.request).db.access, actor, obj),
                      EffectiveRank(db.access, actor, obj), cap)
  {
    hide EffectiveRank, M.TeamHoldsNoMore;
    var a := db.access;
    match step.request {
      case Grant(typeId, id, member, role) =>
        if M.AddMember(a, step.caller, typeId, id, member, role).Ok? {
          GrantBounded(a, step.caller, typeId, id, member, role, cap);
        }
      case ChangeRole(typeId, id, member, role) =>
        var r := M.SetMember(a, step.caller, typeId, id, member, role);
        if r.Ok? {
          M.SetMemberNeverEscalates(a, step.caller, typeId, id, member, role);
          assert M.Bounded(EffectiveRank(r.value, actor, obj), EffectiveRank(a, actor, obj),
                           M.RequireRank(a, step.caller, id, M.MANAGE_RANK).value);
        }
    }
  }

  lemma DeleteStepNeverRaises(db: Db, caller: Caller, typeId: string, id: Id, ifMatch: IfMatch, actor: Id, obj: Id)
    ensures RankLe(EffectiveRank(ItemDelete(db, caller, typeId, id, ifMatch).db.access, actor, obj), EffectiveRank(db.access, actor, obj))
  {
    M.DeleteNeverRaises(db.access, id, actor, obj);
    hide EffectiveRank, M.DeleteEntity, Gate.RequireAction;
  }

  lemma RevokeStepNeverRaises(db: Db, caller: Caller, typeId: string, id: Id, member: Id, actor: Id, obj: Id)
    ensures RankLe(EffectiveRank(Handle(db, caller, Revoke(typeId, id, member)).db.access, actor, obj), EffectiveRank(db.access, actor, obj))
  {
    M.RemoveMemberNeverRaises(db.access, id, member, actor, obj);
    hide EffectiveRank, M.WithoutEdge, M.RequireRank, M.Owners;
  }

  /** Apart from grants and role changes, no request raises anybody's rank on an object that was ever
      there: not creating, writing, deleting, revoking, registering a type or recording a check. */
  lemma OnlyRostersRaiseRanks(db: Db, caller: Caller, req: Request, actor: Id, obj: Id)
    requires Good(db) && obj in db.minted && !req.Grant? && !req.ChangeRole?
    ensures RankLe(EffectiveRank(Handle(db, caller, req).db.access, actor, obj), EffectiveRank(db.access, actor, obj))
  {
    hide Good, EffectiveRank, ItemDelete, CollCreate, ItemWrite, M.RemoveMember;
    match req {
      case CreateObject(typeId, payload, id) => CreateKeepsRanks(db, caller, typeId, payload, id, actor, obj);
      case DeleteObject(typeId, id, ifMatch) => DeleteStepNeverRaises(db, caller, typeId, id, ifMatch, actor, obj);
      case Revoke(typeId, id, member) => RevokeStepNeverRaises(db, caller, typeId, id, member, actor, obj);
      case _ =>
        QuietStepKeepsAccess(db, caller, req);
        hide Handle;
    }
  }

  lemma CreateAccess(db: Db, caller: Caller, typeId: string, payload: Json.Record, id: Id)
    ensures var access := CollCreate(db, caller, typeId, payload, id).db.access;
      || access == db.access
      || (id !in db.minted && caller.actor in db.access.types
          && exists parent :: access == M.InsertEntity(db.access, id, typeId, parent, caller.actor))
  {
    hide PrepareCreate, MirrorKeysExist, Cases.GuardRaises, M.InsertEntity;
    var prepared := PrepareCreate(db, caller, typeId, payload);
    if prepared.Ok? {
      assert CollCreate(db, caller, typeId, payload, id).db.access == db.access
        || CollCreate(db, caller, typeId, payload, id).db.access
           == M.InsertEntity(db.access, id, typeId, prepared.value.parent, caller.actor);
    }
  }

  lemma CreateKeepsRanks(db: Db, caller: Caller, typeId: string, payload: Json.Record, id: Id, actor: Id, obj: Id)
    requires Good(db) && obj in db.minted
    ensures EffectiveRank(CollCreate(db, caller, typeId, payload, id).db.access, actor, obj) == EffectiveRank(db.access, actor, obj)
  {
    GoodMinted(db);
    CreateAccess(db, caller, typeId, payload, id);
    hide Good, EffectiveRank, CollCreate, M.InsertEntity, M.ForeignKeys;
    var access := CollCreate(db, caller, typeId, payload, id).db.access;
    if access != db.access {
      var parent :| access == M.InsertEntity(db.access, id, typeId, parent, caller.actor);
      InsertKeepsRanks(db.access, id, typeId, parent, caller.actor, actor, obj);
    }
  }

  lemma GoodMinted(db: Db)
    requires Good(db)
    ensures db.access.types.Keys <= db.minted && M.ForeignKeys(db.access)
  {}

  ghost predicate AllModest(db: Db, steps: seq<Step>, cap: int) {
    forall i | 0 <= i < |steps| :: Modest(Run(db, steps[..i]), steps[i], cap)
  }

  lemma {:induction false} MintedGrow(db: Db, steps: seq<Step>)
    requires Good(db)
    ensures db.minted <= Run(db, steps).minted
  {
    hide Handle, Good;
    if steps != [] {
      var n := |steps| - 1;
      MintedGrow(db, steps[..n]);
      RunKeepsGood(db, steps[..n]);
      var e := EffectOf(Run(db, steps[..n]), steps[n].caller, steps[n].request);
    }
  }

  lemma AllModestPrefix(db: Db, steps: seq<Step>, cap: int)
    requires AllModest(db, steps, cap) && steps != []
    ensures AllModest(db, steps[..|steps| - 1], cap)
    ensures Modest(Run(db, steps[..|steps| - 1]), steps[|steps| - 1], cap)
  {
    hide Modest, Run;
    var n := |steps| - 1;
    forall i | 0 <= i < n ensures Modest(Run(db, steps[..n][..i]), steps[..n][i], cap) {
      assert steps[..n][..i] == steps[..i];
      assert Modest(Run(db, steps[..i]), steps[i], cap);
    }
  }

  lemma ModestStepBounded(db: Db, step: Step, cap: int, actor: Id, obj: Id)
    requires Good(db) && obj in db.minted && Modest(db, step, cap)
    ensures M.Bounded(EffectiveRank(Handle(db, step.caller, step.request).db.access, actor, obj),
                      EffectiveRank(db.access, actor, obj), cap)
  {
    hide Good, EffectiveRank, Handle, Modest;
    if step.request.Grant? || step.request.ChangeRole? {
      RosterStepBounded(db, step, cap, actor, obj);
    } else {
      OnlyRostersRaiseRanks(db, step.caller, step.request, actor, obj);
    }
  }

  /** No run of requests acting with ranks up to `cap` lifts anybody above `cap` on any object, whoever
      they are and however the requests are chosen, as long as no team takes in a new member to whom it
      would hand more. An admin acts with the highest rank there is, so the cap also says that no step comes
      from an admin; whether one does is an input of the step here (module Outsiders derives it). */
  lemma {:induction false} RunsNeverEscalate(db: Db, steps: seq<Step>, cap: int, actor: Id, obj: Id)
    requires Good(db) && obj in db.minted && AllModest(db, steps, cap)
    ensures M.Bounded(EffectiveRank(Run(db, steps).access, actor, obj), EffectiveRank(db.access, actor, obj), cap)
  {
    hide Good, EffectiveRank, Handle, Modest, AllModest;
    if steps != [] {
      var n := |steps| - 1;
      AllModestPrefix(db, steps, cap);
      RunsNeverEscalate(db, steps[..n], cap, actor, obj);
      RunKeepsGood(db, steps[..n]);
      MintedGrow(db, steps[..n]);
      ModestStepBounded(Run(db, steps[..n]), steps[n], cap, actor, obj);
    }
  }

  /** A team that owns a project; `u` administers the team, `v` is a newcomer. */
  const NEST := Access(
    map["T" := TEAM, "P" := "project", "u" := "actor", "v" := "actor"],
    map["T" := None, "P" := None, "u" := None, "v" := None],
    map[("T", "u") := "admin", ("P", "T") := "owner"],
    map["viewer" := 1, "member" := 2, "admin" := 3, "owner" := 4])

  lemma NestPrincipals()
    ensures Principals(NEST, "T") == {"T"} && Principals(NEST, "v") == {"v"} && Principals(NEST, "u") == {"u", "T"}
  {
    var edges := TeamEdges(NEST);
    forall e ensures e in edges <==> e == ("u", "T") {
      assert ("T", "u") in NEST.members;
    }
    ClosureWithin(edges, {"T"}, {"T"});
    ClosureWithin(edges, {"v"}, {"v"});
    ClosureWithin(edges, {"u"}, {"u", "T"});
    ClosureHasSeeds(edges, {"T"});
    ClosureHasSeeds(edges, {"v"});
    ClosureHasSeeds(edges, {"u"});
    ClosureFollows(edges, {"u"}, "u", "T");
  }

  lemma NestRanks()
    ensures EffectiveRank(NEST, "u", "T") == Some(3)
    ensures EffectiveRank(NEST, "T", "P") == Some(4)
    ensures EffectiveRank(NEST, "v", "P") == None
  {
    NestPrincipals();
    hide Principals;
    assert Counts(NEST, "u", "T", ("T", "u")) && forall k | Counts(NEST, "u", "T", k) :: k == ("T", "u");
    assert Counts(NEST, "T", "P", ("P", "T")) && forall k | Counts(NEST, "T", "P", k) :: k == ("P", "T");
    assert forall k :: !Counts(NEST, "v", "P", k);
  }

  /** A team's own rank is what a grant on it hands over. Here a team admin (rank 3) takes a newcomer into
      the team, and the newcomer's rank on the team's project becomes 4. */
  lemma TeamGrantEscalates()
    ensures var r := M.AddMember(NEST, Caller("u", false), TEAM, "T", "v", "viewer");
      && M.RequireRank(NEST, Caller("u", false), "T", M.MANAGE_RANK) == Ok(3)
      && r.Ok? && !M.NoEscalation(NEST, r.value, 3)
  {
    NestPrincipals();
    NestRanks();
    hide EffectiveRank, Principals;
    M.GrantEscalatesOnlyThroughTeams(NEST, Caller("u", false), TEAM, "T", "v", "viewer");
    assert !M.Bounded(EffectiveRank(NEST, "T", "P"), EffectiveRank(NEST, "v", "P"), 3);
    assert "v" in Principals(NEST, "v");
  }

  // ---- owners -------------------------------------------------------------------------------

  /** The step goes through and leaves the object without an owner: it re-grants its sole owner a lesser
      role, or deletes its sole owner. */
  ghost predicate Disowns(db: Db, step: Step, obj: Id) {
    match step.request
    case Grant(typeId, id, member, role) =>
      && M.AddMember(db.access, step.caller, typeId, id, member, role).Ok?
      && id == obj && role != M.OWNER && M.Owners(db.access, obj) == {member}
    case DeleteObject(typeId, id, ifMatch) =>
      && ItemDelete(db, step.caller, typeId, id, ifMatch).result.Ok?
      && id != obj && M.Owners(db.access, obj) == {id}
    case _ => false
  }

  /** Every object has an owner, apart from the exempt ones (actors that sign-in created have none). */
  ghost predicate AllOwned(db: Db, exempt: set<Id>) {
    forall obj | obj in db.access.types && obj !in exempt :: M.Owners(db.access, obj) != {}
  }

  lemma InsertOwners(a: Access, id: Id, typeId: string, parent: Option<Id>, creator: Id, obj: Id)
    requires M.ForeignKeys(a) && id !in a.types
    ensures M.Owners(M.InsertEntity(a, id, typeId, parent, creator), obj) == if obj == id then {creator} else M.Owners(a, obj)
  {
    M.OwnersWithEdge(a, id, creator, M.OWNER, obj);
    assert M.Owners(a, id) == {};
    assert M.InsertEntity(a, id, typeId, parent, creator).members == M.WithEdge(a, id, creator, M.OWNER).members;
  }

  lemma RosterStepDisownsIff(db: Db, step: Step, obj: Id)
    requires M.Owners(db.access, obj) != {}
    requires step.request.Grant? || step.request.ChangeRole? || step.request.Revoke?
    ensures M.Owners(Handle(db, step.caller, step.request).db.access, obj) == {} <==> Disowns(db, step, obj)
  {
    hide M.AddMember, M.SetMember, M.RemoveMember;
    var a := db.access;
    match step.request {
      case Grant(typeId, id, member, role) =>
        if M.AddMember(a, step.caller, typeId, id, member, role).Ok? {
          M.AddMemberOrphansOnlyByDemotion(a, step.caller, typeId, id, member, role, obj);
        }
      case ChangeRole(typeId, id, member, role) =>
        if M.SetMember(a, step.caller, typeId, id, member, role).Ok? {
          M.SetMemberKeepsOwners(a, step.caller, typeId, id, member, role, obj);
        }
      case Revoke(typeId, id, member) =>
        if M.RemoveMember(a, step.caller, typeId, id, member).Ok? {
          M.RemoveMemberKeepsOwners(a, step.caller, typeId, id, member, obj);
        }
    }
  }

  lemma CreateKeepsOwners(db: Db, caller: Caller, typeId: string, payload: Json.Record, id: Id, exempt: set<Id>, obj: Id)
    requires Good(db) && AllOwned(db, exempt)
    ensures var after := CollCreate(db, caller, typeId, payload, id).db.access;
      obj in after.types && obj !in exempt ==> M.Owners(after, obj) != {}
  {
    GoodMinted(db);
    CreateAccess(db, caller, typeId, payload, id);
    hide Good, CollCreate, M.ForeignKeys, M.Owners;
    var access := CollCreate(db, caller, typeId, payload, id).db.access;
    if access != db.access {
      var parent :| access == M.InsertEntity(db.access, id, typeId, parent, caller.actor);
      InsertOwners(db.access, id, typeId, parent, caller.actor, obj);
    }
  }

  /** Writes, type registrations and checks leave the access tables alone. */
  lemma QuietStepKeepsAccess(db: Db, caller: Caller, req: Request)
    requires Good(db) && (req.Write? || req.RegisterType? || req.RecordCheck?)
    ensures Handle(db, caller, req).db.access == db.access
  {
    hide Good, Types.SpecVerdict, ItemWrite, M.RequireRank;
    if req.Write? {
      WriteKeepsGood(db, caller, req.verb, req.typeId, req.id, req.ifMatch, req.payload);
    }
  }

  lemma DeleteStepDisownsIff(db: Db, step: Step, obj: Id)
    requires step.request.DeleteObject? && obj in db.access.types && M.Owners(db.access, obj) != {}
    ensures var after := Handle(db, step.caller, step.request).db.access;
      obj in after.types ==> (M.Owners(after, obj) == {} <==> Disowns(db, step, obj))
    ensures Disowns(db, step, obj) ==> obj in Handle(db, step.caller, step.request).db.access.types
  {
    hide EffectiveRank, M.Owners, Gate.RequireAction;
    if obj != step.request.id {
      M.DeleteOrphansOnlyOwnedAlone(db.access, step.request.id, obj);
    }
  }

  /** A step leaves an object that had an owner without one exactly by disowning it. */
  lemma DisownsIff(db: Db, step: Step, obj: Id)
    requires Good(db) && obj in db.access.types && M.Owners(db.access, obj) != {}
    ensures var after := Handle(db, step.caller, step.request).db.access;
      obj in after.types && M.Owners(after, obj) == {} <==> Disowns(db, step, obj)
  {
    hide Good, M.Owners, ItemDelete, CollCreate, ItemWrite, M.AddMember, M.SetMember, M.RemoveMember;
    var req := step.request;
    if req.Grant? || req.ChangeRole? || req.Revoke? {
      RosterStepDisownsIff(db, step, obj);
      RosterShape(db.access, step.caller, req.typeId, req.id, req.member, if req.Revoke? then "" else req.role);
    } else if req.DeleteObject? {
      DeleteStepDisownsIff(db, step, obj);
    } else if req.CreateObject? {
      CreateKeepsOwnersOf(db, step.caller, req.typeId, req.payload, req.id, obj);
    } else {
      QuietStepKeepsAccess(db, step.caller, req);
    }
  }

  lemma CreateKeepsOwnersOf(db: Db, caller: Caller, typeId: string, payload: Json.Record, id: Id, obj: Id)
    requires Good(db) && obj in db.access.types
    ensures M.Owners(CollCreate(db, caller, typeId, payload, id).db.access, obj) == M.Owners(db.access, obj)
  {
    GoodMinted(db);
    CreateAccess(db, caller, typeId, payload, id);
    hide Good, CollCreate, M.ForeignKeys, M.Owners;
    var access := CollCreate(db, caller, typeId, payload, id).db.access;
    if access != db.access {
      var parent :| access == M.InsertEntity(db.access, id, typeId, parent, caller.actor);
      InsertOwners(db.access, id, typeId, parent, caller.actor, obj);
    }
  }

  /** The step disowns some object that is not exempt. */
  ghost predicate DisownsSome(db: Db, step: Step, exempt: set<Id>) {
    exists obj | obj in db.access.types && obj !in exempt :: Disowns(db, step, obj)
  }

  /** New objects are owned by their creator, so what is owned before is owned after unless disowned. */
  lemma StepKeepsOwnersIff(db: Db, step: Step, exempt: set<Id>)
    requires Good(db) && AllOwned(db, exempt)
    ensures AllOwned(Handle(db, step.caller, step.request).db, exempt) <==> !DisownsSome(db, step, exempt)
  {
    hide Handle, Good, M.Owners, Disowns;
    var after := Handle(db, step.caller, step.request).db;
    var e := EffectOf(db, step.caller, step.request);
    forall obj | obj in db.access.types && obj !in exempt
      ensures obj in after.access.types && M.Owners(after.access, obj) == {} <==> Disowns(db, step, obj)
    {
      DisownsIff(db, step, obj);
    }
    forall obj | obj in after.access.types && obj !in db.access.types && obj !in exempt
      ensures M.Owners(after.access, obj) != {}
    {
      assert step.request.CreateObject?;
      CreateStepKeepsOwners(db, step, exempt, obj);
    }
  }

  lemma CreateStepKeepsOwners(db: Db, step: Step, exempt: set<Id>, obj: Id)
    requires Good(db) && AllOwned(db, exempt) && step.request.CreateObject?
    ensures var after := Handle(db, step.caller, step.request).db.access;
      obj in after.types && obj !in exempt ==> M.Owners(after, obj) != {}
  {
    hide Good, CollCreate, M.Owners, AllOwned;
    CreateKeepsOwners(db, step.caller, step.request.typeId, step.request.payload, step.request.id, exempt, obj);
  }

  /** In any run, no object is ever without an owner exactly if no step re-grants a sole owner a lesser role
      or deletes one. */
  lemma RunsKeepOwnersIff(db: Db, steps: seq<Step>, exempt: set<Id>)
    requires Good(db) && AllOwned(db, exempt)
    ensures (forall i | 0 <= i <= |steps| :: AllOwned(After(db, steps, i), exempt))
      <==> (forall i | 0 <= i < |steps| :: !DisownsSome(After(db, steps, i), steps[i], exempt))
  {
    hide Good, AllOwned, DisownsSome, Handle, After;
    var holds := (d: Db) => AllOwned(d, exempt);
    var breaks := (d: Db, step: Step) => DisownsSome(d, step, exempt);
    forall i | 0 <= i < |steps| && holds(After(db, steps, i))
      ensures holds(After(db, steps, i + 1)) <==> !breaks(After(db, steps, i), steps[i])
    {
      AfterIsGood(db, steps, i);
      AfterStep(db, steps, i);
      StepKeepsOwnersIff(After(db, steps, i), steps[i], exempt);
    }
    AlwaysIffNever(db, steps, holds, breaks);
    assert forall i | 0 <= i <= |steps| :: holds(After(db, steps, i)) == AllOwned(After(db, steps, i), exempt);
    assert forall i | 0 <= i < |steps| :: breaks(After(db, steps, i), steps[i]) == DisownsSome(After(db, steps, i), steps[i], exempt);
  }

  /** The grant that disowns: an admin re-grants the sole owner a viewer role, and nobody owns the
      object any more. */
  lemma GrantCanOrphan(a: Access, admin: Id, typeId: string, id: Id, owner: Id)
    requires M.ObjectExists(a, id, typeId) && owner in a.types && "viewer" in a.roles && a.roles["viewer"] <= MAX_I32
    requires M.Owners(a, id) == {owner} && !PrincipalsContain(a, id, owner)
    ensures var r := M.AddMember(a, Caller(admin, true), typeId, id, owner, "viewer");
      r.Ok? && M.Owners(r.value, id) == {}
  {
    M.AddMemberOrphansOnlyByDemotion(a, Caller(admin, true), typeId, id, owner, "viewer", id);
  }
}
