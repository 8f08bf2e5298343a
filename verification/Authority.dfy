/** What a caller needs to change what: every change to an object's row and roster is tied to the caller's
    rank on it; and when, exactly, callers who cannot reach an object can work their way in. */
module Authority {
  import opened Prelude
  import opened Fixpoint
  import opened Rbac
  import opened Server
  import opened Runs
  import opened Ranks
  import opened Relations
  import Gate
  import Registry
  import FieldPerms
  import Objects
  import Cases
  import Json
  import M = Members

  /** The caller's rank on the object, zero without reach. */
  function RankOrZero(a: Access, actor: Id, obj: Id): int {
    match EffectiveRank(a, actor, obj) case None => 0 case Some(rank) => rank
  }

  lemma AdmittedMayEdit(db: Db, caller: Caller, verb: Verb, typeId: string, id: Id, ifMatch: IfMatch, payload: Json.Record)
    requires Prepare(db, caller, verb, typeId, id, ifMatch, payload).Ok? && !caller.admin
    ensures RankOrZero(db.access, caller.actor, id) >= 2
  {
    hide Assemble, EffectiveRank;
  }

  lemma DeleterMayDelete(db: Db, caller: Caller, typeId: string, id: Id, ifMatch: IfMatch)
    requires ItemDelete(db, caller, typeId, id, ifMatch).result.Ok? && !caller.admin
    ensures RankOrZero(db.access, caller.actor, id) >= 3
  {
    hide EffectiveRank, RemoveRow;
  }

  lemma RefusedDeleteKeeps(db: Db, caller: Caller, typeId: string, id: Id, ifMatch: IfMatch)
    requires ItemDelete(db, caller, typeId, id, ifMatch).result.Err?
    ensures ItemDelete(db, caller, typeId, id, ifMatch).db == db
  {
    hide EffectiveRank, RemoveRow;
  }

  /** A record changes only at the hands of a caller of rank two or more on it, and goes only at those of
      rank three or more, whatever the request. */
  lemma RowChangesNeedRank(db: Db, caller: Caller, req: Request, obj: Id)
    requires Good(db) && obj in db.rows && !caller.admin
    ensures var after, rank := Handle(db, caller, req).db, RankOrZero(db.access, caller.actor, obj);
      if obj in after.rows then after.rows[obj] != db.rows[obj] ==> rank >= 2 else rank >= 3
  {
    hide Good, RankOrZero, Prepare, Finish, EffectiveRank, ItemDelete, CollCreate;
    GoodRowsMinted(db, obj);
    if req.Write? && req.id == obj && Prepare(db, caller, req.verb, req.typeId, obj, req.ifMatch, req.payload).Ok? {
      AdmittedMayEdit(db, caller, req.verb, req.typeId, obj, req.ifMatch, req.payload);
      WriteEffect(db, caller, req.verb, req.typeId, obj, req.ifMatch, req.payload);
    } else if req.DeleteObject? && req.id == obj {
      if ItemDelete(db, caller, req.typeId, obj, req.ifMatch).result.Ok? {
        DeleterMayDelete(db, caller, req.typeId, obj, req.ifMatch);
      } else {
        RefusedDeleteKeeps(db, caller, req.typeId, obj, req.ifMatch);
      }
      var e := DeleteEffect(db, caller, req.typeId, obj, req.ifMatch);
    } else if req.Write? && req.id == obj {
      assert Handle(db, caller, req).db == db;
    } else {
      hide Handle;
      var e := EffectOf(db, caller, req);
    }
  }

  lemma AssembledIsAllowed(db: Db, caller: Caller, verb: Verb, typeId: string, id: Id, payload: Json.Record)
    requires typeId in db.registry && id in db.rows
    requires Assemble(db, caller, verb, typeId, id, payload).Ok?
    ensures FieldPerms.WritesAllowed(db.access.roles, db.perms, db.registry[typeId],
                                     FieldPerms.RankOn(db.access, caller, id), payload.Keys)
  {
    hide Objects.InputOk, Applied, Objects.FinalOk, FieldPerms.WritesAllowed, FieldPerms.RankOn, Cases.ValidateCaseChange;
  }

  lemma FinishedData(db: Db, p: Pending)
    requires p.id in db.rows
    ensures var after := Finish(db, p).db;
      p.id in after.rows && (after.rows[p.id] == db.rows[p.id] || after.rows[p.id].data == p.data)
  {
    hide SyncMirror;
    if Update(db, p).Ok? && SyncMirror(Update(db, p).value, p.id, p.data, p.expected + 1).Ok? {
      SyncShape(Update(db, p).value, p.id, p.data, p.expected + 1);
    }
  }

  /** From request to stored record: a PATCH changes a key only if it is a field its caller's rank may
      write, by class or by override. */
  lemma PatchStaysWithinFloors(db: Db, caller: Caller, typeId: string, id: Id, ifMatch: IfMatch, payload: Json.Record, k: string)
    requires id in db.rows && FieldPerms.RankOn(db.access, caller, id) < MAX_I32
    requires id in Handle(db, caller, Write(Patch, typeId, id, ifMatch, payload)).db.rows
    requires var after := Handle(db, caller, Write(Patch, typeId, id, ifMatch, payload)).db;
      Json.Lookup(after.rows[id].data, k) != Json.Lookup(db.rows[id].data, k)
    ensures typeId in db.registry && Objects.IsWritable(db.registry[typeId], k)
    ensures FieldPerms.RankOn(db.access, caller, id) >=
      FieldPerms.FieldFloors(db.access.roles, db.perms, db.registry[typeId].typeId, db.registry[typeId].Field(k).value).write
  {
    hide Assemble, Finish, FieldPerms.WritesAllowed, FieldPerms.RankOn, FieldPerms.FieldFloors, Objects.InputOk, Objects.PatchData, Admit;
    if Prepare(db, caller, Patch, typeId, id, ifMatch, payload).Ok? {
      FinishedData(db, Prepare(db, caller, Patch, typeId, id, ifMatch, payload).value);
      AssembledShape(db, caller, Patch, typeId, id, payload);
      AssembledIsAllowed(db, caller, Patch, typeId, id, payload);
      FieldPerms.PatchRespectsFloors(db.access.roles, db.perms, db.registry[typeId],
                                     FieldPerms.RankOn(db.access, caller, id), db.rows[id].data, payload, k);
    }
  }

  /** From request to stored record: an accepted PUT stays within its caller's floors exactly when the
      fields it resets by omission are within them or already at their default. */
  lemma PutStaysWithinFloorsIff(db: Db, caller: Caller, typeId: string, id: Id, ifMatch: IfMatch, payload: Json.Record)
    requires Good(db) && id in db.rows && FieldPerms.RankOn(db.access, caller, id) < MAX_I32
    requires var after := Handle(db, caller, Write(Put, typeId, id, ifMatch, payload)).db;
      id in after.rows && after.rows[id] != db.rows[id]
    ensures typeId in db.registry
    ensures var td, rank := db.registry[typeId], FieldPerms.RankOn(db.access, caller, id);
      var before, after := db.rows[id].data, Handle(db, caller, Write(Put, typeId, id, ifMatch, payload)).db.rows[id].data;
      (forall k | Json.Lookup(after, k) != Json.Lookup(before, k) :: FieldPerms.MayWrite(db.access.roles, db.perms, td, rank, k))
      <==> (forall f | f in td.fields && f.Writable() && f.field !in payload ::
              FieldPerms.MayWrite(db.access.roles, db.perms, td, rank, f.field) || Json.Lookup(before, f.field) == f.Default())
  {
    hide Good, Assemble, Finish, FieldPerms.WritesAllowed, FieldPerms.RankOn, FieldPerms.MayWrite, Objects.InputOk, Objects.PutData, Admit;
    if Prepare(db, caller, Put, typeId, id, ifMatch, payload).Ok? {
      FinishedData(db, Prepare(db, caller, Put, typeId, id, ifMatch, payload).value);
      AssembledShape(db, caller, Put, typeId, id, payload);
      AssembledIsAllowed(db, caller, Put, typeId, id, payload);
      GoodNamesDiffer(db, typeId);
      FieldPerms.PutRespectsFloorsIff(db.access.roles, db.perms, db.registry[typeId],
                                      FieldPerms.RankOn(db.access, caller, id), db.rows[id].data, payload);
    }
  }

  lemma GoodNamesDiffer(db: Db, typeId: string)
    requires Good(db) && typeId in db.registry
    ensures Registry.DistinctFields(db.registry[typeId].fields)
  {
    hide M.Sound, RowGood;
  }

  // ---- rosters and checks ---------------------------------------------------------------------

  function EdgeAt(a: Access, obj: Id, member: Id): Option<string> {
    if (obj, member) in a.members then Some(a.members[(obj, member)]) else None
  }

  lemma RosterRequestNeedsRank(db: Db, caller: Caller, req: Request, obj: Id, member: Id)
    requires !caller.admin && (req.Grant? || req.ChangeRole? || req.Revoke?)
    requires EdgeAt(Handle(db, caller, req).db.access, obj, member) != EdgeAt(db.access, obj, member)
    ensures RankOrZero(db.access, caller.actor, obj) >= 3
      || (req.Revoke? && member == caller.actor && EdgeAt(Handle(db, caller, req).db.access, obj, member).None?)
  {
    hide EffectiveRank, PrincipalsContain, M.Owners;
  }

  lemma DeleteChangesEdges(db: Db, caller: Caller, typeId: string, id: Id, ifMatch: IfMatch, obj: Id, member: Id)
    requires EdgeAt(ItemDelete(db, caller, typeId, id, ifMatch).db.access, obj, member) != EdgeAt(db.access, obj, member)
    ensures ItemDelete(db, caller, typeId, id, ifMatch).result.Ok? && (id == obj || id == member)
    ensures id !in ItemDelete(db, caller, typeId, id, ifMatch).db.access.types
  {
    hide EffectiveRank, Gate.RequireAction;
  }

  lemma CreateChangesOwnEdges(db: Db, caller: Caller, typeId: string, payload: Json.Record, id: Id, obj: Id, member: Id)
    requires obj in db.minted
    ensures EdgeAt(CollCreate(db, caller, typeId, payload, id).db.access, obj, member) == EdgeAt(db.access, obj, member)
  {
    hide CollCreate;
    CreateAccess(db, caller, typeId, payload, id);
  }

  /** An object's roster changes only at the hands of a caller of rank three or more on it, apart from a
      member leaving and a member that is itself deleted. */
  lemma RosterChangesNeedRank(db: Db, caller: Caller, req: Request, obj: Id, member: Id)
    requires Good(db) && obj in db.rows && !caller.admin
    requires EdgeAt(Handle(db, caller, req).db.access, obj, member) != EdgeAt(db.access, obj, member)
    ensures var after := Handle(db, caller, req).db.access;
      || RankOrZero(db.access, caller.actor, obj) >= 3
      || (member == caller.actor && EdgeAt(after, obj, member).None?)
      || member !in after.types
  {
    hide Good, RankOrZero, EffectiveRank, EdgeAt, ItemDelete, CollCreate, ItemWrite;
    GoodRowsMinted(db, obj);
    match req {
      case CreateObject(typeId, payload, id) => CreateChangesOwnEdges(db, caller, typeId, payload, id, obj, member);
      case DeleteObject(typeId, id, ifMatch) =>
        DeleteChangesEdges(db, caller, typeId, id, ifMatch, obj, member);
        DeleterMayDelete(db, caller, typeId, id, ifMatch);
      case Write(_, _, _, _, _) => QuietStepKeepsAccess(db, caller, req);
      case RegisterType(_) => QuietStepKeepsAccess(db, caller, req);
      case RecordCheck(_, _, _, _) => QuietStepKeepsAccess(db, caller, req);
      case _ => RosterRequestNeedsRank(db, caller, req, obj, member);
    }
  }

  // ---- no way in ------------------------------------------------------------------------------

  /** A climb the cap does not cut is the whole chain, whatever depth it starts from. */
  lemma {:induction false} UncutClimbIsWhole(parents: map<Id, Option<Id>>, id: Id, early: nat, late: nat)
    requires early <= late <= DEPTH_CAP && Uncut(parents, id, late)
    ensures Climb(parents, id, early) == Climb(parents, id, late)
    decreases DEPTH_CAP - late
  {
    if id in parents && parents[id].Some? {
      UncutClimbIsWhole(parents, parents[id].value, early + 1, late + 1);
    }
  }

  lemma {:induction false} AncestorsClimbWithin(parents: map<Id, Option<Id>>, id: Id, depth: nat, x: Id)
    requires depth <= DEPTH_CAP && Uncut(parents, id, depth) && x in Climb(parents, id, depth)
    ensures forall y | y in Climb(parents, x, 0) :: y in Climb(parents, id, depth)
    decreases DEPTH_CAP - depth
  {
    if x == id {
      UncutClimbIsWhole(parents, id, 0, depth);
    } else {
      AncestorsClimbWithin(parents, parents[id].value, depth + 1, x);
    }
  }

  /** Reach of an ancestor is reach of the object, short of the cap. */
  lemma ReachComesDown(a: Access, actor: Id, obj: Id, ancestor: Id)
    requires Uncut(a.parents, obj, 0) && ancestor in Climb(a.parents, obj, 0)
    requires EffectiveRank(a, actor, ancestor).Some?
    ensures EffectiveRank(a, actor, obj).Some?
  {
    AncestorsClimbWithin(a.parents, obj, 0, ancestor);
    var k :| Counts(a, actor, ancestor, k);
    assert Counts(a, actor, obj, k);
  }

  /** An edge that is neither on the object nor above it does not matter to it. */
  lemma EdgeElsewhere(a: Access, id: Id, member: Id, role: string, actor: Id, obj: Id)
    requires id !in Climb(a.parents, obj, 0) && TeamEdges(M.WithEdge(a, id, member, role)) == TeamEdges(a)
    ensures EffectiveRank(M.WithEdge(a, id, member, role), actor, obj) == EffectiveRank(a, actor, obj)
  {
    hide Climb;
    SameCountsSameRank(a, M.WithEdge(a, id, member, role), actor, obj);
  }

  // ---- joining a team ------------------------------------------------------------------------

  /** The greater of two ranks, where none is less than any. */
  function Higher(x: Option<int>, y: Option<int>): Option<int> {
    if x.None? || (y.Some? && x.value < y.value) then y else x
  }

  /** The rank is the greatest that counts. */
  lemma RankIsGreatest(a: Access, actor: Id, obj: Id, r: Option<int>)
    requires r.None? ==> forall k :: !Counts(a, actor, obj, k)
    requires r.Some? ==> exists k :: Counts(a, actor, obj, k) && a.roles[a.members[k]] == r.value
    requires forall k | Counts(a, actor, obj, k) :: r.Some? && a.roles[a.members[k]] <= r.value
    ensures EffectiveRank(a, actor, obj) == r
  {}

  /** What counts for `actor` after a join is what counted for it, and, if the new member is on its side,
      what counts for the team. */
  lemma CountsAfterJoining(a: Access, team: Id, member: Id, role: string, actor: Id, obj: Id, k: (Id, Id))
    requires team in a.types && a.types[team] == TEAM && team !in Climb(a.parents, obj, 0)
    ensures Counts(M.WithEdge(a, team, member, role), actor, obj, k)
      <==> Counts(a, actor, obj, k) || (member in Principals(a, actor) && Counts(a, team, obj, k))
    ensures Counts(M.WithEdge(a, team, member, role), actor, obj, k) ==>
      k in a.members && M.WithEdge(a, team, member, role).members[k] == a.members[k]
  {
    M.PrincipalsAfterJoining(a, team, member, role, actor);
    hide Principals, Climb;
  }

  /** A join hands the team's rank on an object to everyone the new member stands for, and that is all. */
  lemma JoiningAddsTheTeamsRank(a: Access, team: Id, member: Id, role: string, actor: Id, obj: Id)
    requires team in a.types && a.types[team] == TEAM && team !in Climb(a.parents, obj, 0)
    ensures EffectiveRank(M.WithEdge(a, team, member, role), actor, obj) ==
      if member in Principals(a, actor) then Higher(EffectiveRank(a, actor, obj), EffectiveRank(a, team, obj))
      else EffectiveRank(a, actor, obj)
  {
    hide Principals, Climb, Counts, EffectiveRank;
    var after := M.WithEdge(a, team, member, role);
    var own, teams := EffectiveRank(a, actor, obj), EffectiveRank(a, team, obj);
    var r := if member in Principals(a, actor) then Higher(own, teams) else own;
    forall k
      ensures Counts(after, actor, obj, k) <==> Counts(a, actor, obj, k) || (member in Principals(a, actor) && Counts(a, team, obj, k))
      ensures Counts(after, actor, obj, k) ==> k in a.members && after.members[k] == a.members[k]
    {
      CountsAfterJoining(a, team, member, role, actor, obj, k);
    }
    CountsHasRole(a);
    CountsHasRole(after);
    if r.Some? {
      var k :| (Counts(a, actor, obj, k) || (member in Principals(a, actor) && Counts(a, team, obj, k)))
        && a.roles[a.members[k]] == r.value;
      assert Counts(after, actor, obj, k) && after.roles[after.members[k]] == r.value;
    }
    RankIsGreatest(after, actor, obj, r);
  }

  lemma CountsHasRole(a: Access)
    ensures forall actor, obj, k | Counts(a, actor, obj, k) :: k in a.members && a.members[k] in a.roles
  {
    hide Principals, Climb;
  }

  /** Whoever a member stands for has at least its rank. */
  lemma StandingForIsNoLess(a: Access, actor: Id, member: Id, obj: Id)
    requires member in Principals(a, actor)
    ensures RankLe(EffectiveRank(a, member, obj), EffectiveRank(a, actor, obj))
  {
    ClosureTransitive(TeamEdges(a), {actor}, member);
    hide Climb;
    assert forall k | Counts(a, member, obj, k) :: Counts(a, actor, obj, k);
  }

  /** The request is a grant that goes through and puts a new member into a team. */
  ghost predicate Joins(a: Access, caller: Caller, req: Request) {
    && req.Grant? && req.typeId == TEAM && (req.id, req.member) !in a.members
    && M.AddMember(a, caller, TEAM, req.id, req.member, req.role).Ok?
  }

  /** A caller without reach, and what stays so: the object is there and the cap does not cut its climb. */
  ghost predicate Outside(db: Db, obj: Id, actor: Id) {
    obj in db.rows && Uncut(db.access.parents, obj, 0) && EffectiveRank(db.access, actor, obj).None?
  }

  lemma ManagedElsewhere(db: Db, caller: Caller, id: Id, obj: Id)
    requires Outside(db, obj, caller.actor) && !caller.admin
    requires M.RequireRank(db.access, caller, id, M.MANAGE_RANK).Ok?
    ensures id !in Climb(db.access.parents, obj, 0)
  {
    hide EffectiveRank, Climb, Uncut;
    if id in Climb(db.access.parents, obj, 0) { ReachComesDown(db.access, caller.actor, obj, id); }
  }

  lemma JoinFromOutside(db: Db, caller: Caller, req: Request, obj: Id, actor: Id)
    requires Outside(db, obj, caller.actor) && !caller.admin && Joins(db.access, caller, req)
    ensures EffectiveRank(Handle(db, caller, req).db.access, actor, obj) ==
      if req.member in Principals(db.access, actor)
      then Higher(EffectiveRank(db.access, actor, obj), EffectiveRank(db.access, req.id, obj))
      else EffectiveRank(db.access, actor, obj)
  {
    hide EffectiveRank, Outside, Climb, PrincipalsContain, Principals, M.RequireRank, Higher;
    ManagedElsewhere(db, caller, req.id, obj);
    JoiningAddsTheTeamsRank(db.access, req.id, req.member, req.role, actor, obj);
  }

  lemma GrantFromOutside(db: Db, caller: Caller, req: Request, obj: Id, actor: Id)
    requires Outside(db, obj, caller.actor) && !caller.admin && req.Grant? && !Joins(db.access, caller, req)
    ensures EffectiveRank(Handle(db, caller, req).db.access, actor, obj) == EffectiveRank(db.access, actor, obj)
  {
    hide EffectiveRank, Outside, Climb, PrincipalsContain, M.RequireRank;
    if M.AddMember(db.access, caller, req.typeId, req.id, req.member, req.role).Ok? {
      ManagedElsewhere(db, caller, req.id, obj);
      M.OnlyJoiningAddsTeamEdges(db.access, req.typeId, req.id, req.member, req.role);
      EdgeElsewhere(db.access, req.id, req.member, req.role, actor, obj);
    }
  }

  lemma RoleChangeFromOutside(db: Db, caller: Caller, req: Request, obj: Id, actor: Id)
    requires Outside(db, obj, caller.actor) && !caller.admin && req.ChangeRole?
    ensures EffectiveRank(Handle(db, caller, req).db.access, actor, obj) == EffectiveRank(db.access, actor, obj)
  {
    hide EffectiveRank, Outside, Climb, M.Owners, M.RequireRank;
    if M.SetMember(db.access, caller, req.typeId, req.id, req.member, req.role).Ok? {
      ManagedElsewhere(db, caller, req.id, obj);
      M.OnlyJoiningAddsTeamEdges(db.access, req.typeId, req.id, req.member, req.role);
      EdgeElsewhere(db.access, req.id, req.member, req.role, actor, obj);
    }
  }

  /** Apart from a join, nobody's rank on an object rises by a request of a caller who cannot reach it. */
  lemma WithoutJoinNobodyRises(db: Db, caller: Caller, req: Request, obj: Id, actor: Id)
    requires Good(db) && Outside(db, obj, caller.actor) && !caller.admin && !Joins(db.access, caller, req)
    ensures RankLe(EffectiveRank(Handle(db, caller, req).db.access, actor, obj), EffectiveRank(db.access, actor, obj))
  {
    hide Good, EffectiveRank, Handle, Joins, Uncut;
    if req.Grant? {
      GrantFromOutside(db, caller, req, obj, actor);
    } else if req.ChangeRole? {
      RoleChangeFromOutside(db, caller, req, obj, actor);
    } else {
      GoodRowsMinted(db, obj);
      OnlyRostersRaiseRanks(db, caller, req, actor, obj);
    }
  }

  /** A request from a caller who cannot reach an object raises nobody's rank on it, exactly unless it
      puts into a team somebody who ranks lower on the object than the team does. */
  lemma OutsidersRaiseNobodyIff(db: Db, caller: Caller, req: Request, obj: Id)
    requires Good(db) && Outside(db, obj, caller.actor) && !caller.admin
    ensures (forall actor :: RankLe(EffectiveRank(Handle(db, caller, req).db.access, actor, obj), EffectiveRank(db.access, actor, obj)))
      <==> (Joins(db.access, caller, req) ==>
              RankLe(EffectiveRank(db.access, req.id, obj), EffectiveRank(db.access, req.member, obj)))
  {
    hide Good, EffectiveRank, Handle, M.AddMember, Uncut, Outside, Principals;
    var after := Handle(db, caller, req).db.access;
    if Joins(db.access, caller, req) {
      SelfIsPrincipal(db.access, req.member);
      JoinFromOutside(db, caller, req, obj, req.member);
      forall actor | RankLe(EffectiveRank(db.access, req.id, obj), EffectiveRank(db.access, req.member, obj))
        ensures RankLe(EffectiveRank(after, actor, obj), EffectiveRank(db.access, actor, obj))
      {
        JoinFromOutside(db, caller, req, obj, actor);
        if req.member in Principals(db.access, actor) { StandingForIsNoLess(db.access, actor, req.member, obj); }
      }
    } else {
      forall actor ensures RankLe(EffectiveRank(after, actor, obj), EffectiveRank(db.access, actor, obj)) {
        WithoutJoinNobodyRises(db, caller, req, obj, actor);
      }
    }
  }

  lemma SelfIsPrincipal(a: Access, actor: Id)
    ensures actor in Principals(a, actor)
  {
    ClosureHasSeeds(TeamEdges(a), {actor});
  }

  lemma {:induction false} UncutStays(before: map<Id, Option<Id>>, after: map<Id, Option<Id>>, id: Id, depth: nat)
    requires depth <= DEPTH_CAP && Uncut(before, id, depth) && id in before
    requires forall x | x in before && before[x].Some? :: before[x].value in before
    requires forall x | x in before && x in after && after[x].Some? :: after[x] == before[x]
    ensures Uncut(after, id, depth)
    decreases DEPTH_CAP - depth
  {
    if id in after && after[id].Some? {
      UncutStays(before, after, before[id].value, depth + 1);
    }
  }

  lemma StepKeepsUncut(db: Db, caller: Caller, req: Request, obj: Id)
    requires Good(db) && obj in db.rows && Uncut(db.access.parents, obj, 0)
    ensures Uncut(Handle(db, caller, req).db.access.parents, obj, 0)
  {
    hide Good, Handle, Uncut;
    GoodKeys(db);
    var e := EffectOf(db, caller, req);
    GoodMinted(db);
    UncutStays(db.access.parents, Handle(db, caller, req).db.access.parents, obj, 0);
  }

  lemma GoodForest(db: Db)
    requires Good(db)
    ensures Acyclic(ScopeEdges(db.access.parents))
  {
    GoodIsSound(db);
    hide Good;
  }

  /** The bound is needed: on a longer chain, whoever holds a managing role on the ancestor just beyond the
      climb has no reach of the object, and one grant to itself on the object's parent lets it in. */
  lemma LongChainsLetIn(types: map<Id, string>, parents: map<Id, Option<Id>>, roles: map<string, int>,
                        obj: Id, actor: Id, role: string) returns (a: Access)
    requires Acyclic(ScopeEdges(parents)) && |AncestorsOf(parents, obj)| > 8
    requires parents.Keys == types.Keys && forall id | id in parents && parents[id].Some? :: parents[id].value in types
    requires actor in types && role in roles && roles[role] >= M.MANAGE_RANK
    requires obj in parents && parents[obj] != Some(actor)
    ensures a.types == types && a.parents == parents && a.roles == roles
    ensures EffectiveRank(a, actor, obj).None? && parents[obj].Some?
    ensures var up := parents[obj].value;
      var r := M.AddMember(a, Caller(actor, false), types[up], up, actor, role);
      r.Ok? && EffectiveRank(r.value, actor, obj).Some?
  {
    UncutIffFewAncestors(parents, obj, 0);
    var up := parents[obj].value;
    AncestorsExcludeSelf(parents, obj);
    AncestorStep(parents, obj);
    var missed := MissedFrom(parents, up, obj);
    a := Access(types, parents, map[(missed, actor) := role], roles);
    SoleManager(a, actor, obj, up, missed, role);
    GrantLetsIn(a, actor, obj, up, role);
  }

  lemma SoleManager(a: Access, actor: Id, obj: Id, up: Id, missed: Id, role: string)
    requires a.members == map[(missed, actor) := role] && role in a.roles && actor != up
    requires missed !in Climb(a.parents, obj, 0) && missed in Climb(a.parents, up, 0)
    ensures EffectiveRank(a, actor, obj).None?
    ensures EffectiveRank(a, actor, up) == Some(a.roles[role])
    ensures !PrincipalsContain(a, up, actor)
  {
    ClosureHasSeeds(TeamEdges(a), {actor});
    assert forall k :: !Counts(a, actor, obj, k);
    assert Counts(a, actor, up, (missed, actor));
    ClosureWithin(TeamEdges(a), {up}, {up});
  }

  lemma GrantLetsIn(a: Access, actor: Id, obj: Id, up: Id, role: string)
    requires obj in a.parents && a.parents[obj] == Some(up) && up in a.parents && up in a.types
    requires actor in a.types && role in a.roles && a.roles[role] >= M.MANAGE_RANK
    requires EffectiveRank(a, actor, up) == Some(a.roles[role]) && !PrincipalsContain(a, up, actor)
    ensures var r := M.AddMember(a, Caller(actor, false), a.types[up], up, actor, role);
      r.Ok? && EffectiveRank(r.value, actor, obj).Some?
  {
    var after := M.WithEdge(a, up, actor, role);
    ClosureHasSeeds(TeamEdges(after), {actor});
    assert Climb(a.parents, obj, 0) == [obj] + Climb(a.parents, up, 1);
    assert Climb(a.parents, up, 1)[0] == up;
    assert Counts(after, actor, obj, (up, actor));
  }
}
