/** The membership guards (crates/api/src/members.rs): what each roster request does to the access tables,
    and what every sequence of them keeps. */
module Members {
  import opened Prelude
  import opened Fixpoint
  import opened Rbac

  const MANAGE_RANK: int := 3
  const OWNER := "owner"

  /** Admins bypass; no reach is a 404, reach below the floor a 403. */
  function RequireRank(a: Access, caller: Caller, obj: Id, minRank: int): (r: Result<int>)
    ensures caller.admin ==> r == Ok(MAX_I32)
    ensures r.Ok? && !caller.admin ==> EffectiveRank(a, caller.actor, obj) == Some(r.value) && r.value >= minRank
    ensures r.Err? ==> r.error == NotFound || r.error == Forbidden
    ensures r == Err(NotFound) <==> !caller.admin && EffectiveRank(a, caller.actor, obj).None?
  {
    if caller.admin then Ok(MAX_I32)
    else
      match EffectiveRank(a, caller.actor, obj)
      case None => Err(NotFound)
      case Some(rank) => if rank < minRank then Err(Forbidden) else Ok(rank)
  }

  predicate ObjectExists(a: Access, id: Id, typeId: string) {
    id in a.parents && id in a.types && a.types[id] == typeId
  }

  function Owners(a: Access, obj: Id): set<Id> {
    set k | k in a.members && k.0 == obj && a.members[k] == OWNER :: k.1
  }

  function WithEdge(a: Access, obj: Id, member: Id, role: string): Access {
    a.(members := a.members[(obj, member) := role])
  }

  function WithoutEdge(a: Access, obj: Id, member: Id): Access {
    a.(members := a.members - {(obj, member)})
  }

  /** POST members: manage authority, known role not above the caller's, cycle guard, then an upsert
      whose foreign key needs the member to exist. */
  function AddMember(a: Access, caller: Caller, typeId: string, id: Id, member: Id, role: string): Result<Access> {
    if !ObjectExists(a, id, typeId) then Err(NotFound)
    else match RequireRank(a, caller, id, MANAGE_RANK)
      case Err(e) => Err(e)
      case Ok(callerRank) =>
        if role !in a.roles then Err(Unprocessable)
        else if a.roles[role] > callerRank then Err(Forbidden)
        else if PrincipalsContain(a, id, member) then Err(Conflict)
        else if member !in a.types then Err(Unprocessable)
        else Ok(WithEdge(a, id, member, role))
  }

  /** PATCH members/:id: as above, for an edge that exists, and never the last owner's demotion. */
  function SetMember(a: Access, caller: Caller, typeId: string, id: Id, member: Id, role: string): Result<Access> {
    if !ObjectExists(a, id, typeId) then Err(NotFound)
    else match RequireRank(a, caller, id, MANAGE_RANK)
      case Err(e) => Err(e)
      case Ok(callerRank) =>
        if role !in a.roles then Err(Unprocessable)
        else if a.roles[role] > callerRank then Err(Forbidden)
        else if (id, member) !in a.members then Err(NotFound)
        else if a.members[(id, member)] == OWNER && role != OWNER && |Owners(a, id)| <= 1 then Err(Conflict)
        else Ok(WithEdge(a, id, member, role))
  }

  /** DELETE members/:id: manage authority or self-leave, and never the last owner. */
  function RemoveMember(a: Access, caller: Caller, typeId: string, id: Id, member: Id): Result<Access> {
    if !ObjectExists(a, id, typeId) then Err(NotFound)
    else if (id, member) !in a.members then Err(NotFound)
    else
      var gate := if member != caller.actor then RequireRank(a, caller, id, MANAGE_RANK) else Ok(0);
      if gate.Err? then Err(gate.error)
      else if a.members[(id, member)] == OWNER && |Owners(a, id)| <= 1 then Err(Conflict)
      else Ok(WithoutEdge(a, id, member))
  }

  /** The rows a create inserts: the entity, its data row's parent, and the creator's owner edge. */
  function InsertEntity(a: Access, id: Id, typeId: string, parent: Option<Id>, creator: Id): Access {
    Access(a.types[id := typeId], a.parents[id := parent], a.members[(id, creator) := OWNER], a.roles)
  }

  /** Deleting an entity cascades to its rows and edges and nulls the parent of its scope children. */
  function DeleteEntity(a: Access, id: Id): Access {
    Access(
      a.types - {id},
      map x | x in a.parents && x != id :: if a.parents[x] == Some(id) then None else a.parents[x],
      map k | k in a.members && k.0 != id && k.1 != id :: a.members[k],
      a.roles)
  }

  // ---- the invariant of every run ----------------------------------------------

  ghost predicate ForeignKeys(a: Access) {
    && a.parents.Keys == a.types.Keys
    && (forall id | id in a.parents && a.parents[id].Some? :: a.parents[id].value in a.types)
    && (forall k | k in a.members :: k.0 in a.types && k.1 in a.types && a.members[k] in a.roles)
  }

  ghost predicate Sound(a: Access) {
    && ForeignKeys(a)
    && OWNER in a.roles
    && Acyclic(TeamEdges(a))
    && Acyclic(ScopeEdges(a.parents))
  }

  lemma TeamEdgesWithEdge(a: Access, obj: Id, member: Id, role: string)
    ensures TeamEdges(WithEdge(a, obj, member, role)) ==
      TeamEdges(a) + (if obj in a.types && a.types[obj] == TEAM then {(member, obj)} else {})
  {
    var after := WithEdge(a, obj, member, role);
    assert after.members.Keys == a.members.Keys + {(obj, member)};
    assert (obj, member) in after.members;
  }

  /** The guard is exact for teams: the new edge closes a membership cycle iff the guard rejects it. */
  lemma CycleGuardIsExact(a: Access, team: Id, member: Id, role: string)
    requires Acyclic(TeamEdges(a)) && team in a.types && a.types[team] == TEAM
    ensures Acyclic(TeamEdges(WithEdge(a, team, member, role))) <==> !PrincipalsContain(a, team, member)
  {
    TeamEdgesWithEdge(a, team, member, role);
    AddEdgeAcyclic(TeamEdges(a), member, team);
  }

  lemma AddMemberKeepsSound(a: Access, caller: Caller, typeId: string, id: Id, member: Id, role: string)
    requires Sound(a) && AddMember(a, caller, typeId, id, member, role).Ok?
    ensures Sound(AddMember(a, caller, typeId, id, member, role).value)
  {
    if a.types[id] == TEAM {
      CycleGuardIsExact(a, id, member, role);
    } else {
      TeamEdgesWithEdge(a, id, member, role);
      assert TeamEdges(WithEdge(a, id, member, role)) == TeamEdges(a);
    }
  }

  lemma RoleChangeKeepsTeamEdges(a: Access, id: Id, member: Id, role: string)
    requires (id, member) in a.members
    ensures TeamEdges(WithEdge(a, id, member, role)) == TeamEdges(a)
  {
    TeamEdgesWithEdge(a, id, member, role);
  }

  lemma SetMemberKeepsSound(a: Access, caller: Caller, typeId: string, id: Id, member: Id, role: string)
    requires Sound(a) && SetMember(a, caller, typeId, id, member, role).Ok?
    ensures Sound(SetMember(a, caller, typeId, id, member, role).value)
  {
    RoleChangeKeepsTeamEdges(a, id, member, role);
  }

  lemma RemoveShrinks(a: Access, id: Id, member: Id)
    ensures Shrinks(a, WithoutEdge(a, id, member))
  {
    var after := WithoutEdge(a, id, member);
    forall e | e in TeamEdges(after) ensures e in TeamEdges(a) {
      var k :| k in after.members && k.0 in after.types && after.types[k.0] == TEAM && e == (k.1, k.0);
      assert k in a.members;
    }
  }

  lemma RemoveMemberKeepsSound(a: Access, caller: Caller, typeId: string, id: Id, member: Id)
    requires Sound(a) && RemoveMember(a, caller, typeId, id, member).Ok?
    ensures Sound(RemoveMember(a, caller, typeId, id, member).value)
  {
    RemoveShrinks(a, id, member);
    AcyclicSubset(TeamEdges(a), TeamEdges(WithoutEdge(a, id, member)));
  }

  /** A fresh row has no edges out of it yet, so its own edges close nothing. */
  lemma FreshEdgeKeepsAcyclic(edges: set<(Id, Id)>, from: Id, leaf: Id)
    requires Acyclic(edges) && from != leaf
    requires forall e | e in edges :: e.0 != leaf
    ensures Acyclic(edges + {(from, leaf)})
  {
    ClosureWithin(edges, {leaf}, {leaf});
    AddEdgeAcyclic(edges, from, leaf);
  }

  lemma InsertKeepsTeamsAcyclic(a: Access, id: Id, typeId: string, parent: Option<Id>, creator: Id)
    requires ForeignKeys(a) && Acyclic(TeamEdges(a)) && id !in a.types && creator in a.types
    ensures Acyclic(TeamEdges(InsertEntity(a, id, typeId, parent, creator)))
  {
    var after := InsertEntity(a, id, typeId, parent, creator);
    forall e | e in TeamEdges(after) ensures e in TeamEdges(a) + {(creator, id)} {
      var k :| k in after.members && k.0 in after.types && after.types[k.0] == TEAM && e == (k.1, k.0);
      if k != (id, creator) { assert k in a.members && k.0 != id; }
    }
    assert forall e | e in TeamEdges(a) :: e.0 != id;
    FreshEdgeKeepsAcyclic(TeamEdges(a), creator, id);
    AcyclicSubset(TeamEdges(a) + {(creator, id)}, TeamEdges(after));
  }

  lemma InsertKeepsScopeAcyclic(parents: map<Id, Option<Id>>, id: Id, parent: Option<Id>)
    requires Acyclic(ScopeEdges(parents)) && id !in parents
    requires forall x | x in parents && parents[x].Some? :: parents[x].value != id
    requires parent != Some(id)
    ensures Acyclic(ScopeEdges(parents[id := parent]))
  {
    var after := parents[id := parent];
    var scope := ScopeEdges(parents);
    assert forall e | e in scope :: e.0 != id;
    if parent.Some? {
      FreshEdgeKeepsAcyclic(scope, parent.value, id);
      AcyclicSubset(scope + {(parent.value, id)}, ScopeEdges(after));
    } else {
      AcyclicSubset(scope, ScopeEdges(after));
    }
  }

  lemma InsertKeepsSound(a: Access, id: Id, typeId: string, parent: Option<Id>, creator: Id)
    requires Sound(a) && id !in a.types && creator in a.types
    requires parent.Some? ==> parent.value in a.types
    ensures Sound(InsertEntity(a, id, typeId, parent, creator))
  {
    InsertKeepsTeamsAcyclic(a, id, typeId, parent, creator);
    InsertKeepsScopeAcyclic(a.parents, id, parent);
  }

  lemma DeleteShrinks(a: Access, id: Id)
    ensures Shrinks(a, DeleteEntity(a, id))
    ensures ScopeEdges(DeleteEntity(a, id).parents) <= ScopeEdges(a.parents)
  {
    var after := DeleteEntity(a, id);
    forall e | e in TeamEdges(after) ensures e in TeamEdges(a) {
      var k :| k in after.members && k.0 in after.types && after.types[k.0] == TEAM && e == (k.1, k.0);
      assert k in a.members && k.0 in a.types;
    }
  }

  lemma DeleteKeepsSound(a: Access, id: Id)
    requires Sound(a)
    ensures Sound(DeleteEntity(a, id))
  {
    DeleteShrinks(a, id);
    var after := DeleteEntity(a, id);
    AcyclicSubset(TeamEdges(a), TeamEdges(after));
    AcyclicSubset(ScopeEdges(a.parents), ScopeEdges(after.parents));
    assert after.parents.Keys == after.types.Keys;
  }

  // ---- no escalation -------------------------------------------------------------

  /** `now` is within `cap` or no higher than `before`. */
  ghost predicate Bounded(now: Option<int>, before: Option<int>, cap: int) {
    now.Some? && now.value > cap ==> RankLe(now, before)
  }

  /** No actor's rank on any object rose above `cap`. */
  ghost predicate NoEscalation(before: Access, after: Access, cap: int) {
    forall actor, obj ::
      Bounded(EffectiveRank(after, actor, obj), EffectiveRank(before, actor, obj), cap)
  }

  /** Writing an edge that leaves the team edges alone lifts ranks at most to the role it names. */
  lemma SameTeamsNoEscalation(a: Access, id: Id, member: Id, role: string, cap: int)
    requires role in a.roles && a.roles[role] <= cap
    requires TeamEdges(WithEdge(a, id, member, role)) == TeamEdges(a)
    ensures NoEscalation(a, WithEdge(a, id, member, role), cap)
  {
    var after := WithEdge(a, id, member, role);
    forall actor, obj
      ensures Bounded(EffectiveRank(after, actor, obj), EffectiveRank(a, actor, obj), cap)
    {
      forall k | Counts(after, actor, obj, k) && k != (id, member) ensures Counts(a, actor, obj, k) {}
    }
  }

  /** A role change lifts no rank above the caller's own. */
  lemma SetMemberNeverEscalates(a: Access, caller: Caller, typeId: string, id: Id, member: Id, role: string)
    requires SetMember(a, caller, typeId, id, member, role).Ok?
    ensures NoEscalation(a, SetMember(a, caller, typeId, id, member, role).value,
                         RequireRank(a, caller, id, MANAGE_RANK).value)
  {
    RoleChangeKeepsTeamEdges(a, id, member, role);
    SameTeamsNoEscalation(a, id, member, role, RequireRank(a, caller, id, MANAGE_RANK).value);
  }

  lemma RemoveMemberNeverRaises(a: Access, id: Id, member: Id, actor: Id, obj: Id)
    ensures RankLe(EffectiveRank(WithoutEdge(a, id, member), actor, obj), EffectiveRank(a, actor, obj))
  {
    RemoveShrinks(a, id, member);
    ShrinkingNeverRaises(a, WithoutEdge(a, id, member), actor, obj);
  }

  lemma DeleteNeverRaises(a: Access, id: Id, actor: Id, obj: Id)
    ensures RankLe(EffectiveRank(DeleteEntity(a, id), actor, obj), EffectiveRank(a, actor, obj))
  {
    DeleteShrinks(a, id);
    ShrinkingNeverRaises(a, DeleteEntity(a, id), actor, obj);
  }

  /** Joining a team passes on what the team itself holds; this says that nobody thereby gains a rank
      above `cap`. */
  ghost predicate TeamHoldsNoMore(a: Access, team: Id, member: Id, cap: int) {
    forall actor, obj | member in Principals(a, actor) ::
      Bounded(EffectiveRank(a, team, obj), EffectiveRank(a, actor, obj), cap)
  }

  lemma OnlyJoiningAddsTeamEdges(a: Access, typeId: string, id: Id, member: Id, role: string)
    requires ObjectExists(a, id, typeId) && (typeId == TEAM ==> (id, member) in a.members)
    ensures TeamEdges(WithEdge(a, id, member, role)) == TeamEdges(a)
  {
    TeamEdgesWithEdge(a, id, member, role);
    assert typeId == TEAM ==> (member, id) in TeamEdges(a);
  }

  /** A grant escalates exactly when it puts a new member into a team that holds, somewhere, a rank
      above both the granter's and that member's. Grants on other objects never do. */
  lemma GrantEscalatesOnlyThroughTeams(a: Access, caller: Caller, typeId: string, id: Id, member: Id, role: string)
    requires AddMember(a, caller, typeId, id, member, role).Ok?
    ensures var cap := RequireRank(a, caller, id, MANAGE_RANK).value;
      NoEscalation(a, AddMember(a, caller, typeId, id, member, role).value, cap)
      <==> (typeId == TEAM && (id, member) !in a.members ==> TeamHoldsNoMore(a, id, member, cap))
  {
    var cap := RequireRank(a, caller, id, MANAGE_RANK).value;
    if typeId == TEAM && (id, member) !in a.members {
      JoiningATeam(a, id, member, role, cap);
    } else {
      OnlyJoiningAddsTeamEdges(a, typeId, id, member, role);
      SameTeamsNoEscalation(a, id, member, role, cap);
    }
  }

  lemma PrincipalsAfterJoining(a: Access, team: Id, member: Id, role: string, actor: Id)
    requires team in a.types && a.types[team] == TEAM
    ensures Principals(WithEdge(a, team, member, role), actor)
         == Principals(a, actor) + (if member in Principals(a, actor) then Principals(a, team) else {})
  {
    TeamEdgesWithEdge(a, team, member, role);
    ClosureAfterAddEdge(TeamEdges(a), member, team, actor);
  }

  lemma JoiningATeam(a: Access, team: Id, member: Id, role: string, cap: int)
    requires team in a.types && a.types[team] == TEAM && (team, member) !in a.members
    requires member !in Principals(a, team)
    requires role in a.roles && a.roles[role] <= cap
    ensures NoEscalation(a, WithEdge(a, team, member, role), cap) <==> TeamHoldsNoMore(a, team, member, cap)
  {
    var after := WithEdge(a, team, member, role);
    forall actor, obj
      ensures member in Principals(a, actor) ==>
        RankLe(EffectiveRank(a, team, obj), EffectiveRank(after, actor, obj))
      ensures Bounded(EffectiveRank(after, actor, obj), EffectiveRank(a, actor, obj), cap)
        || (member in Principals(a, actor) && RankLe(EffectiveRank(after, actor, obj), EffectiveRank(a, team, obj)))
    {
      PrincipalsAfterJoining(a, team, member, role, actor);
      forall k | Counts(a, team, obj, k) && member in Principals(a, actor) ensures Counts(after, actor, obj, k) {
        assert k != (team, member);
      }
      forall k | Counts(after, actor, obj, k) && k != (team, member)
        ensures Counts(a, actor, obj, k) || (member in Principals(a, actor) && Counts(a, team, obj, k))
      {}
    }
    if TeamHoldsNoMore(a, team, member, cap) {
      forall actor, obj ensures Bounded(EffectiveRank(after, actor, obj), EffectiveRank(a, actor, obj), cap) {
        if member in Principals(a, actor) {
          assert Bounded(EffectiveRank(a, team, obj), EffectiveRank(a, actor, obj), cap);
        }
      }
    }
    if NoEscalation(a, after, cap) {
      forall actor, obj | member in Principals(a, actor)
        ensures Bounded(EffectiveRank(a, team, obj), EffectiveRank(a, actor, obj), cap)
      {
        assert Bounded(EffectiveRank(after, actor, obj), EffectiveRank(a, actor, obj), cap);
      }
    }
  }

  // ---- owners ----------------------------------------------------------------------

  lemma OwnersWithEdge(a: Access, id: Id, member: Id, role: string, obj: Id)
    ensures Owners(WithEdge(a, id, member, role), obj) ==
      if obj != id then Owners(a, obj)
      else if role == OWNER then Owners(a, obj) + {member}
      else Owners(a, obj) - {member}
  {
    var after := WithEdge(a, id, member, role);
    forall m ensures m in Owners(after, obj) <==> (obj, m) in after.members && after.members[(obj, m)] == OWNER {
      assert (obj, m) in after.members && after.members[(obj, m)] == OWNER ==> (obj, m).1 in Owners(after, obj);
    }
    forall m ensures m in Owners(a, obj) <==> (obj, m) in a.members && a.members[(obj, m)] == OWNER {
      assert (obj, m) in a.members && a.members[(obj, m)] == OWNER ==> (obj, m).1 in Owners(a, obj);
    }
  }

  lemma OwnersWithoutEdge(a: Access, id: Id, member: Id, obj: Id)
    ensures Owners(WithoutEdge(a, id, member), obj) == if obj == id then Owners(a, obj) - {member} else Owners(a, obj)
  {
    var after := WithoutEdge(a, id, member);
    forall m ensures m in Owners(after, obj) <==> (obj, m) in after.members && after.members[(obj, m)] == OWNER {
      assert (obj, m) in after.members && after.members[(obj, m)] == OWNER ==> (obj, m).1 in Owners(after, obj);
    }
    forall m ensures m in Owners(a, obj) <==> (obj, m) in a.members && a.members[(obj, m)] == OWNER {
      assert (obj, m) in a.members && a.members[(obj, m)] == OWNER ==> (obj, m).1 in Owners(a, obj);
    }
  }

  lemma SoleMember(s: set<Id>, x: Id)
    requires x in s
    ensures s - {x} == {} <==> |s| <= 1
  {
    assert |s - {x}| == |s| - 1;
  }

  /** A role change leaves every owned object owned. */
  lemma SetMemberKeepsOwners(a: Access, caller: Caller, typeId: string, id: Id, member: Id, role: string, obj: Id)
    requires SetMember(a, caller, typeId, id, member, role).Ok? && Owners(a, obj) != {}
    ensures Owners(SetMember(a, caller, typeId, id, member, role).value, obj) != {}
  {
    OwnersWithEdge(a, id, member, role, obj);
    if obj == id && member in Owners(a, id) {
      SoleMember(Owners(a, id), member);
    }
  }

  lemma RemoveMemberKeepsOwners(a: Access, caller: Caller, typeId: string, id: Id, member: Id, obj: Id)
    requires RemoveMember(a, caller, typeId, id, member).Ok? && Owners(a, obj) != {}
    ensures Owners(RemoveMember(a, caller, typeId, id, member).value, obj) != {}
  {
    OwnersWithoutEdge(a, id, member, obj);
    if obj == id && member in Owners(a, id) {
      SoleMember(Owners(a, id), member);
    }
  }

  /** A grant has no last-owner guard: it orphans the object exactly when it names the sole owner with
      another role. */
  lemma AddMemberOrphansOnlyByDemotion(a: Access, caller: Caller, typeId: string, id: Id, member: Id, role: string, obj: Id)
    requires AddMember(a, caller, typeId, id, member, role).Ok? && Owners(a, obj) != {}
    ensures Owners(AddMember(a, caller, typeId, id, member, role).value, obj) == {}
      <==> obj == id && role != OWNER && Owners(a, id) == {member}
  {
    OwnersWithEdge(a, id, member, role, obj);
  }

  /** Deleting an entity orphans exactly the other objects it alone owned. */
  lemma DeleteOrphansOnlyOwnedAlone(a: Access, id: Id, obj: Id)
    requires obj != id && Owners(a, obj) != {}
    ensures Owners(DeleteEntity(a, id), obj) == {} <==> Owners(a, obj) == {id}
  {
    var after := DeleteEntity(a, id);
    assert Owners(after, obj) == Owners(a, obj) - {id} by {
      forall m ensures m in Owners(after, obj) <==> m in Owners(a, obj) && m != id {
        assert (obj, m) in after.members && after.members[(obj, m)] == OWNER ==> (obj, m).1 in Owners(after, obj);
        assert (obj, m) in a.members && a.members[(obj, m)] == OWNER ==> (obj, m).1 in Owners(a, obj);
      }
    }
  }
}
