/** What each roster request answers and does, case by case, in terms of the tables alone. */
module RosterAnswers {
  import opened Prelude
  import opened Rbac
  import opened Server
  import opened Runs
  import M = Members

  /** The rank a caller acts with: the highest there is for an admin, else the one the resolver gives. */
  function Own(a: Access, caller: Caller, obj: Id): Option<int> {
    if caller.admin then Some(0x7fff_ffff) else EffectiveRank(a, caller.actor, obj)
  }

  predicate There(a: Access, id: Id, typeId: string) {
    id in a.types && a.types[id] == typeId
  }

  /** The caller may manage the roster, and hand out this role. */
  predicate MayHandOut(a: Access, caller: Caller, id: Id, role: string) {
    var own := Own(a, caller, id);
    own.Some? && own.value >= 3 && role in a.roles && a.roles[role] <= own.value
  }

  /** Why it may not, in the order in which the reasons are looked at. */
  predicate TooLow(a: Access, caller: Caller, id: Id, role: string) {
    var own := Own(a, caller, id);
    own.Some? && (own.value < 3 || (role in a.roles && a.roles[role] > own.value))
  }

  predicate NoSuchRole(a: Access, caller: Caller, id: Id, role: string) {
    var own := Own(a, caller, id);
    own.Some? && own.value >= 3 && role !in a.roles
  }

  /** The edge is an owner's, and there is no other owner. */
  ghost predicate SoleOwner(a: Access, id: Id, member: Id) {
    && (id, member) in a.members && a.members[(id, member)] == "owner"
    && forall k | k in a.members && k.0 == id && a.members[k] == "owner" :: k.1 == member
  }

  lemma SoleOwnerByCount(a: Access, id: Id, member: Id)
    requires (id, member) in a.members && a.members[(id, member)] == "owner"
    ensures |M.Owners(a, id)| <= 1 <==> SoleOwner(a, id, member)
  {
    var owners := M.Owners(a, id);
    assert (id, member).1 in owners;
    if |owners| <= 1 {
      forall k | k in a.members && k.0 == id && a.members[k] == "owner" ensures k.1 == member {
        assert k.1 in owners;
        if k.1 != member {
          SubsetIsSmaller({member, k.1}, owners);
        }
      }
    }
    if SoleOwner(a, id, member) {
      assert owners == {member};
    }
  }

  lemma SoleOwnerCounted(a: Access, id: Id, member: Id)
    ensures (id, member) in a.members && a.members[(id, member)] == M.OWNER && |M.Owners(a, id)| <= 1
      <==> SoleOwner(a, id, member)
  {
    if (id, member) in a.members && a.members[(id, member)] == M.OWNER { SoleOwnerByCount(a, id, member); }
  }

  lemma SubsetIsSmaller<T>(small: set<T>, large: set<T>)
    requires small <= large
    ensures |small| <= |large|
  {
    assert large == small + (large - small);
  }

  /** The manage gate in literals: no reach is not-found, a rank below three forbidden. */
  lemma ManageGate(a: Access, caller: Caller, obj: Id)
    ensures M.RequireRank(a, caller, obj, M.MANAGE_RANK) ==
      match Own(a, caller, obj)
      case None => Err(NotFound)
      case Some(rank) => if rank < 3 then Err(Forbidden) else Ok(rank)
  {
    hide EffectiveRank;
  }

  lemma GoodThere(db: Db, id: Id, typeId: string)
    requires Good(db)
    ensures M.ObjectExists(db.access, id, typeId) <==> There(db.access, id, typeId)
  {
    GoodKeys(db);
    hide Good;
  }

  /** A grant: who may send it, to whom, and every refusal. A role equal to the caller's own is handed out,
      one above it is not. */
  lemma GrantAnswer(db: Db, caller: Caller, typeId: string, id: Id, member: Id, role: string)
    requires Good(db)
    ensures var a, reply := db.access, Handle(db, caller, Grant(typeId, id, member, role));
      var own, may, closes := Own(a, caller, id), MayHandOut(a, caller, id, role), member in Principals(a, id);
      && (reply.result.Ok? <==> There(a, id, typeId) && may && !closes && member in a.types)
      && (reply.result == Err(NotFound) <==> !There(a, id, typeId) || own.None?)
      && (reply.result == Err(Forbidden) <==> There(a, id, typeId) && TooLow(a, caller, id, role))
      && (reply.result == Err(Conflict) <==> There(a, id, typeId) && may && closes)
      && (reply.result == Err(Unprocessable) <==>
            There(a, id, typeId) && (NoSuchRole(a, caller, id, role) || (may && !closes && member !in a.types)))
      && reply.db == if reply.result.Ok? then db.(access := a.(members := a.members[(id, member) := role])) else db
  {
    hide Good, Own, There, M.RequireRank, M.ObjectExists, Principals;
    GoodThere(db, id, typeId);
    ManageGate(db.access, caller, id);
  }

  /** A role change: as a grant, for an edge that is there, and not for the sole owner's demotion. */
  lemma ChangeRoleAnswer(db: Db, caller: Caller, typeId: string, id: Id, member: Id, role: string)
    requires Good(db)
    ensures var a, reply := db.access, Handle(db, caller, ChangeRole(typeId, id, member, role));
      var own, may, known := Own(a, caller, id), MayHandOut(a, caller, id, role), (id, member) in a.members;
      var demotesSole := SoleOwner(a, id, member) && role != "owner";
      && (reply.result.Ok? <==> There(a, id, typeId) && may && known && !demotesSole)
      && (reply.result == Err(NotFound) <==> !There(a, id, typeId) || own.None? || (may && !known))
      && (reply.result == Err(Forbidden) <==> There(a, id, typeId) && TooLow(a, caller, id, role))
      && (reply.result == Err(Conflict) <==> There(a, id, typeId) && may && demotesSole)
      && (reply.result == Err(Unprocessable) <==> There(a, id, typeId) && NoSuchRole(a, caller, id, role))
      && reply.db == if reply.result.Ok? then db.(access := a.(members := a.members[(id, member) := role])) else db
  {
    hide Good, Own, There, SoleOwner, M.RequireRank, M.ObjectExists, M.Owners;
    GoodThere(db, id, typeId);
    ManageGate(db.access, caller, id);
    SoleOwnerCounted(db.access, id, member);
  }

  /** A revoke: a member may always leave, anyone else must manage the roster, and the sole owner stays. */
  lemma RevokeAnswer(db: Db, caller: Caller, typeId: string, id: Id, member: Id)
    requires Good(db)
    ensures var a, reply := db.access, Handle(db, caller, Revoke(typeId, id, member));
      var own, known, leaves := Own(a, caller, id), There(a, id, typeId) && (id, member) in a.members, member == caller.actor;
      var may := leaves || (own.Some? && own.value >= 3);
      && (reply.result.Ok? <==> known && may && !SoleOwner(a, id, member))
      && (reply.result == Err(NotFound) <==> !known || (!leaves && own.None?))
      && (reply.result == Err(Forbidden) <==> known && !leaves && own.Some? && own.value < 3)
      && (reply.result == Err(Conflict) <==> known && may && SoleOwner(a, id, member))
      && reply.db == if reply.result.Ok? then db.(access := a.(members := a.members - {(id, member)})) else db
  {
    hide Good, Own, There, SoleOwner, M.RequireRank, M.ObjectExists, M.Owners;
    GoodThere(db, id, typeId);
    ManageGate(db.access, caller, id);
    SoleOwnerCounted(db.access, id, member);
  }

  /** Recording a close check: on a case with a mirror row, by a caller who manages its roster. */
  lemma RecordCheckAnswer(db: Db, caller: Caller, typeId: string, id: Id, name: string, passed: bool)
    requires Good(db)
    ensures var a, reply := db.access, Handle(db, caller, RecordCheck(typeId, id, name, passed));
      var own, known := Own(a, caller, id), typeId == "case" && There(a, id, "case");
      && (reply.result.Ok? <==> known && own.Some? && own.value >= 3 && id in db.mirror)
      && (reply.result == Err(NotFound) <==> !known || own.None?)
      && (reply.result == Err(Forbidden) <==> known && own.Some? && own.value < 3)
      && (reply.result == Err(Unprocessable) <==> known && own.Some? && own.value >= 3 && id !in db.mirror)
      && reply.db == if reply.result.Ok? then db.(checks := db.checks[(id, name) := passed]) else db
  {
    hide Good, Own, There, M.RequireRank, M.ObjectExists;
    GoodThere(db, id, typeId);
    ManageGate(db.access, caller, id);
  }
}
