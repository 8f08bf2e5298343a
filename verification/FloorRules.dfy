/** The rank floors in figures: which ranks pass for a field of each class, with and without override rows,
    and for each action on an object. */
module FloorRules {
  import opened Prelude
  import opened Json
  import opened Registry
  import opened Rbac
  import opened FieldPerms
  import Gate

  /** The row lets the role write the field, or read it, and the role is known. */
  predicate LetsWrite(roles: map<string, int>, perms: Overrides, typeId: string, field: string, k: (string, string, string)) {
    k in perms && k.0 == typeId && k.1 == field && k.2 in roles && perms[k].canWrite
  }

  predicate LetsRead(roles: map<string, int>, perms: Overrides, typeId: string, field: string, k: (string, string, string)) {
    k in perms && k.0 == typeId && k.1 == field && k.2 in roles && perms[k].canRead
  }

  /** As high as a role that some row lets write the field. Without such a row: owner for owner-grade
      fields, nobody below the maximum for engine-owned ones, member for the others. */
  ghost predicate HighEnoughToWrite(roles: map<string, int>, perms: Overrides, typeId: string, f: FieldDef, rank: int) {
    if exists k :: LetsWrite(roles, perms, typeId, f.field, k) then
      exists k :: LetsWrite(roles, perms, typeId, f.field, k) && roles[k.2] <= rank
    else
      rank >= (match f.permClass case "owner_grade" => 4 case "readonly" => 0x7fff_ffff case "system" => 0x7fff_ffff case _ => 2)
  }

  /** The same for reading, with admin for owner-grade fields and viewer for all others. */
  ghost predicate HighEnoughToRead(roles: map<string, int>, perms: Overrides, typeId: string, f: FieldDef, rank: int) {
    if exists k :: LetsRead(roles, perms, typeId, f.field, k) then
      exists k :: LetsRead(roles, perms, typeId, f.field, k) && roles[k.2] <= rank
    else
      rank >= (if f.permClass == "owner_grade" then 3 else 1)
  }

  lemma LowestDecides(ranks: set<int>, default: int, rank: int)
    ensures rank >= Or(Lowest(ranks), default) <==> if ranks == {} then rank >= default else exists r :: r in ranks && r <= rank
  {}

  lemma WritersDecide(roles: map<string, int>, perms: Overrides, typeId: string, field: string, default: int, rank: int)
    ensures var ranks := set k | k in perms && k.0 == typeId && k.1 == field && k.2 in roles && perms[k].canWrite :: roles[k.2];
      rank >= Or(Lowest(ranks), default) <==>
        if exists k :: LetsWrite(roles, perms, typeId, field, k) then
          exists k :: LetsWrite(roles, perms, typeId, field, k) && roles[k.2] <= rank
        else rank >= default
  {
    var ranks := set k | k in perms && k.0 == typeId && k.1 == field && k.2 in roles && perms[k].canWrite :: roles[k.2];
    LowestDecides(ranks, default, rank);
    forall k | LetsWrite(roles, perms, typeId, field, k) ensures roles[k.2] in ranks {}
    if r :| r in ranks && r <= rank {
      var k :| LetsWrite(roles, perms, typeId, field, k) && roles[k.2] == r;
    }
    if r :| r in ranks {
      var k :| LetsWrite(roles, perms, typeId, field, k) && roles[k.2] == r;
    }
  }

  lemma ReadersDecide(roles: map<string, int>, perms: Overrides, typeId: string, field: string, default: int, rank: int)
    ensures var ranks := set k | k in perms && k.0 == typeId && k.1 == field && k.2 in roles && perms[k].canRead :: roles[k.2];
      rank >= Or(Lowest(ranks), default) <==>
        if exists k :: LetsRead(roles, perms, typeId, field, k) then
          exists k :: LetsRead(roles, perms, typeId, field, k) && roles[k.2] <= rank
        else rank >= default
  {
    var ranks := set k | k in perms && k.0 == typeId && k.1 == field && k.2 in roles && perms[k].canRead :: roles[k.2];
    LowestDecides(ranks, default, rank);
    forall k | LetsRead(roles, perms, typeId, field, k) ensures roles[k.2] in ranks {}
    if r :| r in ranks && r <= rank {
      var k :| LetsRead(roles, perms, typeId, field, k) && roles[k.2] == r;
    }
    if r :| r in ranks {
      var k :| LetsRead(roles, perms, typeId, field, k) && roles[k.2] == r;
    }
  }

  /** Which ranks pass a field's two floors. */
  lemma FloorsInFigures(roles: map<string, int>, perms: Overrides, typeId: string, f: FieldDef, rank: int)
    ensures rank >= FieldFloors(roles, perms, typeId, f).write <==> HighEnoughToWrite(roles, perms, typeId, f, rank)
    ensures rank >= FieldFloors(roles, perms, typeId, f).read <==> HighEnoughToRead(roles, perms, typeId, f, rank)
  {
    hide Lowest, LetsWrite, LetsRead;
    WritersDecide(roles, perms, typeId, f.field, ClassRanks(f.permClass).write, rank);
    ReadersDecide(roles, perms, typeId, f.field, ClassRanks(f.permClass).read, rank);
  }

  /** A reader is shown a key exactly if it ranks high enough for every field of that name, or has the
      maximum, and is shown the stored value. */
  lemma ShownInFigures(roles: map<string, int>, perms: Overrides, td: TypeDef, rank: int, data: Record, k: string)
    ensures var shown := Readable(roles, perms, td, rank, data);
      && (k in shown <==>
            k in data && (rank == 0x7fff_ffff || forall f | f in td.fields && f.field == k :: HighEnoughToRead(roles, perms, td.typeId, f, rank)))
      && (k in shown ==> shown[k] == data[k])
  {
    hide HighEnoughToRead, FieldFloors;
    forall f | f in td.fields && f.field == k
      ensures MayRead(roles, perms, td.typeId, rank, f) <==> HighEnoughToRead(roles, perms, td.typeId, f, rank)
    {
      FloorsInFigures(roles, perms, td.typeId, f, rank);
    }
  }

  /** What an action takes on an object: a rank of one to view, two to create under it or to edit it, three
      to delete it, or four where the type's policy keeps deletion to owners. */
  function Takes(td: TypeDef, action: Gate.Action): int {
    match action
    case View => 1
    case Create => 2
    case Edit => 2
    case Delete =>
      if td.methodPolicy.Obj? && "delete_min_role" in td.methodPolicy.m && td.methodPolicy.m["delete_min_role"] == Str("owner")
      then 4 else 3
  }

  /** Admins pass any gate on an object, and nobody else without that rank. */
  lemma GateInFigures(a: Access, caller: Caller, td: TypeDef, obj: Id, action: Gate.Action)
    ensures Gate.RequireAction(a, caller, td, Some(obj), action) <==>
      caller.admin || (EffectiveRank(a, caller.actor, obj).Some? && EffectiveRank(a, caller.actor, obj).value >= Takes(td, action))
  {
    hide EffectiveRank;
  }

  /** The same gate for an object whose type is looked up: without an object or a known type nobody passes. */
  lemma LookedUpGateInFigures(a: Access, registry: TypeCache, caller: Caller, id: Id, action: Gate.Action)
    ensures Gate.ReachAction(a, registry, caller, id, action) <==>
      && id in a.types && a.types[id] in registry
      && (caller.admin ||
          (var rank := EffectiveRank(a, caller.actor, id); rank.Some? && rank.value >= Takes(registry[a.types[id]], action)))
  {
    hide Gate.RequireAction, Takes, EffectiveRank;
    if id in a.types && a.types[id] in registry { GateInFigures(a, caller, registry[a.types[id]], id, action); }
  }
}
