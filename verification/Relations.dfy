/** Typed edges between entities (crates/api/src/relations.rs). The list handler tests the far endpoint of
    each edge by a lookup in the caller's reach set, in place of the object gate; this module says when
    that shows the same edges. */
module Relations {
  import opened Prelude
  import opened Fixpoint
  import opened Registry
  import opened Rbac
  import opened Gate

  datatype Relation = Relation(id: Id, subject: Id, target: Id, kind: string, createdBy: Option<Id>)

  const RELATION_TYPES: set<string> := {"relates-to", "duplicates", "blocks", "references", "article-of", "parent-of"}

  predicate KnownKind(kind: string) {
    || kind == "relates-to" || kind == "duplicates" || kind == "blocks" || kind == "references"
    || kind == "article-of" || kind == "parent-of"
  }

  function Other(r: Relation, entity: Id): Id {
    if r.subject == entity then r.target else r.subject
  }

  /** The WHERE clause of the list query. */
  predicate Touches(r: Relation, entity: Id, kind: Option<string>) {
    (r.subject == entity || r.target == entity) && (kind.None? || r.kind == kind.value)
  }

  predicate InReachSet(a: Access, caller: Caller, id: Id) {
    caller.admin || id in ReachableAny(a, caller.actor)
  }

  predicate Listed(a: Access, caller: Caller, entity: Id, kind: Option<string>, r: Relation) {
    Touches(r, entity, kind) && InReachSet(a, caller, Other(r, entity))
  }

  /** The listed rows, in the order of the table. */
  function Shown(a: Access, caller: Caller, entity: Id, kind: Option<string>, rows: seq<Relation>): (out: seq<Relation>)
    ensures forall r :: r in out <==> r in rows && Listed(a, caller, entity, kind, r)
  {
    if rows == [] then []
    else (if Listed(a, caller, entity, kind, rows[0]) then [rows[0]] else []) + Shown(a, caller, entity, kind, rows[1..])
  }

  lemma {:induction false} ShownAppend(a: Access, caller: Caller, entity: Id, kind: Option<string>, rows: seq<Relation>, r: Relation)
    ensures Shown(a, caller, entity, kind, rows + [r]) ==
      Shown(a, caller, entity, kind, rows) + (if Listed(a, caller, entity, kind, r) then [r] else [])
  {
    hide Listed;
    if rows != [] {
      assert (rows + [r])[1..] == rows[1..] + [r];
      ShownAppend(a, caller, entity, kind, rows[1..], r);
    }
  }

  /** Foreign keys, the unique triple, no self edge, only registered kinds. */
  ghost predicate TableSound(types: map<Id, string>, rows: seq<Relation>) {
    && (forall r | r in rows :: r.subject in types && r.target in types && r.subject != r.target && KnownKind(r.kind))
    && (forall i, j | 0 <= i < j < |rows| :: rows[i].id != rows[j].id && !SameTriple(rows[i], rows[j]))
  }

  predicate SameTriple(r: Relation, s: Relation) {
    r.subject == s.subject && r.target == s.target && r.kind == s.kind
  }

  /** The table, newest row first. */
  class RelationTable {
    var rows: seq<Relation>

    /** Editing the subject and viewing the target are both required, and both refusals look the same;
        what the insert itself can still refuse is a duplicate. */
    method Create(a: Access, registry: TypeCache, caller: Caller, subject: Id, target: Id, kind: string, id: Id) returns (r: Result<Relation>)
      requires forall row | row in rows :: row.id != id
      requires TableSound(a.types, rows)
      modifies this
      ensures TableSound(a.types, rows)
      ensures match r
        case Ok(row) =>
          && rows == [row] + old(rows) && row == Relation(id, subject, target, kind, Some(caller.actor))
          && KnownKind(kind) && ReachAction(a, registry, caller, subject, Edit) && ReachAction(a, registry, caller, target, View)
        case Err(e) =>
          && rows == old(rows)
          && (e == Conflict <==>
                && KnownKind(kind) && subject != target
                && ReachAction(a, registry, caller, subject, Edit) && ReachAction(a, registry, caller, target, View)
                && exists row | row in rows :: row.subject == subject && row.target == target && row.kind == kind)
          && (e == NotFound <==>
                && KnownKind(kind) && subject != target
                && !(ReachAction(a, registry, caller, subject, Edit) && ReachAction(a, registry, caller, target, View)))
          && (e == Unprocessable <==> !KnownKind(kind) || subject == target)
    {
      if kind !in RELATION_TYPES { return Err(Unprocessable); }
      if subject == target { return Err(Unprocessable); }
      if !ReachAction(a, registry, caller, subject, Edit) || !ReachAction(a, registry, caller, target, View) {
        return Err(NotFound);
      }
      if exists row | row in rows :: row.subject == subject && row.target == target && row.kind == kind {
        return Err(Conflict);
      }
      var row := Relation(id, subject, target, kind, Some(caller.actor));
      rows := [row] + rows;
      return Ok(row);
    }

    method List(a: Access, registry: TypeCache, caller: Caller, entity: Option<Id>, kind: Option<string>) returns (r: Result<seq<Relation>>)
      ensures r ==
        if entity.None? then Err(BadRequest)
        else if !ReachAction(a, registry, caller, entity.value, View) then Err(NotFound)
        else Ok(Shown(a, caller, entity.value, kind, rows))
    {
      if entity.None? { return Err(BadRequest); }
      var e := entity.value;
      if !ReachAction(a, registry, caller, e, View) { return Err(NotFound); }
      var reachable := if caller.admin then None else Some(ReachableAny(a, caller.actor));
      var out := [];
      for i := 0 to |rows|
        invariant out == Shown(a, caller, e, kind, rows[..i])
      {
        ShownAppend(a, caller, e, kind, rows[..i], rows[i]);
        assert rows[..i + 1] == rows[..i] + [rows[i]];
        var row := rows[i];
        if (row.subject == e || row.target == e) && (kind.None? || row.kind == kind.value) {
          var other := if row.subject == e then row.target else row.subject;
          var visible := match reachable case None => true case Some(ids) => other in ids;
          if visible { out := out + [row]; }
        }
      }
      assert rows[..|rows|] == rows;
      return Ok(out);
    }

    /** Editing the subject is what it takes, whoever created the edge. */
    method Remove(a: Access, registry: TypeCache, caller: Caller, id: Id) returns (r: Result<()>)
      requires TableSound(a.types, rows)
      modifies this
      ensures TableSound(a.types, rows)
      ensures r.Ok? <==> exists row | row in old(rows) :: row.id == id && ReachAction(a, registry, caller, row.subject, Edit)
      ensures r.Err? ==> r.error == NotFound && rows == old(rows)
      ensures r.Ok? ==> forall row :: row in rows <==> row in old(rows) && row.id != id
    {
      for i := 0 to |rows|
        invariant rows == old(rows)
        invariant forall j | 0 <= j < i :: rows[j].id != id
      {
        if rows[i].id == id {
          if !ReachAction(a, registry, caller, rows[i].subject, Edit) {
            OnlyRowWithItsId(a.types, rows, i);
            return Err(NotFound);
          }
          WithoutRow(a.types, rows, i);
          rows := rows[..i] + rows[i + 1..];
          return Ok(());
        }
      }
      return Err(NotFound);
    }
  }

  lemma OnlyRowWithItsId(types: map<Id, string>, rows: seq<Relation>, i: nat)
    requires TableSound(types, rows) && i < |rows|
    ensures forall row | row in rows && row.id == rows[i].id :: row == rows[i]
  {}

  lemma WithoutRow(types: map<Id, string>, rows: seq<Relation>, i: nat)
    requires TableSound(types, rows) && i < |rows|
    ensures TableSound(types, rows[..i] + rows[i + 1..])
    ensures forall row :: row in rows[..i] + rows[i + 1..] <==> row in rows && row.id != rows[i].id
  {
    var rest := rows[..i] + rows[i + 1..];
    assert forall j | 0 <= j < |rest| :: rest[j] == rows[if j < i then j else j + 1];
    forall row | row in rows && row.id != rows[i].id ensures row in rest {
      var j :| 0 <= j < |rows| && rows[j] == row;
      assert rest[if j < i then j else j - 1] == row;
    }
  }

  // ---- the set lookup against the object gate -------------------------------------------------

  ghost predicate RanksCount(a: Access) {
    RolesRegistered(a) && forall role | role in a.roles :: a.roles[role] >= 1
  }

  ghost predicate Typed(a: Access, registry: TypeCache, id: Id) {
    id in a.types && a.types[id] in registry
  }

  /** The object gate for View asks for any rank at all. */
  lemma ViewIsAnyRank(a: Access, registry: TypeCache, caller: Caller, id: Id)
    requires RanksCount(a) && Typed(a, registry, id) && !caller.admin
    ensures ReachAction(a, registry, caller, id, View) <==> EffectiveRank(a, caller.actor, id).Some?
  {
    hide Counts;
  }

  /** The lookup hides nothing: an edge whose far endpoint the object gate would show is listed. */
  lemma ViewableEdgesAreListed(a: Access, registry: TypeCache, caller: Caller, id: Id)
    requires RanksCount(a) && Typed(a, registry, id) && ReachAction(a, registry, caller, id, View)
    ensures InReachSet(a, caller, id)
  {
    if !caller.admin {
      ViewIsAnyRank(a, registry, caller, id);
      RankImpliesReach(a, caller.actor, id);
    }
  }

  /** For far endpoints with at most eight ancestors the list is the one the object gate would give. */
  lemma ListIsTheObjectGate(a: Access, registry: TypeCache, caller: Caller, entity: Id, kind: Option<string>, rows: seq<Relation>, r: Relation)
    requires RanksCount(a) && Acyclic(ScopeEdges(a.parents))
    requires Typed(a, registry, Other(r, entity)) && |AncestorsOf(a.parents, Other(r, entity))| <= 8
    ensures r in Shown(a, caller, entity, kind, rows)
      <==> r in rows && Touches(r, entity, kind) && ReachAction(a, registry, caller, Other(r, entity), View)
  {
    var far := Other(r, entity);
    if !caller.admin {
      ViewIsAnyRank(a, registry, caller, far);
      UncutIffFewAncestors(a.parents, far, 0);
      if EffectiveRank(a, caller.actor, far).Some? { RankImpliesReach(a, caller.actor, far); }
      if far in ReachableAny(a, caller.actor) { ReachImpliesRank(a, caller.actor, far); }
    }
  }

  // ---- beyond eight ancestors ----------------------------------------------------------------

  lemma {:induction false} LaterStartClimbsFurther(parents: map<Id, Option<Id>>, id: Id, depth: nat)
    requires 0 < depth <= DEPTH_CAP
    ensures forall x | x in Climb(parents, id, depth) :: x in Climb(parents, id, depth - 1)
    ensures !Uncut(parents, id, depth) ==>
      var last := Last(Climb(parents, id, depth));
      last in parents && parents[last].Some? && parents[last].value in Climb(parents, id, depth - 1)
    decreases DEPTH_CAP - depth
  {
    if id in parents && parents[id].Some? {
      var up := parents[id].value;
      if depth < DEPTH_CAP {
        LaterStartClimbsFurther(parents, up, depth + 1);
      } else {
        assert Climb(parents, id, depth - 1) == [id] + Climb(parents, up, depth);
        assert Climb(parents, up, depth)[0] == up;
      }
    }
  }

  lemma {:induction false} ClimbFromTheStart(parents: map<Id, Option<Id>>, id: Id, depth: nat, x: Id)
    requires depth <= DEPTH_CAP && x in Climb(parents, id, depth)
    ensures x in Climb(parents, id, 0)
    decreases depth
  {
    if depth > 0 {
      LaterStartClimbsFurther(parents, id, depth);
      ClimbFromTheStart(parents, id, depth - 1, x);
    }
  }

  /** The first ancestor a cut climb misses is still within the climb of everything above its start. */
  lemma {:induction false} AncestorsSeeTheMissed(parents: map<Id, Option<Id>>, id: Id, depth: nat, x: Id)
    requires 0 < depth <= DEPTH_CAP && !Uncut(parents, id, depth) && x in Climb(parents, id, depth)
    ensures var last := Last(Climb(parents, id, depth));
      last in parents && parents[last].Some? && parents[last].value in Climb(parents, x, 0)
    decreases DEPTH_CAP - depth
  {
    if x == id {
      LaterStartClimbsFurther(parents, id, depth);
      ClimbFromTheStart(parents, id, depth - 1, parents[Last(Climb(parents, id, depth))].value);
    } else {
      var up := parents[id].value;
      var rest := Climb(parents, up, depth + 1);
      assert Climb(parents, id, depth) == [id] + rest;
      assert Last(Climb(parents, id, depth)) == Last(rest);
      AncestorsSeeTheMissed(parents, up, depth + 1, x);
    }
  }

  /** A caller that is let in at `entity`, finds `far` in its reach set, and would be refused by the gate on `far`. */
  ghost predicate Overshoots(a: Access, registry: TypeCache, caller: Caller, entity: Id, far: Id) {
    && ReachAction(a, registry, caller, entity, View)
    && InReachSet(a, caller, far) && !ReachAction(a, registry, caller, far, View)
  }

  /** Some memberships and some caller make the list overshoot. */
  ghost predicate CanOvershoot(types: map<Id, string>, parents: map<Id, Option<Id>>, roles: map<string, int>, registry: TypeCache, entity: Id, far: Id) {
    exists members, caller :: RanksCount(Access(types, parents, members, roles))
      && Overshoots(Access(types, parents, members, roles), registry, caller, entity, far)
  }

  /** In a scope forest a list can show an edge whose far endpoint the gate refuses exactly when that
      endpoint has more than eight ancestors. */
  lemma ListOvershootsBeyondTheCap(types: map<Id, string>, parents: map<Id, Option<Id>>, roles: map<string, int>,
                                   registry: TypeCache, entity: Id, far: Id)
    requires Acyclic(ScopeEdges(parents)) && entity != far
    requires roles != map[] && forall role | role in roles :: roles[role] >= 1
    requires entity in types && types[entity] in registry && far in types && types[far] in registry
    ensures CanOvershoot(types, parents, roles, registry, entity, far) <==> |AncestorsOf(parents, far)| > 8
  {
    hide ReachAction, InReachSet, Overshoots, RanksCount;
    UncutIffFewAncestors(parents, far, 0);
    if Uncut(parents, far, 0) {
      forall members, caller | RanksCount(Access(types, parents, members, roles))
        ensures !Overshoots(Access(types, parents, members, roles), registry, caller, entity, far)
      {
        NoOvershootWithinTheCap(Access(types, parents, members, roles), registry, caller, entity, far);
      }
    } else {
      OvershootExists(types, parents, roles, registry, entity, far);
    }
  }

  lemma NoOvershootWithinTheCap(a: Access, registry: TypeCache, caller: Caller, entity: Id, far: Id)
    requires RanksCount(a) && Uncut(a.parents, far, 0) && Typed(a, registry, far)
    ensures !Overshoots(a, registry, caller, entity, far)
  {
    if !caller.admin {
      ViewIsAnyRank(a, registry, caller, far);
      if far in ReachableAny(a, caller.actor) { ReachImpliesRank(a, caller.actor, far); }
    }
  }

  /** An edge on the missed ancestor, and on `entity` itself unless it is seen from there. */
  function Overshot(entity: Id, near: bool, missed: Id, role: string): map<(Id, Id), string> {
    if near then map[(missed, "") := role] else map[(missed, "") := role, (entity, "") := role]
  }

  lemma OvershotReach(a: Access, entity: Id, far: Id, missed: Id, role: string)
    requires a.members == Overshot(entity, entity in Climb(a.parents, far, 0), missed, role) && role in a.roles
    requires missed !in Climb(a.parents, far, 0) && far in Closure(ScopeEdges(a.parents), {missed})
    requires entity in Climb(a.parents, far, 0) ==> missed in Climb(a.parents, entity, 0)
    ensures EffectiveRank(a, "", entity).Some? && EffectiveRank(a, "", far).None? && far in ReachableAny(a, "")
  {
    ClosureHasSeeds(TeamEdges(a), {""});
    var key := if entity in Climb(a.parents, far, 0) then (missed, "") else (entity, "");
    assert Climb(a.parents, entity, 0)[0] == entity;
    assert Counts(a, "", entity, key);
    assert forall k :: !Counts(a, "", far, k);
    assert (missed, "") in a.members && (missed, "").1 in Principals(a, "");
    ClosureMonotone(ScopeEdges(a.parents), {missed}, ScopeEdges(a.parents), Anchors(a, ""));
  }

  /** An ancestor of `far` beyond its climb, seen from `entity` if that lies on the climb. */
  lemma MissedFrom(parents: map<Id, Option<Id>>, entity: Id, far: Id) returns (missed: Id)
    requires Acyclic(ScopeEdges(parents)) && entity != far && !Uncut(parents, far, 0)
    ensures missed !in Climb(parents, far, 0) && far in Closure(ScopeEdges(parents), {missed})
    ensures entity in Climb(parents, far, 0) ==> missed in Climb(parents, entity, 0)
  {
    hide Acyclic, Closure;
    missed := CutClimbMissesAnAncestor(parents, far);
    if entity in Climb(parents, far, 0) {
      assert entity in Climb(parents, parents[far].value, 1);
      AncestorsSeeTheMissed(parents, parents[far].value, 1, entity);
    }
  }

  lemma OvershotOvershoots(a: Access, registry: TypeCache, entity: Id, far: Id)
    requires RanksCount(a) && Typed(a, registry, entity) && Typed(a, registry, far)
    requires EffectiveRank(a, "", entity).Some? && EffectiveRank(a, "", far).None? && far in ReachableAny(a, "")
    ensures Overshoots(a, registry, Caller("", false), entity, far)
  {
    hide EffectiveRank, ReachableAny, ReachAction, RanksCount, Typed;
    ViewIsAnyRank(a, registry, Caller("", false), entity);
    ViewIsAnyRank(a, registry, Caller("", false), far);
  }

  lemma OvershotRanksCount(types: map<Id, string>, parents: map<Id, Option<Id>>, roles: map<string, int>, entity: Id, near: bool, missed: Id, role: string)
    requires role in roles && forall r | r in roles :: roles[r] >= 1
    ensures RanksCount(Access(types, parents, Overshot(entity, near, missed, role), roles))
  {}

  lemma OvershootExists(types: map<Id, string>, parents: map<Id, Option<Id>>, roles: map<string, int>,
                        registry: TypeCache, entity: Id, far: Id)
    requires Acyclic(ScopeEdges(parents)) && entity != far && !Uncut(parents, far, 0)
    requires roles != map[] && forall role | role in roles :: roles[role] >= 1
    requires entity in types && types[entity] in registry && far in types && types[far] in registry
    ensures CanOvershoot(types, parents, roles, registry, entity, far)
  {
    hide EffectiveRank, ReachableAny, Overshoots, RanksCount, Overshot, Climb, Closure, Acyclic, Uncut;
    var role :| role in roles;
    var missed := MissedFrom(parents, entity, far);
    var members := Overshot(entity, entity in Climb(parents, far, 0), missed, role);
    OvershotReach(Access(types, parents, members, roles), entity, far, missed, role);
    OvershotRanksCount(types, parents, roles, entity, entity in Climb(parents, far, 0), missed, role);
    OvershotOvershoots(Access(types, parents, members, roles), registry, entity, far);
    assert Overshoots(Access(types, parents, members, roles), registry, Caller("", false), entity, far);
  }
}
