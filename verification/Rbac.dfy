/** The reach resolver (crates/api/src/rbac.rs): one query climbs from an object to its scope ancestors,
    the other cascades down from the objects a caller's principals hold edges on. */
module Rbac {
  import opened Prelude
  import opened Fixpoint

  /** The tables the resolver reads. `members` is keyed by (object_id, member_id), the primary key
      migration 0003 narrows it to. */
  datatype Access = Access(
    types: map<Id, string>,
    parents: map<Id, Option<Id>>,
    members: map<(Id, Id), string>,
    roles: map<string, int>)

  const TEAM := "team"

  /** member -> object, for objects that are teams: the join of the `principals` query. */
  function TeamEdges(a: Access): set<(Id, Id)> {
    set k | k in a.members && k.0 in a.types && a.types[k.0] == TEAM :: (k.1, k.0)
  }

  /** The actor and every team it transitively belongs to. */
  function Principals(a: Access, root: Id): set<Id> {
    Closure(TeamEdges(a), {root})
  }

  /** parent -> child, over the rows whose `scope_parent_id` is not null. */
  function ScopeEdges(parents: map<Id, Option<Id>>): set<(Id, Id)> {
    set id | id in parents && parents[id].Some? :: (parents[id].value, id)
  }

  const DEPTH_CAP: nat := 8

  /** The `scopes` query: the object and its ancestors, nearest first, stopping at depth 8. */
  function Climb(parents: map<Id, Option<Id>>, id: Id, depth: nat): (r: seq<Id>)
    requires depth <= DEPTH_CAP
    ensures |r| > 0 && r[0] == id && |r| <= DEPTH_CAP - depth + 1
    decreases DEPTH_CAP - depth
  {
    if id in parents && parents[id].Some? && depth < DEPTH_CAP then
      [id] + Climb(parents, parents[id].value, depth + 1)
    else
      [id]
  }

  /** Membership rows that count towards `actor`'s rank on `object`. */
  predicate Counts(a: Access, actor: Id, obj: Id, k: (Id, Id)) {
    && k in a.members && a.members[k] in a.roles
    && k.1 in Principals(a, actor)
    && k.0 in Climb(a.parents, obj, 0)
  }

  function CountedRanks(a: Access, actor: Id, obj: Id): set<int> {
    set k | k in a.members && Counts(a, actor, obj, k) :: a.roles[a.members[k]]
  }

  ghost function AnyOf<T>(s: set<T>): (x: T)
    requires s != {}
    ensures x in s
  {
    var y :| y in s; y
  }

  lemma HighestExists(s: set<int>)
    requires s != {}
    ensures exists x :: x in s && forall y | y in s :: y <= x
    decreases |s|
  {
    var x := AnyOf(s);
    var rest := s - {x};
    if rest != {} {
      HighestExists(rest);
      var m :| m in rest && forall y | y in rest :: y <= m;
      assert s == rest + {x};
      var top := if m < x then x else m;
      assert top in s && forall y | y in s :: y <= top;
    } else {
      assert s == {x};
    }
  }

  /** SQL `max` over a set of rows: null when there are none. */
  function Highest(s: set<int>): (r: Option<int>)
    ensures r.None? <==> s == {}
    ensures r.Some? ==> r.value in s && forall y | y in s :: y <= r.value
  {
    if s == {} then None
    else
      HighestExists(s);
      var x :| x in s && forall y | y in s :: y <= x;
      Some(x)
  }

  function EffectiveRank(a: Access, actor: Id, obj: Id): (r: Option<int>)
    ensures r.Some? ==> exists k :: Counts(a, actor, obj, k) && a.roles[a.members[k]] == r.value
    ensures forall k | Counts(a, actor, obj, k) :: r.Some? && a.roles[a.members[k]] <= r.value
  {
    var ranks := CountedRanks(a, actor, obj);
    var r := Highest(ranks);
    assert forall k | Counts(a, actor, obj, k) :: a.roles[a.members[k]] in ranks;
    r
  }

  /** The rank depends on nothing but the rows that count and their roles. */
  lemma SameCountsSameRank(a: Access, b: Access, actor: Id, obj: Id)
    requires a.roles == b.roles
    requires forall k :: Counts(a, actor, obj, k) <==> Counts(b, actor, obj, k)
    requires forall k | k in a.members && k in b.members && Counts(a, actor, obj, k) :: a.members[k] == b.members[k]
    ensures EffectiveRank(a, actor, obj) == EffectiveRank(b, actor, obj)
  {
    assert CountedRanks(a, actor, obj) == CountedRanks(b, actor, obj);
  }

  function RankOf(a: Access, role: string): Option<int> {
    if role in a.roles then Some(a.roles[role]) else None
  }

  function Anchors(a: Access, actor: Id): set<Id> {
    set k | k in a.members && k.1 in Principals(a, actor) :: k.0
  }

  /** Every entity the actor reaches, across all types: anchors and all their scope descendants. */
  function ReachableAny(a: Access, actor: Id): set<Id> {
    Closure(ScopeEdges(a.parents), Anchors(a, actor))
  }

  /** The same cascade, filtered to one type; it drives the collection list. */
  function Reachable(a: Access, actor: Id, typeId: string): set<Id> {
    set id | id in ReachableAny(a, actor) && id in a.parents && id in a.types && a.types[id] == typeId
  }

  /** The membership cycle guard's query. */
  predicate PrincipalsContain(a: Access, root: Id, target: Id) {
    target in Principals(a, root)
  }

  // ---- up and down agree -----------------------------------------------------

  /** Every membership names a registered role (foreign key of migration 0003). */
  ghost predicate RolesRegistered(a: Access) {
    forall k | k in a.members :: a.members[k] in a.roles
  }

  /** The climb from `id` ends at a row without a parent, not at the cap. */
  predicate Uncut(parents: map<Id, Option<Id>>, id: Id, depth: nat)
    requires depth <= DEPTH_CAP
    decreases DEPTH_CAP - depth
  {
    id in parents && parents[id].Some? ==>
      depth < DEPTH_CAP && Uncut(parents, parents[id].value, depth + 1)
  }

  function Last(s: seq<Id>): Id
    requires |s| > 0
  {
    s[|s| - 1]
  }

  /** Each id the climb visits leads down to where the climb began, and the last one leads to them all. */
  lemma {:induction false} ClimbLeadsDown(parents: map<Id, Option<Id>>, id: Id, depth: nat)
    requires depth <= DEPTH_CAP
    ensures var c := Climb(parents, id, depth);
      forall x | x in c :: && id in Closure(ScopeEdges(parents), {x})
                           && x in Closure(ScopeEdges(parents), {Last(c)})
    decreases DEPTH_CAP - depth
  {
    var edges := ScopeEdges(parents);
    var c := Climb(parents, id, depth);
    if id in parents && parents[id].Some? && depth < DEPTH_CAP {
      var up := parents[id].value;
      var rest := Climb(parents, up, depth + 1);
      ClimbLeadsDown(parents, up, depth + 1);
      assert (up, id) in edges;
      assert Last(c) == Last(rest);
      assert rest[0] in rest;
      forall x | x in c ensures id in Closure(edges, {x}) && x in Closure(edges, {Last(c)}) {
        if x == id {
          ClosureHasSeeds(edges, {id});
          ClosureFollows(edges, {Last(c)}, up, id);
        } else {
          assert x in rest;
          ClosureFollows(edges, {x}, up, id);
        }
      }
    } else {
      ClosureHasSeeds(edges, {id});
    }
  }

  /** A rank by the climb is always a reach by the cascade. */
  lemma RankImpliesReach(a: Access, actor: Id, obj: Id)
    requires EffectiveRank(a, actor, obj).Some?
    ensures obj in ReachableAny(a, actor)
  {
    var k :| Counts(a, actor, obj, k);
    ClimbLeadsDown(a.parents, obj, 0);
    ClosureHasSeeds(ScopeEdges(a.parents), Anchors(a, actor));
    ClosureTransitive(ScopeEdges(a.parents), Anchors(a, actor), k.0);
  }

  /** A row has one parent, so any walk down to `id` retraces the climb from it. */
  lemma {:induction false} ClimbRetracesWalk(parents: map<Id, Option<Id>>, p: seq<Id>, id: Id, depth: nat)
    requires depth <= DEPTH_CAP && Uncut(parents, id, depth)
    requires Walk(ScopeEdges(parents), p) && p[|p| - 1] == id
    ensures p[0] in Climb(parents, id, depth)
    decreases |p|
  {
    if |p| > 1 {
      var up := p[|p| - 2];
      assert (up, p[|p| - 2 + 1]) in ScopeEdges(parents);
      var q := p[..|p| - 1];
      assert Walk(ScopeEdges(parents), q) by {
        forall i | 0 <= i < |q| - 1 ensures (q[i], q[i + 1]) in ScopeEdges(parents) {
          assert (p[i], p[i + 1]) in ScopeEdges(parents);
        }
      }
      ClimbRetracesWalk(parents, q, up, depth + 1);
    }
  }

  /** A reach by the cascade is a rank by the climb, if the cap does not cut the climb short. */
  lemma ReachImpliesRank(a: Access, actor: Id, obj: Id)
    requires RolesRegistered(a) && Uncut(a.parents, obj, 0)
    requires obj in ReachableAny(a, actor)
    ensures EffectiveRank(a, actor, obj).Some?
  {
    ClosureIsReachability(ScopeEdges(a.parents), Anchors(a, actor), obj);
    var top :| top in Anchors(a, actor) && Reaches(ScopeEdges(a.parents), top, obj);
    var p :| WalkBetween(ScopeEdges(a.parents), p, top, obj);
    ClimbRetracesWalk(a.parents, p, obj, 0);
    var k :| k in a.members && k.1 in Principals(a, actor) && k.0 == top;
    assert Counts(a, actor, obj, k);
  }

  /** The two resolvers agree on `object` for this actor. */
  ghost predicate Agree(a: Access, actor: Id, obj: Id) {
    obj in ReachableAny(a, actor) <==> EffectiveRank(a, actor, obj).Some?
  }

  /** The collection list, which cascades, holds exactly the objects of its type that the caller holds a
      rank on by the climb, as far as the cap leaves the climb whole. */
  lemma ListedIffRanked(a: Access, actor: Id, typeId: string, obj: Id)
    requires RolesRegistered(a) && Acyclic(ScopeEdges(a.parents)) && |AncestorsOf(a.parents, obj)| <= 8
    ensures obj in Reachable(a, actor, typeId)
      <==> obj in a.parents && obj in a.types && a.types[obj] == typeId && EffectiveRank(a, actor, obj).Some?
  {
    UncutIffFewAncestors(a.parents, obj, 0);
    if EffectiveRank(a, actor, obj).Some? { RankImpliesReach(a, actor, obj); }
    if obj in ReachableAny(a, actor) { ReachImpliesRank(a, actor, obj); }
  }

  /** Where an over-long climb stops, the next ancestor exists and is not among the ids visited. */
  lemma CutClimbMissesAnAncestor(parents: map<Id, Option<Id>>, id: Id) returns (missed: Id)
    requires Acyclic(ScopeEdges(parents)) && !Uncut(parents, id, 0)
    ensures missed !in Climb(parents, id, 0)
    ensures id in Closure(ScopeEdges(parents), {missed})
    ensures Last(Climb(parents, id, 0)) in parents && parents[Last(Climb(parents, id, 0))] == Some(missed)
  {
    var edges := ScopeEdges(parents);
    var c := Climb(parents, id, 0);
    CutClimbEndsBelowAParent(parents, id, 0);
    missed := parents[Last(c)].value;
    assert (missed, Last(c)) in edges;
    ClimbLeadsDown(parents, id, 0);
    assert id in Closure(edges, {missed}) by {
      assert Last(c) in c && c[0] in c;
      ClosureHasSeeds(edges, {missed});
      ClosureFollows(edges, {missed}, missed, Last(c));
      ClosureTransitive(edges, {missed}, Last(c));
    }
    AcyclicIffNoEdgeReturns(edges);
  }

  lemma {:induction false} CutClimbEndsBelowAParent(parents: map<Id, Option<Id>>, id: Id, depth: nat)
    requires depth <= DEPTH_CAP && !Uncut(parents, id, depth)
    ensures var last := Last(Climb(parents, id, depth)); last in parents && parents[last].Some?
    decreases DEPTH_CAP - depth
  {
    if depth < DEPTH_CAP {
      CutClimbEndsBelowAParent(parents, parents[id].value, depth + 1);
    }
  }

  /** The two resolvers agree on `obj` for every membership table and every actor. */
  ghost predicate AlwaysAgree(types: map<Id, string>, parents: map<Id, Option<Id>>, roles: map<string, int>, obj: Id) {
    forall members, actor | RolesRegistered(Access(types, parents, members, roles)) ::
      Agree(Access(types, parents, members, roles), actor, obj)
  }

  /** In a scope forest that is so exactly when the object has at most eight ancestors. */
  lemma AgreementNeedsTheCap(types: map<Id, string>, parents: map<Id, Option<Id>>, roles: map<string, int>, obj: Id)
    requires Acyclic(ScopeEdges(parents)) && roles != map[]
    ensures AlwaysAgree(types, parents, roles, obj) <==> |AncestorsOf(parents, obj)| <= 8
  {
    UncutIffFewAncestors(parents, obj, 0);
    if Uncut(parents, obj, 0) {
      UncutAgrees(types, parents, roles, obj);
    } else {
      var missed := CutClimbMissesAnAncestor(parents, obj);
      var role :| role in roles;
      var a := Access(types, parents, map[(missed, "") := role], roles);
      SoleEdgeBeyondTheClimb(a, "", obj, missed, role);
      assert RolesRegistered(a) && !Agree(a, "", obj);
    }
  }

  lemma UncutAgrees(types: map<Id, string>, parents: map<Id, Option<Id>>, roles: map<string, int>, obj: Id)
    requires Uncut(parents, obj, 0)
    ensures AlwaysAgree(types, parents, roles, obj)
  {
    forall members, actor | RolesRegistered(Access(types, parents, members, roles))
      ensures Agree(Access(types, parents, members, roles), actor, obj)
    {
      var a := Access(types, parents, members, roles);
      if EffectiveRank(a, actor, obj).Some? { RankImpliesReach(a, actor, obj); }
      if obj in ReachableAny(a, actor) { ReachImpliesRank(a, actor, obj); }
    }
  }

  lemma SoleEdgeBeyondTheClimb(a: Access, actor: Id, obj: Id, missed: Id, role: string)
    requires a.members == map[(missed, actor) := role]
    requires missed !in Climb(a.parents, obj, 0)
    requires obj in Closure(ScopeEdges(a.parents), {missed})
    ensures obj in ReachableAny(a, actor) && EffectiveRank(a, actor, obj).None?
  {
    ClosureHasSeeds(TeamEdges(a), {actor});
    assert (missed, actor) in a.members && (missed, actor).1 in Principals(a, actor);
    assert missed in Anchors(a, actor);
    ClosureMonotone(ScopeEdges(a.parents), {missed}, ScopeEdges(a.parents), Anchors(a, actor));
  }

  /** In a forest the number of ancestors decides whether the cap cuts the climb. */
  lemma {:induction false} UncutIffFewAncestors(parents: map<Id, Option<Id>>, id: Id, depth: nat)
    requires Acyclic(ScopeEdges(parents)) && depth <= DEPTH_CAP
    ensures Uncut(parents, id, depth) <==> |AncestorsOf(parents, id)| <= DEPTH_CAP - depth
    decreases DEPTH_CAP - depth
  {
    AncestorCount(parents, id);
    if id in parents && parents[id].Some? && depth < DEPTH_CAP {
      UncutIffFewAncestors(parents, parents[id].value, depth + 1);
    }
  }

  lemma AncestorCount(parents: map<Id, Option<Id>>, id: Id)
    requires Acyclic(ScopeEdges(parents))
    ensures |AncestorsOf(parents, id)| ==
      if id in parents && parents[id].Some? then |AncestorsOf(parents, parents[id].value)| + 1 else 0
  {
    AncestorStep(parents, id);
    if id in parents && parents[id].Some? {
      AncestorsExcludeSelf(parents, parents[id].value);
    }
  }

  /** All proper ancestors, with no cap. */
  ghost function AncestorsOf(parents: map<Id, Option<Id>>, id: Id): set<Id> {
    set e | e in ScopeEdges(parents) && id in Closure(ScopeEdges(parents), {e.1}) :: e.0
  }

  lemma AncestorsExcludeSelf(parents: map<Id, Option<Id>>, id: Id)
    requires Acyclic(ScopeEdges(parents))
    ensures id !in AncestorsOf(parents, id)
  {
    AcyclicIffNoEdgeReturns(ScopeEdges(parents));
  }

  lemma AncestorStep(parents: map<Id, Option<Id>>, id: Id)
    ensures AncestorsOf(parents, id) ==
      if id in parents && parents[id].Some? then AncestorsOf(parents, parents[id].value) + {parents[id].value} else {}
  {
    var edges := ScopeEdges(parents);
    forall e | e in edges && id in Closure(edges, {e.1})
      ensures id in parents && parents[id].Some?
      ensures e.0 == parents[id].value || parents[id].value in Closure(edges, {e.1})
    {
      ClosureIsReachability(edges, {e.1}, id);
      var p :| WalkBetween(edges, p, e.1, id);
      if |p| > 1 {
        assert (p[|p| - 2], p[|p| - 2 + 1]) in edges;
        var q := p[..|p| - 1];
        forall i | 0 <= i < |q| - 1 ensures (q[i], q[i + 1]) in edges { assert (p[i], p[i + 1]) in edges; }
        assert WalkBetween(edges, q, e.1, p[|p| - 2]);
        ClosureIsReachability(edges, {e.1}, p[|p| - 2]);
      }
    }
    if id in parents && parents[id].Some? {
      var up := parents[id].value;
      assert (up, id) in edges;
      ClosureHasSeeds(edges, {id});
      forall e | e in edges && up in Closure(edges, {e.1}) ensures id in Closure(edges, {e.1}) {
        ClosureFollows(edges, {e.1}, up, id);
      }
    }
  }

  // ---- ranks only fall when rows go away --------------------------------------

  /** `after` has no membership, team edge or climb that `before` had not. */
  ghost predicate Shrinks(before: Access, after: Access) {
    && after.roles == before.roles
    && (forall k | k in after.members :: k in before.members && after.members[k] == before.members[k])
    && TeamEdges(after) <= TeamEdges(before)
    && (forall id | id in after.parents && after.parents[id].Some? ::
          id in before.parents && before.parents[id] == after.parents[id])
  }

  ghost predicate RankLe(r: Option<int>, s: Option<int>) {
    r.Some? ==> s.Some? && r.value <= s.value
  }

  lemma {:induction false} ClimbShrinks(before: map<Id, Option<Id>>, after: map<Id, Option<Id>>, id: Id, depth: nat)
    requires depth <= DEPTH_CAP
    requires forall x | x in after && after[x].Some? :: x in before && before[x] == after[x]
    ensures forall x | x in Climb(after, id, depth) :: x in Climb(before, id, depth)
    decreases DEPTH_CAP - depth
  {
    if id in after && after[id].Some? && depth < DEPTH_CAP {
      ClimbShrinks(before, after, after[id].value, depth + 1);
    }
  }

  lemma ShrinkingNeverRaises(before: Access, after: Access, actor: Id, obj: Id)
    requires Shrinks(before, after)
    ensures RankLe(EffectiveRank(after, actor, obj), EffectiveRank(before, actor, obj))
  {
    ClosureMonotone(TeamEdges(after), {actor}, TeamEdges(before), {actor});
    ClimbShrinks(before.parents, after.parents, obj, 0);
    assert forall k | Counts(after, actor, obj, k) :: Counts(before, actor, obj, k);
  }
}
