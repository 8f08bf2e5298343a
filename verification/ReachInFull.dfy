/** Rank and reach spelled out in the rows themselves: chains of team memberships and of parents. */
module ReachInFull {
  import opened Prelude
  import opened Fixpoint
  import opened Rbac
  import Relations

  /** The first has a role on the second, and the second is a team. */
  predicate BelongsTo(a: Access, member: Id, team: Id) {
    (team, member) in a.members && team in a.types && a.types[team] == "team"
  }

  /** Each belongs to the next. */
  ghost predicate TeamChain(a: Access, p: seq<Id>) {
    p != [] && forall i | 0 <= i < |p| - 1 :: BelongsTo(a, p[i], p[i + 1])
  }

  /** The actor is that principal, or belongs to it through teams. */
  ghost predicate StandsFor(a: Access, actor: Id, principal: Id) {
    exists p :: TeamChain(a, p) && p[0] == actor && p[|p| - 1] == principal
  }

  /** The row `n` parents up. */
  function AncestorAt(parents: map<Id, Option<Id>>, id: Id, n: nat): Option<Id>
    decreases n
  {
    if n == 0 then Some(id)
    else if id in parents && parents[id].Some? then AncestorAt(parents, parents[id].value, n - 1)
    else None
  }

  /** The row itself or one at most that many parents up. */
  ghost predicate IsAncestor(parents: map<Id, Option<Id>>, id: Id, most: nat, x: Id) {
    exists n: nat :: n <= most && AncestorAt(parents, id, n) == Some(x)
  }

  /** A role held on the object, or on one of its first eight ancestors, by the actor or a team of its. */
  ghost predicate Holds(a: Access, actor: Id, obj: Id, k: (Id, Id)) {
    && k in a.members && a.members[k] in a.roles
    && StandsFor(a, actor, k.1)
    && IsAncestor(a.parents, obj, 8, k.0)
  }

  lemma BelongingIsAnEdge(a: Access, member: Id, team: Id)
    ensures (member, team) in TeamEdges(a) <==> BelongsTo(a, member, team)
  {
    if BelongsTo(a, member, team) { assert (team, member) in a.members; }
  }

  lemma ChainsAreWalks(a: Access, p: seq<Id>)
    ensures TeamChain(a, p) <==> Walk(TeamEdges(a), p)
  {
    hide TeamEdges, BelongsTo;
    forall i | 0 <= i < |p| - 1 ensures (p[i], p[i + 1]) in TeamEdges(a) <==> BelongsTo(a, p[i], p[i + 1]) {
      BelongingIsAnEdge(a, p[i], p[i + 1]);
    }
  }

  /** Principals are those the actor stands for. */
  lemma PrincipalsInFull(a: Access, actor: Id, principal: Id)
    ensures principal in Principals(a, actor) <==> StandsFor(a, actor, principal)
  {
    ClosureIsReachability(TeamEdges(a), {actor}, principal);
    hide TeamEdges, Walk;
    if Reaches(TeamEdges(a), actor, principal) {
      var p :| WalkBetween(TeamEdges(a), p, actor, principal);
      ChainsAreWalks(a, p);
    }
    if StandsFor(a, actor, principal) {
      var p :| TeamChain(a, p) && p[0] == actor && p[|p| - 1] == principal;
      ChainsAreWalks(a, p);
      assert WalkBetween(TeamEdges(a), p, actor, principal);
    }
  }

  lemma {:induction false} ClimbInFull(parents: map<Id, Option<Id>>, id: Id, depth: nat, x: Id)
    requires depth <= DEPTH_CAP
    ensures x in Climb(parents, id, depth) <==> IsAncestor(parents, id, 8 - depth, x)
    decreases DEPTH_CAP - depth
  {
    assert AncestorAt(parents, id, 0) == Some(id);
    if id in parents && parents[id].Some? && depth < DEPTH_CAP {
      ClimbInFull(parents, parents[id].value, depth + 1, x);
    }
    OneMoreUp(parents, id, 8 - depth, x);
  }

  /** An ancestor is the row itself, or an ancestor of its parent. */
  lemma OneMoreUp(parents: map<Id, Option<Id>>, id: Id, most: nat, x: Id)
    ensures IsAncestor(parents, id, most, x) <==>
      x == id || (most > 0 && id in parents && parents[id].Some? && IsAncestor(parents, parents[id].value, most - 1, x))
  {
    assert AncestorAt(parents, id, 0) == Some(id);
    if id in parents && parents[id].Some? {
      var up := parents[id].value;
      if n: nat :| n <= most && AncestorAt(parents, id, n) == Some(x) && n > 0 {
        assert AncestorAt(parents, up, n - 1) == Some(x);
      }
      if most > 0 && IsAncestor(parents, up, most - 1, x) {
        var n: nat :| n <= most - 1 && AncestorAt(parents, up, n) == Some(x);
        assert AncestorAt(parents, id, n + 1) == Some(x);
      }
    }
  }

  lemma CountsInFull(a: Access, actor: Id, obj: Id, k: (Id, Id))
    ensures Counts(a, actor, obj, k) <==> Holds(a, actor, obj, k)
  {
    PrincipalsInFull(a, actor, k.1);
    ClimbInFull(a.parents, obj, 0, k.0);
    hide Principals, Climb, StandsFor, IsAncestor;
  }

  /** The rank is the highest of the roles held that way, and there is one if any is held. */
  lemma RankInFull(a: Access, actor: Id, obj: Id)
    ensures match EffectiveRank(a, actor, obj)
      case None => forall k :: !Holds(a, actor, obj, k)
      case Some(rank) =>
        && (exists k :: Holds(a, actor, obj, k) && a.roles[a.members[k]] == rank)
        && (forall k | Holds(a, actor, obj, k) :: a.roles[a.members[k]] <= rank)
  {
    forall k ensures Counts(a, actor, obj, k) <==> Holds(a, actor, obj, k) { CountsInFull(a, actor, obj, k); }
    hide EffectiveRank, Holds;
  }

  // ---- the cascade -------------------------------------------------------------------------

  ghost predicate Below(parents: map<Id, Option<Id>>, id: Id, top: Id) {
    exists n: nat :: AncestorAt(parents, id, n) == Some(top)
  }

  lemma {:induction false} WalksGoUp(parents: map<Id, Option<Id>>, p: seq<Id>)
    requires Walk(ScopeEdges(parents), p)
    ensures AncestorAt(parents, p[|p| - 1], |p| - 1) == Some(p[0])
    decreases |p|
  {
    if |p| > 1 {
      var q := p[..|p| - 1];
      assert (p[|p| - 2], p[|p| - 2 + 1]) in ScopeEdges(parents);
      forall i | 0 <= i < |q| - 1 ensures (q[i], q[i + 1]) in ScopeEdges(parents) { assert (p[i], p[i + 1]) in ScopeEdges(parents); }
      WalksGoUp(parents, q);
    }
  }

  lemma {:induction false} AncestorsLeadDown(parents: map<Id, Option<Id>>, id: Id, n: nat, top: Id)
    requires AncestorAt(parents, id, n) == Some(top)
    ensures id in Closure(ScopeEdges(parents), {top})
    decreases n
  {
    if n == 0 {
      ClosureHasSeeds(ScopeEdges(parents), {top});
    } else {
      var up := parents[id].value;
      AncestorsLeadDown(parents, up, n - 1, top);
      assert (up, id) in ScopeEdges(parents);
      ClosureFollows(ScopeEdges(parents), {top}, up, id);
    }
  }

  /** Some edge of the actor, or of a team of its, is on the object or on an ancestor however far up. */
  ghost predicate HasEdgeAbove(a: Access, actor: Id, obj: Id) {
    exists k :: k in a.members && StandsFor(a, actor, k.1) && Below(a.parents, obj, k.0)
  }

  /** The cascade reaches exactly those objects. */
  lemma CascadeInFull(a: Access, actor: Id, obj: Id)
    ensures obj in ReachableAny(a, actor) <==> HasEdgeAbove(a, actor, obj)
  {
    var edges := ScopeEdges(a.parents);
    ClosureIsReachability(edges, Anchors(a, actor), obj);
    if obj in ReachableAny(a, actor) {
      var top :| top in Anchors(a, actor) && Reaches(edges, top, obj);
      var p :| WalkBetween(edges, p, top, obj);
      WalksGoUp(a.parents, p);
      var k :| k in a.members && k.1 in Principals(a, actor) && k.0 == top;
      PrincipalsInFull(a, actor, k.1);
      assert Below(a.parents, obj, k.0);
    }
    if HasEdgeAbove(a, actor, obj) {
      var k :| k in a.members && StandsFor(a, actor, k.1) && Below(a.parents, obj, k.0);
      PrincipalsInFull(a, actor, k.1);
      var n: nat :| AncestorAt(a.parents, obj, n) == Some(k.0);
      AncestorsLeadDown(a.parents, obj, n, k.0);
      assert k.0 in Anchors(a, actor);
      ClosureHasSeeds(edges, Anchors(a, actor));
      ClosureTransitive(edges, Anchors(a, actor), k.0);
    }
  }

  /** A relation list shows the rows of the table with the entity at either end, of the kind asked for, whose
      other end is below some edge of the caller's. */
  lemma ListInFull(a: Access, caller: Caller, entity: Id, kind: Option<string>, rows: seq<Relations.Relation>, r: Relations.Relation)
    ensures r in Relations.Shown(a, caller, entity, kind, rows) <==>
      && r in rows && (entity == r.subject || entity == r.target) && (kind.Some? ==> r.kind == kind.value)
      && (caller.admin || HasEdgeAbove(a, caller.actor, if entity == r.subject then r.target else r.subject))
  {
    CascadeInFull(a, caller.actor, Relations.Other(r, entity));
    hide HasEdgeAbove, ReachableAny;
  }
}
