/** Roster requests as they really run: the guards read, and some time later the row is written
    (crates/api/src/members.rs); other roster requests may come between. */
module RosterRaces {
  import opened Prelude
  import opened Fixpoint
  import opened Rbac
  import opened Members

  datatype Ask =
    | Grant(typeId: string, id: Id, member: Id, role: string)
    | ChangeRole(typeId: string, id: Id, member: Id, role: string)
    | Revoke(typeId: string, id: Id, member: Id)

  /** Whether the guards let the request through on these tables. */
  ghost predicate Passes(a: Access, caller: Caller, ask: Ask) {
    match ask
    case Grant(typeId, id, member, role) => AddMember(a, caller, typeId, id, member, role).Ok?
    case ChangeRole(typeId, id, member, role) => SetMember(a, caller, typeId, id, member, role).Ok?
    case Revoke(typeId, id, member) => RemoveMember(a, caller, typeId, id, member).Ok?
  }

  /** The statement that follows: an upsert with its foreign keys, an update and a delete of the row there. */
  ghost function Written(a: Access, ask: Ask): Access {
    match ask
    case Grant(_, id, member, role) =>
      if id in a.types && member in a.types && role in a.roles then WithEdge(a, id, member, role) else a
    case ChangeRole(_, id, member, role) => if (id, member) in a.members then WithEdge(a, id, member, role) else a
    case Revoke(_, id, member) => WithoutEdge(a, id, member)
  }

  /** Done in one go, guard and statement are the request that module Members specifies. */
  lemma AtOnceIsTheRequest(a: Access, caller: Caller, ask: Ask)
    requires Passes(a, caller, ask)
    ensures match ask
      case Grant(typeId, id, member, role) => AddMember(a, caller, typeId, id, member, role) == Ok(Written(a, ask))
      case ChangeRole(typeId, id, member, role) => SetMember(a, caller, typeId, id, member, role) == Ok(Written(a, ask))
      case Revoke(typeId, id, member) => RemoveMember(a, caller, typeId, id, member) == Ok(Written(a, ask))
  {
    hide RequireRank, PrincipalsContain, Owners, WithEdge, WithoutEdge;
  }

  datatype Sys = Sys(access: Access, passed: map<nat, Ask>)

  datatype Move =
    | Check(ticket: nat, caller: Caller, ask: Ask)
    | Commit(ticket: nat)

  ghost function Next(s: Sys, move: Move): Sys {
    match move
    case Check(ticket, caller, ask) =>
      if ticket !in s.passed && Passes(s.access, caller, ask) then s.(passed := s.passed[ticket := ask]) else s
    case Commit(ticket) =>
      if ticket in s.passed then Sys(Written(s.access, s.passed[ticket]), s.passed - {ticket}) else s
  }

  ghost function Play(s: Sys, moves: seq<Move>): Sys {
    if moves == [] then s
    else Next(Play(s, moves[..|moves| - 1]), moves[|moves| - 1])
  }

  ghost function At(s: Sys, moves: seq<Move>, i: nat): Sys
    requires i <= |moves|
  {
    Play(s, moves[..i])
  }

  lemma AtNext(s: Sys, moves: seq<Move>, i: nat)
    requires i < |moves|
    ensures At(s, moves, i + 1) == Next(At(s, moves, i), moves[i])
  {
    hide Next;
    assert moves[..i + 1][..i] == moves[..i];
  }

  // ---- cycles ------------------------------------------------------------------------------------

  /** The move writes a team membership that closes a cycle by now. */
  ghost predicate Closes(s: Sys, move: Move) {
    && move.Commit? && move.ticket in s.passed
    && var ask := s.passed[move.ticket];
    && ask.Grant? && ask.id in s.access.types && s.access.types[ask.id] == TEAM
    && ask.member in s.access.types && ask.role in s.access.roles
    && PrincipalsContain(s.access, ask.id, ask.member)
  }

  lemma WrittenTeams(a: Access, ask: Ask)
    ensures ask.ChangeRole? ==> TeamEdges(Written(a, ask)) == TeamEdges(a)
    ensures ask.Revoke? ==> TeamEdges(Written(a, ask)) <= TeamEdges(a)
  {
    match ask {
      case ChangeRole(_, id, member, role) => if (id, member) in a.members { RoleChangeKeepsTeamEdges(a, id, member, role); }
      case Revoke(_, id, member) => RemoveShrinks(a, id, member);
      case _ =>
    }
  }

  lemma ClosesIff(s: Sys, move: Move)
    requires Acyclic(TeamEdges(s.access))
    ensures Acyclic(TeamEdges(Next(s, move).access)) <==> !Closes(s, move)
  {
    hide Passes, Acyclic, PrincipalsContain;
    if move.Commit? && move.ticket in s.passed {
      var ask := s.passed[move.ticket];
      WrittenTeams(s.access, ask);
      if ask.Revoke? {
        AcyclicSubset(TeamEdges(s.access), TeamEdges(Written(s.access, ask)));
      } else if ask.Grant? && ask.id in s.access.types && ask.member in s.access.types && ask.role in s.access.roles {
        if s.access.types[ask.id] == TEAM {
          CycleGuardIsExact(s.access, ask.id, ask.member, ask.role);
        } else {
          TeamEdgesWithEdge(s.access, ask.id, ask.member, ask.role);
        }
      }
    }
  }

  /** However guards and statements of roster requests interleave, the team graph stays acyclic exactly if
      for every grant to a team its cycle guard would still pass when the row is written. */
  lemma TeamsStayAcyclicIff(s: Sys, moves: seq<Move>)
    requires Acyclic(TeamEdges(s.access))
    ensures (forall i | 0 <= i <= |moves| :: Acyclic(TeamEdges(At(s, moves, i).access)))
      <==> (forall i | 0 <= i < |moves| :: !Closes(At(s, moves, i), moves[i]))
  {
    hide Acyclic, TeamEdges, Closes, Next;
    assert At(s, moves, 0) == s;
    hide At;
    var holds := (i: nat) => i <= |moves| && Acyclic(TeamEdges(At(s, moves, i).access));
    var breaks := (i: nat) => i < |moves| && Closes(At(s, moves, i), moves[i]);
    forall i: nat | i < |moves| && holds(i) ensures holds(i + 1) <==> !breaks(i) {
      AtNext(s, moves, i);
      ClosesIff(At(s, moves, i), moves[i]);
    }
    HoldsIffNeverBroken(|moves|, holds, breaks);
    assert forall i: nat | i <= |moves| :: holds(i) == Acyclic(TeamEdges(At(s, moves, i).access));
    assert forall i: nat | i < |moves| :: breaks(i) == Closes(At(s, moves, i), moves[i]);
  }

  // ---- owners ---------------------------------------------------------------------------------------

  /** The move takes away, or demotes, who is the object's sole owner by now. */
  ghost predicate Disowns(s: Sys, move: Move, obj: Id) {
    && move.Commit? && move.ticket in s.passed
    && var ask := s.passed[move.ticket];
    && ask.id == obj && Owners(s.access, obj) == {ask.member}
    && match ask
       case Grant(_, id, member, role) => id in s.access.types && member in s.access.types && role in s.access.roles && role != OWNER
       case ChangeRole(_, _, _, role) => role != OWNER
       case Revoke(_, _, _) => true
  }

  lemma DisownsIff(s: Sys, move: Move, obj: Id)
    requires Owners(s.access, obj) != {}
    ensures Owners(Next(s, move).access, obj) == {} <==> Disowns(s, move, obj)
  {
    hide Passes;
    if move.Commit? && move.ticket in s.passed {
      var ask := s.passed[move.ticket];
      if ask.Revoke? {
        OwnersWithoutEdge(s.access, ask.id, ask.member, obj);
      } else {
        OwnersWithEdge(s.access, ask.id, ask.member, ask.role, obj);
        OwnersAreMembers(s.access, obj);
      }
      hide Owners;
    }
  }

  lemma OwnersAreMembers(a: Access, obj: Id)
    ensures forall member | member in Owners(a, obj) :: (obj, member) in a.members
  {}

  /** However they interleave, an object keeps an owner exactly if no statement removes or demotes the one
      it has left by then. */
  lemma ObjectStaysOwnedIff(s: Sys, moves: seq<Move>, obj: Id)
    requires Owners(s.access, obj) != {}
    ensures (forall i | 0 <= i <= |moves| :: Owners(At(s, moves, i).access, obj) != {})
      <==> (forall i | 0 <= i < |moves| :: !Disowns(At(s, moves, i), moves[i], obj))
  {
    hide Owners, Disowns, Next;
    assert At(s, moves, 0) == s;
    hide At;
    var holds := (i: nat) => i <= |moves| && Owners(At(s, moves, i).access, obj) != {};
    var breaks := (i: nat) => i < |moves| && Disowns(At(s, moves, i), moves[i], obj);
    forall i: nat | i < |moves| && holds(i) ensures holds(i + 1) <==> !breaks(i) {
      AtNext(s, moves, i);
      DisownsIff(At(s, moves, i), moves[i], obj);
    }
    HoldsIffNeverBroken(|moves|, holds, breaks);
    assert forall i: nat | i <= |moves| :: holds(i) == (Owners(At(s, moves, i).access, obj) != {});
    assert forall i: nat | i < |moves| :: breaks(i) == Disowns(At(s, moves, i), moves[i], obj);
  }

  // ---- both can go wrong ---------------------------------------------------------------------------

  /** Two requests of which both guards are read before either row is written. */
  function BothFirst(one: Move, two: Move): seq<Move>
    requires one.Check? && two.Check?
  {
    [one, two, Commit(one.ticket), Commit(two.ticket)]
  }

  lemma {:induction false} PlayBothFirst(s: Sys, one: Move, two: Move)
    requires one.Check? && two.Check?
    ensures Play(s, BothFirst(one, two)) == Next(Next(Next(Next(s, one), two), Commit(one.ticket)), Commit(two.ticket))
  {
    hide Next;
    var moves := BothFirst(one, two);
    assert moves[..4] == moves && moves[..3][..2] == moves[..2] && moves[..2][..1] == moves[..1] && moves[..1][..0] == [];
    AtNext(s, moves, 0);
    AtNext(s, moves, 1);
    AtNext(s, moves, 2);
    AtNext(s, moves, 3);
    assert Play(s, moves[..0]) == s;
  }

  lemma BothPassed(a: Access, caller: Caller, x: Ask, y: Ask)
    requires Passes(a, caller, x) && Passes(a, caller, y)
    ensures Play(Sys(a, map[]), BothFirst(Check(0, caller, x), Check(1, caller, y))).access == Written(Written(a, x), y)
  {
    PlayBothFirst(Sys(a, map[]), Check(0, caller, x), Check(1, caller, y));
    hide Passes, Written, Play;
  }

  /** Any two teams that do not contain each other: an admin's grants of each to the other both pass their
      guards, and once both are written the teams contain each other. */
  lemma TwoGrantsCloseACycle(a: Access, admin: Id, t: Id, u: Id, role: string)
    requires t != u && ObjectExists(a, t, TEAM) && ObjectExists(a, u, TEAM)
    requires role in a.roles && a.roles[role] <= MAX_I32
    requires !PrincipalsContain(a, t, u) && !PrincipalsContain(a, u, t)
    ensures var caller := Caller(admin, true);
      var grants := BothFirst(Check(0, caller, Grant(TEAM, t, u, role)), Check(1, caller, Grant(TEAM, u, t, role)));
      !Acyclic(TeamEdges(Play(Sys(a, map[]), grants).access))
  {
    var x, y := Grant(TEAM, t, u, role), Grant(TEAM, u, t, role);
    BothPassed(a, Caller(admin, true), x, y);
    hide Play, PrincipalsContain;
    var after := Written(Written(a, x), y);
    TeamEdgesWithEdge(a, t, u, role);
    TeamEdgesWithEdge(WithEdge(a, t, u, role), u, t, role);
    var edges := TeamEdges(after);
    assert (u, t) in edges && (t, u) in edges;
    hide TeamEdges, Written;
    ClosureHasSeeds(edges, {t});
    ClosureFollows(edges, {t}, t, u);
    AcyclicIffNoEdgeReturns(edges);
  }

  /** Any object with two owners: an admin's demotions of both pass their guards, and once both are written
      nobody owns it. */
  lemma TwoDemotionsOrphan(a: Access, admin: Id, typeId: string, obj: Id, x: Id, y: Id, role: string)
    requires x != y && ObjectExists(a, obj, typeId) && Owners(a, obj) == {x, y}
    requires role != OWNER && role in a.roles && a.roles[role] <= MAX_I32
    ensures var caller := Caller(admin, true);
      var demotions := BothFirst(Check(0, caller, ChangeRole(typeId, obj, x, role)), Check(1, caller, ChangeRole(typeId, obj, y, role)));
      Owners(Play(Sys(a, map[]), demotions).access, obj) == {}
  {
    var one, two := ChangeRole(typeId, obj, x, role), ChangeRole(typeId, obj, y, role);
    OwnersAreMembers(a, obj);
    assert |{x, y}| == 2;
    assert x in Owners(a, obj) && y in Owners(a, obj);
    hide Owners;
    BothPassed(a, Caller(admin, true), one, two);
    hide Play;
    OwnersWithEdge(a, obj, x, role, obj);
    OwnersWithEdge(WithEdge(a, obj, x, role), obj, y, role, obj);
  }
}
