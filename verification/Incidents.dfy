/** Single requests on the seeded database that do what one would not expect. */
module Incidents {
  import opened Prelude
  import opened Fixpoint
  import opened Json
  import opened Objects
  import opened Validity
  import opened Rbac
  import opened Cases
  import opened Catalog
  import opened Server
  import opened Runs
  import opened CaseRuns
  import opened Authority
  import opened Outsiders
  import opened OneFieldPatch
  import opened Seed
  import FieldPerms
  import Ranks

  // ---- letting oneself in through a team -------------------------------------------------------

  lemma SeedPrincipals()
    ensures Principals(SeedAccess(), ANN) == {ANN} && Principals(SeedAccess(), BEN) == {BEN} && Principals(SeedAccess(), CREW) == {CREW}
  {
    hide SeedAccess;
    SeedTeamEdges();
    var edges := TeamEdges(SeedAccess());
    forall x | x in {ANN, BEN, CREW} ensures Closure(edges, {x}) == {x} {
      ClosureWithin(edges, {x}, {x});
      ClosureHasSeeds(edges, {x});
    }
  }

  lemma SeedClimbs()
    ensures Climb(SeedAccess().parents, PROJECT, 0) == [PROJECT] && Climb(SeedAccess().parents, CREW, 0) == [CREW, ORG]
    ensures Climb(SeedAccess().parents, BEN, 0) == [BEN]
  {
    assert Climb(SeedAccess().parents, ORG, 1) == [ORG];
  }

  lemma SeedRanks()
    ensures EffectiveRank(SeedAccess(), ANN, PROJECT) == EffectiveRank(SeedAccess(), BEN, PROJECT) == None
    ensures EffectiveRank(SeedAccess(), ANN, CREW) == Some(3)
    ensures EffectiveRank(SeedAccess(), CREW, PROJECT) == Some(4)
    ensures EffectiveRank(SeedAccess(), ANN, BEN) == Some(4)
  {
    var a := SeedAccess();
    SeedPrincipals();
    SeedClimbs();
    hide Principals, Climb;
    assert forall k :: !Counts(a, ANN, PROJECT, k) && !Counts(a, BEN, PROJECT, k);
    assert Counts(a, ANN, CREW, (ORG, ANN)) && forall k | Counts(a, ANN, CREW, k) :: k == (ORG, ANN);
    assert Counts(a, CREW, PROJECT, (PROJECT, CREW)) && forall k | Counts(a, CREW, PROJECT, k) :: k == (PROJECT, CREW);
    assert Counts(a, ANN, BEN, (BEN, ANN)) && forall k | Counts(a, ANN, BEN, k) :: k == (BEN, ANN);
  }

  lemma SeedActors()
    ensures var db := SeedDb();
      && IsActor(db, ANN) && IsActor(db, BEN) && !AdminOf(db, ANN) && !AdminOf(db, BEN)
      && ActorReady(db) && db.access == SeedAccess() && db.perms == map[] && db.rows[BEN].version == 1
      && db.access.parents[BEN] == None
  {
    hide SeededTypes, ActorType, MirrorOf, CaseData;
    SeededTypesHave();
  }

  lemma AnnAndBenAreOutside()
    ensures AllOutside(SeedDb(), PROJECT, {ANN, BEN})
  {
    hide SeedDb, SeedAccess, EffectiveRank, AdminOf;
    SeedActors();
    SeedRanks();
  }

  lemma AnnMayJoin()
    ensures Joins(SeedAccess(), Caller(ANN, false), Grant(TEAM, CREW, ANN, "viewer"))
  {
    SeedRanks();
    SeedPrincipals();
    hide EffectiveRank, Principals;
  }

  /** Ann administers the workspace and has no reach of the project. The team is in the workspace and owns
      the project. One grant puts her into the team, and she ranks as an owner of the project. */
  lemma AnnLetsHerselfIn()
    ensures var db, req := SeedDb(), Grant(TEAM, CREW, ANN, "viewer");
      && Good(db) && AllOutside(db, PROJECT, {ANN}) && SignedIn(db, Caller(ANN, false))
      && EffectiveRank(Handle(db, Caller(ANN, false), req).db.access, ANN, PROJECT) == Some(4)
      && CrowdLetsIn(db, Step(Caller(ANN, false), req), PROJECT, {ANN})
  {
    hide Good, SeedAccess, SeedRows, SeededTypes, Handle, EffectiveRank, Principals, Joins, PrincipalsContain, Inside, AdminOf;
    SeedIsGood();
    SeedActors();
    AnnAndBenAreOutside();
    SeedProjectIsRoot();
    SeedRanks();
    SeedPrincipals();
    AnnMayJoin();
    var db, step := SeedDb(), Step(Caller(ANN, false), Grant(TEAM, CREW, ANN, "viewer"));
    JoinFromOutside(db, step.caller, step.request, PROJECT, ANN);
    assert Gains(db, step, PROJECT, ANN);
  }

  lemma SeedProjectIsRoot()
    ensures PROJECT in SeedDb().rows && Uncut(SeedDb().access.parents, PROJECT, 0)
  {
    hide SeededTypes;
  }

  // ---- making someone an admin -----------------------------------------------------------------

  const PROMOTION := Write(Patch, ACTOR, BEN, Tag(1), map[ROLE := Str("admin")])

  lemma RoleTakesAdmin()
    ensures KindFits(ActorType().fields[4], Str("admin"))
    ensures FieldPerms.FieldFloors(SeedAccess().roles, map[], ActorType().typeId, ActorType().fields[4]).write == 4
  {
    var items := Get(ActorType().fields[4].options, "enum").value.items;
    assert items[1] == Str("admin");
  }

  lemma AnnMaySetBensRole()
    ensures Settable(SeedDb(), ACTOR, BEN, 4, Str("admin")) && MaySet(SeedDb(), Caller(ANN, false), ACTOR, BEN, 4)
    ensures SeedDb().registry[ACTOR].fields[4].field == ROLE
  {
    SeedActors();
    RoleField();
    RoleTakesAdmin();
    SeedRanks();
    hide SeedDb, SeedAccess, ActorType, EffectiveRank, FieldPerms.FieldFloors;
  }

  lemma AnnsPatchIsStored()
    ensures Good(SeedDb()) && Promotes(SeedDb(), Step(Caller(ANN, false), PROMOTION), BEN)
  {
    hide Good, SeedDb, SeedAccess, Prepare, ActorType, EffectiveRank, FieldPerms.FieldFloors, CaseReady, InSync, Settable, MaySet, KindFits, Update;
    SeedIsGood();
    SeedActors();
    AnnMaySetBensRole();
    var db := SeedDb();
    SettableExists(db, ACTOR, BEN, 4, Str("admin"));
    SettingIsPrepared(db, Caller(ANN, false), ACTOR, BEN, 4, Str("admin"), 1);
    RootIsNoOrphan(db, BEN);
    CurrentWriteAcceptedIff(db, Caller(ANN, false), Patch, ACTOR, BEN, map[ROLE := Str("admin")]);
  }

  lemma SettableExists(db: Db, typeId: string, id: Id, i: nat, v: Value)
    requires Settable(db, typeId, id, i, v)
    ensures typeId in db.registry && RowExists(db, id, typeId) && i < |db.registry[typeId].fields|
  {
    hide KindFits, ValidateCaseChange;
  }

  /** What has no scope parent by its type is nobody's orphan. */
  lemma RootIsNoOrphan(db: Db, id: Id)
    requires ActorReady(db) && IsActor(db, id)
    ensures !Orphaned(db, id)
  {}

  lemma SeedHasProject()
    ensures var db := SeedDb();
      && RowExists(db, PROJECT, "project") && db.rows[PROJECT] == Row(ProjectData(), 1)
      && "project" in db.registry && db.registry["project"] == ProjectType()
  {
    hide ProjectType, ProjectData, SeededTypes, MirrorOf;
    SeededTypesHave();
  }

  lemma ProjectTakesText()
    ensures |ProjectType().fields| == 7
    ensures var f := ProjectType().fields[4]; f.field == "description" && f.Writable() && KindFits(f, Str("new"))
  {
    hide EnumOptions;
  }

  /** Ann owns Ben's actor record, and neither has reach of the project. Ann's PATCH of that record joins no
      team and changes no roster, yet Ben is an admin afterwards, and his next request is let through. */
  lemma AnnPromotesBen()
    ensures var db, step := SeedDb(), Step(Caller(ANN, false), PROMOTION);
      var after := Handle(db, step.caller, step.request).db;
      && Good(db) && SignedIn(db, step.caller) && AllOutside(db, PROJECT, {ANN, BEN})
      && CrowdLetsIn(db, step, PROJECT, {ANN, BEN}) && !Joins(db.access, step.caller, step.request)
      && after.access == db.access && SignedIn(after, Caller(BEN, true))
      && Prepare(after, Caller(BEN, true), Patch, "project", PROJECT, Tag(1), map["description" := Str("new")]).Ok?
  {
    hide Good, SeedDb, SeedAccess, Handle, EffectiveRank, Prepare, Inside, Promotes, ActorReady, AdminOf, Settable, MaySet;
    var db, step := SeedDb(), Step(Caller(ANN, false), PROMOTION);
    var after := Handle(db, step.caller, step.request).db;
    SeedActors();
    AnnAndBenAreOutside();
    AnnsPatchIsStored();
    GoodRowsMinted(db, BEN);
    BecomesAdminIff(db, step, BEN);
    AdminsAreActors(after, BEN);
    Ranks.QuietStepKeepsAccess(db, step.caller, step.request);
    HandleKeepsGood(db, step.caller, step.request);
    SeedHasProject();
    var e := EffectOf(db, step.caller, step.request);
    BenMayPatch(after);
    SettingIsPrepared(after, Caller(BEN, true), "project", PROJECT, 4, Str("new"), 1);
  }

  lemma AdminsAreActors(db: Db, actor: Id)
    requires AdminOf(db, actor)
    ensures SignedIn(db, Caller(actor, true))
  {}

  lemma BenMayPatch(db: Db)
    requires RowExists(db, PROJECT, "project") && "project" in db.registry && db.registry["project"] == ProjectType()
    ensures Settable(db, "project", PROJECT, 4, Str("new")) && MaySet(db, Caller(BEN, true), "project", PROJECT, 4)
    ensures db.registry["project"].fields[4].field == "description"
  {
    ProjectTakesText();
    hide ProjectType;
  }

  // ---- an assignee that does not exist ---------------------------------------------------------

  const GONE := "USR_gone"

  lemma SeedCase()
    ensures var db := SeedDb();
      && IsCase(db, FIRST_CASE) && db.rows[FIRST_CASE] == Row(CaseData(), 4)
      && CASE in db.registry && db.registry[CASE] == CaseType()
      && db.access.parents[FIRST_CASE] == Some(PROJECT) && PROJECT in db.access.types
      && db.workflows == map["default" := Workflow.DEFAULT_WORKFLOW]
      && db.checks == map[(FIRST_CASE, REVIEWED) := true]
      && db.mirror == map[FIRST_CASE := MirrorOf(CaseData(), 4)]
  {
    hide CaseType, CaseData, MirrorOf, SeededTypes;
    SeededTypesHave();
  }

  lemma CaseTakesAssignee()
    ensures Settable(SeedDb(), CASE, FIRST_CASE, 8, Str(GONE))
    ensures CaseType().fields[8].field == "assignee_id"
  {
    SeedCase();
    CaseAssigneeField();
    hide SeedDb, CaseType;
  }

  lemma CaseAssigneeField()
    ensures |CaseType().fields| == 11
    ensures var f := CaseType().fields[8]; f.field == "assignee_id" && f.Writable() && KindFits(f, Str(GONE))
  {
    hide EnumOptions;
  }

  /** The write is prepared and stored, yet answers an error, and the mirror is behind. */
  lemma DanglingAssigneeLeavesTheMirrorBehind()
    ensures var db := SeedDb();
      var reply := Handle(db, Caller(DEV, true), Write(Patch, CASE, FIRST_CASE, Tag(4), map["assignee_id" := Str(GONE)]));
      && Good(db) && CaseReady(db) && InSync(db)
      && reply.result.Err? && !InSync(reply.db)
      && FIRST_CASE in reply.db.rows && reply.db.rows[FIRST_CASE].version == 5
      && StrAt(reply.db.rows[FIRST_CASE].data, "assignee_id") == Some(GONE)
  {
    hide Good, CaseReady, InSync, SeedDb, CaseType, CaseData, Prepare, Update, Finish;
    var db := SeedDb();
    SeedIsGood();
    SeedCase();
    CaseTakesAssignee();
    SettingIsPrepared(db, Caller(DEV, true), CASE, FIRST_CASE, 8, Str(GONE), 4);
    var p := Setting(db, CASE, FIRST_CASE, 8, Str(GONE), 4);
    PreparedCase(db, Caller(DEV, true), Patch, FIRST_CASE, Tag(4), map["assignee_id" := Str(GONE)]);
    SeedCaseIsNoOrphan();
    CurrentWriteAcceptedIff(db, Caller(DEV, true), Patch, CASE, FIRST_CASE, map["assignee_id" := Str(GONE)]);
    CaseWriteOutcome(db, p);
    GoneIsNobody();
  }

  lemma GoneIsNobody()
    ensures GONE !in SeedDb().access.types
  {
    hide SeedRows, SeededTypes;
  }

  lemma SeedCaseIsNoOrphan()
    ensures !Orphaned(SeedDb(), FIRST_CASE)
  {
    SeedCase();
    SeedParents();
    hide SeedDb, CaseType, CaseData, ScopeParent;
  }
}
