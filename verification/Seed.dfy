/** The database as the migrations leave it, with a workspace, a team, a project that the team owns, a case
    under review after three moves, and two more actors, one of whom owns the other's record: the
    invariants the run theorems start from are met. */
module Seed {
  import opened Prelude
  import opened Fixpoint
  import opened Json
  import opened Registry
  import opened Objects
  import opened Rbac
  import opened Workflow
  import opened Cases
  import opened Catalog
  import opened Server
  import opened Runs
  import opened CaseRuns
  import MirrorColumns
  import Ranks
  import M = Members

  const DEV := "USR_dev"
  const ANN := "USR_ann"
  const BEN := "USR_ben"
  const ORG := "ORG_1"
  const CREW := "TEM_1"
  const PROJECT := "PRJ_1"
  const FIRST_CASE := "CAS_1"
  const REVIEWED := "docs_reconciled"

  function DevData(): Record {
    map["display_name" := Str("Dev"), "handle" := Str("dev"), "kind" := Str("human"),
        "platform_role" := Str("admin"), "status" := Str("active")]
  }

  function AnnData(): Record {
    map["display_name" := Str("Ann"), "handle" := Str("ann"), "kind" := Str("human"),
        "platform_role" := Str("member"), "status" := Str("active")]
  }

  function BenData(): Record {
    map["display_name" := Str("Ben"), "handle" := Str("ben"), "kind" := Str("human"),
        "platform_role" := Str("member"), "status" := Str("active")]
  }

  function OrgData(): Record {
    map["name" := Str("Acme"), "slug" := Str("acme"), "status" := Str("active")]
  }

  function CrewData(): Record {
    map["workspace_id" := Str(ORG), "name" := Str("Crew"), "kind" := Str("team")]
  }

  function ProjectData(): Record {
    map["name" := Str("numu"), "slug" := Str("numu"), "status" := Str("planning"), "default_branch" := Str("main")]
  }

  function CaseData(): Record {
    map["title" := Str("first"), "type" := Str("task"), "status" := Str("in_review"), "priority" := Str("normal"),
        "origin" := Str("ui"), "visibility" := Str("internal"), "workflow_id" := Str("default"), "project_id" := Str(PROJECT)]
  }

  function SeedAccess(): Access {
    Access(
      map[DEV := "actor", ANN := "actor", BEN := "actor", ORG := "workspace", CREW := TEAM, PROJECT := "project", FIRST_CASE := CASE],
      map[DEV := None, ANN := None, BEN := None, ORG := None, CREW := Some(ORG), PROJECT := None, FIRST_CASE := Some(PROJECT)],
      map[(BEN, ANN) := M.OWNER, (ORG, DEV) := M.OWNER, (ORG, ANN) := "admin", (CREW, DEV) := M.OWNER,
          (PROJECT, DEV) := M.OWNER, (PROJECT, CREW) := M.OWNER, (FIRST_CASE, DEV) := M.OWNER],
      map["viewer" := 1, "member" := 2, "admin" := 3, "owner" := 4])
  }

  function SeedRows(): map<Id, Row> {
    map[DEV := Row(DevData(), 1), ANN := Row(AnnData(), 1), BEN := Row(BenData(), 1), ORG := Row(OrgData(), 1), CREW := Row(CrewData(), 1),
        PROJECT := Row(ProjectData(), 1), FIRST_CASE := Row(CaseData(), 4)]
  }

  function SeedDb(): Db {
    Db(
      SeedAccess(),
      SeedRows(),
      SeededTypes(),
      map[],
      map["default" := DEFAULT_WORKFLOW],
      map[FIRST_CASE := MirrorOf(CaseData(), 4)],
      map[(FIRST_CASE, REVIEWED) := true],
      {DEV, ANN, BEN, ORG, CREW, PROJECT, FIRST_CASE})
  }

  /** Field by field, a record passes if it passes at every position. */
  lemma FinalByPosition(td: TypeDef, data: Record)
    requires forall i | 0 <= i < |td.fields| :: FieldFinalOk(td.fields[i], data)
    ensures FinalOk(td, data)
  {}

  lemma OptionOk(f: FieldDef, names: seq<string>, default: string, data: Record, i: nat)
    requires f.kind == "enum" && f.options == EnumOptions(names, default) && i < |names|
    requires f.field in data && data[f.field] == Str(names[i])
    ensures FieldFinalOk(f, data)
  {
    var items := Get(f.options, "enum").value.items;
    assert items[i] == Str(names[i]);
  }

  lemma ActorDataOk(d: Record, role: nat)
    requires (d == DevData() && role == 1) || ((d == AnnData() || d == BenData()) && role == 0)
    ensures FinalOk(ActorType(), d)
  {
    var f := ActorType().fields;
    hide EnumOptions;
    OptionOk(f[3], ["human", "agent", "service"], "human", d, 0);
    OptionOk(f[4], ["member", "admin"], "member", d, role);
    OptionOk(f[5], ["active", "invited", "disabled"], "active", d, 0);
    FinalByPosition(ActorType(), d);
  }

  lemma OrgDataOk()
    ensures FinalOk(WorkspaceType(), OrgData())
  {
    var f, d := WorkspaceType().fields, OrgData();
    hide EnumOptions;
    OptionOk(f[2], ["active", "suspended"], "active", d, 0);
    FinalByPosition(WorkspaceType(), d);
  }

  lemma CrewDataOk()
    ensures FinalOk(TeamType(), CrewData())
  {
    var f, d := TeamType().fields, CrewData();
    hide EnumOptions;
    OptionOk(f[2], ["team", "department"], "team", d, 0);
    FinalByPosition(TeamType(), d);
  }

  lemma ProjectDataOk()
    ensures FinalOk(ProjectType(), ProjectData())
  {
    var f, d := ProjectType().fields, ProjectData();
    hide EnumOptions;
    OptionOk(f[3], ["planning", "active", "paused", "archived"], "planning", d, 0);
    FinalByPosition(ProjectType(), d);
  }

  lemma CaseEnumsOk()
    ensures var f, d := CaseType().fields, CaseData();
      FieldFinalOk(f[2], d) && FieldFinalOk(f[3], d) && FieldFinalOk(f[4], d) && FieldFinalOk(f[5], d) && FieldFinalOk(f[6], d)
  {
    var f, d := CaseType().fields, CaseData();
    hide EnumOptions, FieldFinalOk;
    OptionOk(f[2], ["bug", "feature", "task", "epic", "chore"], "task", d, 2);
    OptionOk(f[3], ["backlog", "todo", "in_progress", "in_review", "done"], "backlog", d, 3);
    OptionOk(f[4], ["low", "normal", "high", "urgent"], "normal", d, 1);
    OptionOk(f[5], ["ui", "agent", "import", "email", "web", "phone", "chat"], "ui", d, 0);
    OptionOk(f[6], ["internal", "public"], "internal", d, 0);
  }

  lemma CasePlainOk()
    ensures var f, d := CaseType().fields, CaseData();
      && FieldFinalOk(f[0], d) && FieldFinalOk(f[1], d) && FieldFinalOk(f[7], d)
      && FieldFinalOk(f[8], d) && FieldFinalOk(f[9], d) && FieldFinalOk(f[10], d)
  {
    hide EnumOptions;
  }

  lemma CaseDataOk()
    ensures FinalOk(CaseType(), CaseData())
  {
    CaseEnumsOk();
    CasePlainOk();
    hide FieldFinalOk, EnumOptions, CaseData;
    FinalByPosition(CaseType(), CaseData());
  }

  lemma SeedTeamEdges()
    ensures TeamEdges(SeedAccess()) == {(DEV, CREW)}
  {
    var a := SeedAccess();
    forall e ensures e in TeamEdges(a) <==> e == (DEV, CREW) {
      assert (CREW, DEV) in a.members;
    }
  }

  lemma SeedScopeEdges()
    ensures ScopeEdges(SeedAccess().parents) == {(ORG, CREW), (PROJECT, FIRST_CASE)}
  {
    var a := SeedAccess();
    forall e ensures e in ScopeEdges(a.parents) <==> e == (ORG, CREW) || e == (PROJECT, FIRST_CASE) {
      assert FIRST_CASE in a.parents && CREW in a.parents;
    }
  }

  /** Edges whose targets have no edge of their own close no cycle. */
  lemma DeadEndsAreAcyclic(edges: set<(Id, Id)>)
    requires forall e, f | e in edges && f in edges :: e.1 != f.0
    ensures Acyclic(edges)
  {
    forall e | e in edges ensures e.0 !in Closure(edges, {e.1}) {
      ClosureWithin(edges, {e.1}, {e.1});
    }
    AcyclicIffNoEdgeReturns(edges);
  }

  lemma SeedKeys()
    ensures M.ForeignKeys(SeedAccess()) && M.OWNER in SeedAccess().roles
  {}

  lemma SeedIsSound()
    ensures M.Sound(SeedAccess())
  {
    hide SeedAccess, Acyclic, M.ForeignKeys;
    SeedKeys();
    SeedTeamEdges();
    SeedScopeEdges();
    DeadEndsAreAcyclic({(DEV, CREW)});
    DeadEndsAreAcyclic({(ORG, CREW), (PROJECT, FIRST_CASE)});
  }

  lemma SeedRowsGood()
    ensures forall id | id in SeedDb().rows ::
      id in SeedDb().access.types && id in SeedDb().access.parents && RowGood(SeedDb(), id)
  {
    hide DevData, AnnData, BenData, OrgData, CrewData, ProjectData, CaseData, ActorType, WorkspaceType, TeamType, ProjectType, CaseType, SeededTypes, FinalOk, MirrorOf;
    ActorDataOk(DevData(), 1);
    ActorDataOk(AnnData(), 0);
    ActorDataOk(BenData(), 0);
    OrgDataOk();
    CrewDataOk();
    ProjectDataOk();
    CaseDataOk();
    SeededTypesHave();
    SeedParents();
  }

  /** Each record names the parent its row hangs under. */
  lemma SeedParents()
    ensures ScopeParent(ActorType(), DevData()) == ScopeParent(ActorType(), AnnData()) == ScopeParent(ActorType(), BenData()) == None
    ensures ScopeParent(WorkspaceType(), OrgData()) == ScopeParent(ProjectType(), ProjectData()) == None
    ensures ScopeParent(TeamType(), CrewData()) == Some(ORG) && ScopeParent(CaseType(), CaseData()) == Some(PROJECT)
  {
    hide EnumOptions;
  }

  lemma SeedKeepsIntegrity()
    ensures Good(SeedDb())
  {
    hide DevData, AnnData, BenData, OrgData, CrewData, ProjectData, CaseData, SeededTypes, WellFormed, RowGood, M.Sound, MirrorOf;
    SeedIsSound();
    SeededTypesAreWellFormed();
    SeedRowsGood();
  }

  lemma SeedInSync()
    ensures InSync(SeedDb())
  {
    hide DevData, AnnData, BenData, OrgData, CrewData, ProjectData, CaseData, SeededTypes, MirrorOf;
    var db := SeedDb();
    assert forall id | IsCase(db, id) :: id == FIRST_CASE;
  }

  lemma SeedRefsInStep()
    ensures MirrorColumns.RefsInStep(SeedDb())
  {
    hide DevData, AnnData, BenData, OrgData, CrewData, ProjectData, SeededTypes;
    var db := SeedDb();
    assert forall id | IsCase(db, id) :: id == FIRST_CASE;
  }

  lemma SeedHasCases()
    ensures CaseReady(SeedDb())
  {
    hide CaseType, SeededTypes, SeedRows, SeedAccess;
    SeededTypesHave();
  }

  lemma SeedOwners()
    ensures forall id | id in {BEN, ORG, CREW, PROJECT, FIRST_CASE} :: M.Owners(SeedAccess(), id) != {}
  {
    forall id | id in {BEN, ORG, CREW, PROJECT, FIRST_CASE} ensures M.Owners(SeedAccess(), id) != {} {
      var owner := if id == BEN then ANN else DEV;
      assert owner in M.Owners(SeedAccess(), id) by { assert (id, owner) in SeedAccess().members; }
    }
  }

  /** The database the runs may start from: sound, the case type seeded, the mirror in step, and every
      object but the two actors that sign-in made with an owner. */
  lemma SeedIsGood()
    ensures Good(SeedDb()) && CaseReady(SeedDb()) && InSync(SeedDb()) && MirrorColumns.InStep(SeedDb())
    ensures Ranks.AllOwned(SeedDb(), {DEV, ANN})
  {
    hide Good, InSync, MirrorColumns.RefsInStep, MirrorColumns.InStep, CaseReady, SeededTypes, SeedRows, M.Owners, MirrorOf;
    SeedKeepsIntegrity();
    SeedInSync();
    SeedRefsInStep();
    MirrorColumns.InStepInParts(SeedDb());
    SeedHasCases();
    SeedOwners();
  }
}
