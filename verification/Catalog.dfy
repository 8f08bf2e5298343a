/** The builtin types as migrations/0002 to 0015 seed them: a type is a row. */
module Catalog {
  import opened Prelude
  import opened Json
  import opened Registry

  function EnumOptions(names: seq<string>, default: string): Value {
    Obj(map["enum" := Arr(seq(|names|, i requires 0 <= i < |names| => Str(names[i]))), "default" := Str(default)])
  }

  function ProjectType(): TypeDef {
    TypeDef("project", "PRJ", ["workspace_id"], Obj(map[]), [
    FieldDef("workspace_id", "ref", false, false, "standard", Obj(map["ref" := Str("ORG")])),
    FieldDef("name", "text", true, true, "standard", Obj(map[])),
    FieldDef("slug", "text", true, false, "standard", Obj(map["validate" := Str("^[a-z0-9-]+$")])),
    FieldDef("status", "enum", false, true, "standard", EnumOptions(["planning", "active", "paused", "archived"], "planning")),
    FieldDef("description", "text", false, true, "standard", Obj(map[])),
    FieldDef("repo_url", "text", false, true, "standard", Obj(map[])),
    FieldDef("default_branch", "text", false, true, "standard", Obj(map["default" := Str("main")]))])
  }

  function NoteType(): TypeDef {
    TypeDef("note", "NOT", ["project_id"], Obj(map[]), [
    FieldDef("project_id", "ref", true, false, "standard", Obj(map["ref" := Str("PRJ")])),
    FieldDef("title", "text", true, true, "standard", Obj(map[])),
    FieldDef("body", "text", false, true, "standard", Obj(map[])),
    FieldDef("pinned", "bool", false, true, "standard", Obj(map["default" := Bool(false)]))])
  }

  function ActorType(): TypeDef {
    TypeDef("actor", "USR", [], Obj(map[]), [
    FieldDef("display_name", "text", true, true, "standard", Obj(map[])),
    FieldDef("handle", "text", true, true, "standard", Obj(map["validate" := Str("^[a-z0-9_-]+$")])),
    FieldDef("email", "text", false, true, "owner_grade", Obj(map[])),
    FieldDef("kind", "enum", true, false, "readonly", EnumOptions(["human", "agent", "service"], "human")),
    FieldDef("platform_role", "enum", true, true, "owner_grade", EnumOptions(["member", "admin"], "member")),
    FieldDef("status", "enum", true, true, "standard", EnumOptions(["active", "invited", "disabled"], "active")),
    FieldDef("avatar_url", "text", false, true, "standard", Obj(map[]))])
  }

  function CommentType(): TypeDef {
    TypeDef("comment", "CMT", ["subject_id"], Obj(map[]), [
    FieldDef("subject_id", "ref", true, false, "standard", Obj(map[])),
    FieldDef("author_id", "ref", false, false, "standard", Obj(map["ref" := Str("USR")])),
    FieldDef("body", "text", true, true, "standard", Obj(map[])),
    FieldDef("visibility", "enum", false, true, "standard", EnumOptions(["internal", "public"], "internal")),
    FieldDef("reply_to_id", "ref", false, false, "standard", Obj(map["ref" := Str("CMT")]))])
  }

  function AttachmentType(): TypeDef {
    TypeDef("attachment", "ATT", ["subject_id"], Obj(map[]), [
    FieldDef("subject_id", "ref", true, false, "standard", Obj(map[])),
    FieldDef("name", "text", true, false, "standard", Obj(map[])),
    FieldDef("blob_ref", "text", true, false, "standard", Obj(map[])),
    FieldDef("mime", "text", false, false, "standard", Obj(map[])),
    FieldDef("size_bytes", "int", false, false, "standard", Obj(map[])),
    FieldDef("uploaded_by", "ref", false, false, "standard", Obj(map["ref" := Str("USR")]))])
  }

  function WorkspaceType(): TypeDef {
    TypeDef("workspace", "ORG", [], Obj(map[]), [
    FieldDef("name", "text", true, true, "standard", Obj(map[])),
    FieldDef("slug", "text", true, false, "standard", Obj(map["validate" := Str("^[a-z0-9-]+$")])),
    FieldDef("status", "enum", true, true, "owner_grade", EnumOptions(["active", "suspended"], "active"))])
  }

  function TeamType(): TypeDef {
    TypeDef("team", "TEM", ["workspace_id"], Obj(map[]), [
    FieldDef("workspace_id", "ref", true, false, "standard", Obj(map["ref" := Str("ORG")])),
    FieldDef("name", "text", true, true, "standard", Obj(map[])),
    FieldDef("kind", "enum", true, false, "standard", EnumOptions(["team", "department"], "team")),
    FieldDef("description", "text", false, true, "standard", Obj(map[]))])
  }

  function SpecType(): TypeDef {
    TypeDef("spec", "SPC", ["case_id"], Obj(map[]), [
    FieldDef("case_id", "ref", true, false, "standard", Obj(map["ref" := Str("CAS")])),
    FieldDef("title", "text", true, true, "standard", Obj(map[])),
    FieldDef("body", "text", true, true, "standard", Obj(map[])),
    FieldDef("status", "enum", true, true, "standard", EnumOptions(["draft", "approved", "superseded"], "draft")),
    FieldDef("approved_by", "ref", false, true, "owner_grade", Obj(map["ref" := Str("USR")]))])
  }

  function AcceptanceCriterionType(): TypeDef {
    TypeDef("acceptance_criterion", "ACR", ["spec_id"], Obj(map[]), [
    FieldDef("spec_id", "ref", true, false, "standard", Obj(map["ref" := Str("SPC")])),
    FieldDef("ordinal", "int", true, true, "standard", Obj(map[])),
    FieldDef("text", "text", true, true, "standard", Obj(map[])),
    FieldDef("verified", "bool", false, true, "standard", Obj(map["default" := Bool(false)])),
    FieldDef("test_ref", "text", false, true, "standard", Obj(map[]))])
  }

  function RunbookType(): TypeDef {
    TypeDef("runbook", "RBK", ["case_id"], Obj(map[]), [
    FieldDef("case_id", "ref", false, false, "standard", Obj(map["ref" := Str("CAS")])),
    FieldDef("title", "text", true, true, "standard", Obj(map[])),
    FieldDef("problem", "text", true, true, "standard", Obj(map[])),
    FieldDef("root_cause", "text", true, true, "standard", Obj(map[])),
    FieldDef("fix", "text", true, true, "standard", Obj(map[])),
    FieldDef("status", "enum", true, true, "standard", EnumOptions(["open", "fixed", "wontfix"], "open")),
    FieldDef("date", "date", true, true, "standard", Obj(map[]))])
  }

  function DecisionType(): TypeDef {
    TypeDef("decision", "DEC", [], Obj(map[]), [
    FieldDef("title", "text", true, true, "standard", Obj(map[])),
    FieldDef("context", "text", true, true, "standard", Obj(map[])),
    FieldDef("decision", "text", true, true, "standard", Obj(map[])),
    FieldDef("consequences", "text", true, true, "standard", Obj(map[])),
    FieldDef("status", "enum", true, true, "owner_grade", EnumOptions(["proposed", "accepted", "superseded"], "proposed")),
    FieldDef("supersedes_id", "ref", false, true, "standard", Obj(map["ref" := Str("DEC")])),
    FieldDef("date", "date", true, true, "standard", Obj(map[]))])
  }

  function CapabilityType(): TypeDef {
    TypeDef("capability", "CAP", ["project_id"], Obj(map[]), [
    FieldDef("project_id", "ref", false, false, "standard", Obj(map["ref" := Str("PRJ")])),
    FieldDef("key", "text", true, false, "standard", Obj(map[])),
    FieldDef("status", "enum", true, true, "standard", EnumOptions(["live", "gap", "deferred"], "live")),
    FieldDef("description", "text", true, true, "standard", Obj(map[])),
    FieldDef("evidence", "text", false, true, "standard", Obj(map[]))])
  }

  function ConnectorType(): TypeDef {
    TypeDef("connector", "CON", ["project_id"], Obj(map[]), [
    FieldDef("project_id", "ref", false, false, "standard", Obj(map["ref" := Str("PRJ")])),
    FieldDef("name", "text", true, true, "standard", Obj(map[])),
    FieldDef("kind", "enum", true, true, "standard", EnumOptions(["http_json", "webhook", "sql", "file"], "http_json")),
    FieldDef("target", "text", true, true, "standard", Obj(map[])),
    FieldDef("status", "enum", true, true, "standard", EnumOptions(["draft", "active", "disabled", "error"], "draft")),
    FieldDef("data_contract", "json", false, true, "standard", Obj(map["default" := Obj(map[])])),
    FieldDef("last_run_at", "date", false, false, "readonly", Obj(map[])),
    FieldDef("description", "text", false, true, "standard", Obj(map[]))])
  }

  function SecretType(): TypeDef {
    TypeDef("secret", "SEC", ["project_id"], Obj(map[]), [
    FieldDef("project_id", "ref", false, false, "standard", Obj(map["ref" := Str("PRJ")])),
    FieldDef("name", "text", true, true, "standard", Obj(map[])),
    FieldDef("provider", "enum", true, true, "standard", EnumOptions(["env", "vault", "aws_kms", "gcp_sm"], "env")),
    FieldDef("external_ref", "text", true, true, "owner_grade", Obj(map[])),
    FieldDef("status", "enum", true, true, "standard", EnumOptions(["active", "rotating", "revoked"], "active")),
    FieldDef("rotation_at", "date", false, true, "standard", Obj(map[])),
    FieldDef("description", "text", false, true, "standard", Obj(map[]))])
  }

  function SkillType(): TypeDef {
    TypeDef("skill", "SKL", ["project_id"], Obj(map[]), [
    FieldDef("project_id", "ref", false, false, "standard", Obj(map["ref" := Str("PRJ")])),
    FieldDef("name", "text", true, true, "standard", Obj(map[])),
    FieldDef("description", "text", true, true, "standard", Obj(map[])),
    FieldDef("kind", "enum", true, true, "standard", EnumOptions(["procedure", "playbook"], "procedure")),
    FieldDef("definition", "json", false, true, "standard", Obj(map["default" := Obj(map[])])),
    FieldDef("status", "enum", true, true, "standard", EnumOptions(["draft", "active", "deprecated"], "draft"))])
  }

  function MilestoneType(): TypeDef {
    TypeDef("milestone", "MIL", ["subject_id"], Obj(map[]), [
    FieldDef("subject_id", "ref", true, false, "standard", Obj(map[])),
    FieldDef("name", "text", true, true, "standard", Obj(map[])),
    FieldDef("kind", "enum", true, true, "standard", EnumOptions(["sla", "deadline", "checkpoint"], "deadline")),
    FieldDef("target_at", "date", true, true, "standard", Obj(map[])),
    FieldDef("completed_at", "date", false, true, "standard", Obj(map[]))])
  }

  /** The case type as migrations/0007_cases_engine.sql seeds it. */
  function CaseType(): TypeDef {
    TypeDef("case", "CAS", ["project_id"], Obj(map[]), [
    FieldDef("title", "text", true, true, "standard", Obj(map[])),
    FieldDef("description", "text", false, true, "standard", Obj(map[])),
    FieldDef("type", "enum", true, true, "standard", EnumOptions(["bug", "feature", "task", "epic", "chore"], "task")),
    FieldDef("status", "enum", true, true, "standard", EnumOptions(["backlog", "todo", "in_progress", "in_review", "done"], "backlog")),
    FieldDef("priority", "enum", true, true, "standard", EnumOptions(["low", "normal", "high", "urgent"], "normal")),
    FieldDef("origin", "enum", false, true, "standard", EnumOptions(["ui", "agent", "import", "email", "web", "phone", "chat"], "ui")),
    FieldDef("visibility", "enum", false, true, "standard", EnumOptions(["internal", "public"], "internal")),
    FieldDef("workflow_id", "ref", true, false, "readonly", Obj(map["ref" := Str("workflows"), "default" := Str("default")])),
    FieldDef("assignee_id", "ref", false, true, "standard", Obj(map["ref" := Str("USR")])),
    FieldDef("reporter_id", "ref", false, false, "readonly", Obj(map["ref" := Str("USR")])),
    FieldDef("project_id", "ref", true, false, "standard", Obj(map["ref" := Str("PRJ")]))])
  }

  /** The registry as a load after the last migration finds it. */
  function SeededTypes(): TypeCache {
    map[
      "note" := NoteType(),
      "comment" := CommentType(),
      "attachment" := AttachmentType(),
      "spec" := SpecType(),
      "acceptance_criterion" := AcceptanceCriterionType(),
      "runbook" := RunbookType(),
      "decision" := DecisionType(),
      "capability" := CapabilityType(),
      "connector" := ConnectorType(),
      "secret" := SecretType(),
      "skill" := SkillType(),
      "milestone" := MilestoneType(),
      "actor" := ActorType(),
      "workspace" := WorkspaceType(),
      "team" := TeamType(),
      "project" := ProjectType(),
      "case" := CaseType()]
  }

  // ---- all of them are types the handlers can rely on ------------------------------------------

  lemma ProjectTypeWellFormed()
    ensures WellFormed(ProjectType())
  {
    hide EnumOptions;
    assert DistinctFields(ProjectType().fields);
    FindAt(ProjectType().fields, 0);
  }

  lemma NoteTypeWellFormed()
    ensures WellFormed(NoteType())
  {
    hide EnumOptions;
    assert DistinctFields(NoteType().fields);
    FindAt(NoteType().fields, 0);
  }

  lemma ActorTypeWellFormed()
    ensures WellFormed(ActorType())
  {
    hide EnumOptions;
  }

  lemma CommentTypeWellFormed()
    ensures WellFormed(CommentType())
  {
    hide EnumOptions;
    assert DistinctFields(CommentType().fields);
    FindAt(CommentType().fields, 0);
  }

  lemma AttachmentTypeWellFormed()
    ensures WellFormed(AttachmentType())
  {
    hide EnumOptions;
    assert DistinctFields(AttachmentType().fields);
    FindAt(AttachmentType().fields, 0);
  }

  lemma WorkspaceTypeWellFormed()
    ensures WellFormed(WorkspaceType())
  {
    hide EnumOptions;
  }

  lemma TeamTypeWellFormed()
    ensures WellFormed(TeamType())
  {
    hide EnumOptions;
    assert DistinctFields(TeamType().fields);
    FindAt(TeamType().fields, 0);
  }

  lemma SpecTypeWellFormed()
    ensures WellFormed(SpecType())
  {
    hide EnumOptions;
    assert DistinctFields(SpecType().fields);
    FindAt(SpecType().fields, 0);
  }

  lemma AcceptanceCriterionTypeWellFormed()
    ensures WellFormed(AcceptanceCriterionType())
  {
    hide EnumOptions;
    assert DistinctFields(AcceptanceCriterionType().fields);
    FindAt(AcceptanceCriterionType().fields, 0);
  }

  lemma RunbookTypeWellFormed()
    ensures WellFormed(RunbookType())
  {
    hide EnumOptions;
    assert DistinctFields(RunbookType().fields);
    FindAt(RunbookType().fields, 0);
  }

  lemma DecisionTypeWellFormed()
    ensures WellFormed(DecisionType())
  {
    hide EnumOptions;
  }

  lemma CapabilityTypeWellFormed()
    ensures WellFormed(CapabilityType())
  {
    hide EnumOptions;
    assert DistinctFields(CapabilityType().fields);
    FindAt(CapabilityType().fields, 0);
  }

  lemma ConnectorTypeWellFormed()
    ensures WellFormed(ConnectorType())
  {
    hide EnumOptions;
    assert DistinctFields(ConnectorType().fields);
    FindAt(ConnectorType().fields, 0);
  }

  lemma SecretTypeWellFormed()
    ensures WellFormed(SecretType())
  {
    hide EnumOptions;
    assert DistinctFields(SecretType().fields);
    FindAt(SecretType().fields, 0);
  }

  lemma SkillTypeWellFormed()
    ensures WellFormed(SkillType())
  {
    hide EnumOptions;
    assert DistinctFields(SkillType().fields);
    FindAt(SkillType().fields, 0);
  }

  lemma MilestoneTypeWellFormed()
    ensures WellFormed(MilestoneType())
  {
    hide EnumOptions;
    assert DistinctFields(MilestoneType().fields);
    FindAt(MilestoneType().fields, 0);
  }

  /** Names are distinct if something about them numbers them. */
  lemma NumberedAreDistinct(fields: seq<FieldDef>, number: string -> int)
    requires forall i | 0 <= i < |fields| :: number(fields[i].field) == i
    ensures DistinctFields(fields)
  {
    forall i, j | 0 <= i < j < |fields| ensures fields[i].field != fields[j].field {
      assert number(fields[i].field) == i && number(fields[j].field) == j;
    }
  }

  function CaseFieldNumber(name: string): int {
    match name
    case "title" => 0
    case "description" => 1
    case "type" => 2
    case "status" => 3
    case "priority" => 4
    case "origin" => 5
    case "visibility" => 6
    case "workflow_id" => 7
    case "assignee_id" => 8
    case "reporter_id" => 9
    case "project_id" => 10
    case _ => -1
  }

  lemma CaseTypeWellFormed()
    ensures WellFormed(CaseType())
  {
    hide EnumOptions;
    NumberedAreDistinct(CaseType().fields, CaseFieldNumber);
    FindAt(CaseType().fields, 10);
  }

  lemma SeededTypesAreWellFormed()
    ensures forall t | t in SeededTypes() :: WellFormed(SeededTypes()[t])
  {
    hide WellFormed, ProjectType, NoteType, ActorType, CaseType, CommentType, AttachmentType, WorkspaceType, TeamType, SpecType, AcceptanceCriterionType, RunbookType, DecisionType, CapabilityType, ConnectorType, SecretType, SkillType, MilestoneType;
    ProjectTypeWellFormed();
    NoteTypeWellFormed();
    ActorTypeWellFormed();
    CaseTypeWellFormed();
    CommentTypeWellFormed();
    AttachmentTypeWellFormed();
    WorkspaceTypeWellFormed();
    TeamTypeWellFormed();
    SpecTypeWellFormed();
    AcceptanceCriterionTypeWellFormed();
    RunbookTypeWellFormed();
    DecisionTypeWellFormed();
    CapabilityTypeWellFormed();
    ConnectorTypeWellFormed();
    SecretTypeWellFormed();
    SkillTypeWellFormed();
    MilestoneTypeWellFormed();
  }

  lemma SeededTypesHave()
    ensures var types := SeededTypes();
      && "actor" in types && types["actor"] == ActorType()
      && "workspace" in types && types["workspace"] == WorkspaceType()
      && "team" in types && types["team"] == TeamType()
      && "project" in types && types["project"] == ProjectType()
      && "case" in types && types["case"] == CaseType()
  {
    hide ProjectType, NoteType, ActorType, CaseType, CommentType, AttachmentType, WorkspaceType, TeamType, SpecType, AcceptanceCriterionType, RunbookType, DecisionType, CapabilityType, ConnectorType, SecretType, SkillType, MilestoneType;
  }
}
