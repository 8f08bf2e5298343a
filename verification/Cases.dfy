/** The typed case mirror and its close gate: crates/api/src/db.rs and the `cases_guard` trigger of
    migrations/0008_cases_guard.sql. */
module Cases {
  import opened Prelude
  import opened Json
  import opened Workflow

  /** A row of `cases`; close checks are the pairs (case_id, check_name) of `case_close_checks`. */
  datatype CaseRow = CaseRow(
    title: string, status: string, workflowId: string, priority: string,
    assignee: Option<Id>, project: Option<Id>, version: int)

  type Checks = map<(Id, string), bool>

  predicate Passed(checks: Checks, id: Id, name: string) {
    (id, name) in checks && checks[(id, name)]
  }

  /** The names among `names` without a passed row, in order. */
  function Unmet(checks: Checks, id: Id, names: seq<string>): seq<string> {
    if names == [] then []
    else (if Passed(checks, id, names[0]) then [] else [names[0]]) + Unmet(checks, id, names[1..])
  }

  lemma {:induction false} UnmetAppend(checks: Checks, id: Id, names: seq<string>, name: string)
    ensures Unmet(checks, id, names + [name]) ==
      Unmet(checks, id, names) + (if Passed(checks, id, name) then [] else [name])
  {
    if names != [] {
      assert (names + [name])[1..] == names[1..] + [name];
      UnmetAppend(checks, id, names[1..], name);
    }
  }

  method UnmetCloseChecks(checks: Checks, id: Id, names: seq<string>) returns (unmet: seq<string>)
    ensures unmet == Unmet(checks, id, names)
  {
    unmet := [];
    for i := 0 to |names|
      invariant unmet == Unmet(checks, id, names[..i])
    {
      UnmetAppend(checks, id, names[..i], names[i]);
      assert names[..i + 1] == names[..i] + [names[i]];
      var passed := if (id, names[i]) in checks then Some(checks[(id, names[i])]) else None;
      if passed != Some(true) {
        unmet := unmet + [names[i]];
      }
    }
    assert names[..|names|] == names;
  }

  lemma {:induction false} UnmetEmptyIffAllPassed(checks: Checks, id: Id, names: seq<string>)
    ensures Unmet(checks, id, names) == [] <==> forall name | name in names :: Passed(checks, id, name)
  {
    if names != [] {
      UnmetEmptyIffAllPassed(checks, id, names[1..]);
      assert forall name | name in names :: name == names[0] || name in names[1..];
      assert names[0] in names;
    }
  }

  // ---- the Rust gate -----------------------------------------------------------------

  function WorkflowIdOf(data: Record): string {
    match StrAt(data, "workflow_id") case Some(w) => w case None => "default"
  }

  function StatusOf(data: Record): string {
    match StrAt(data, "status") case Some(s) => s case None => ""
  }

  /** Transition legality, and on entering the terminal state every close check passed. */
  function ValidateCaseChange(workflows: Workflows, checks: Checks, id: Id, data: Record, oldStatus: Option<string>): Result<()> {
    var wfId, newStatus := WorkflowIdOf(data), StatusOf(data);
    match Validate(workflows, wfId, oldStatus, newStatus)
    case Err(e) => Err(e)
    case Ok(_) =>
      if wfId in workflows && workflows[wfId].IsTerminal(newStatus) && oldStatus != Some(newStatus)
         && Unmet(checks, id, workflows[wfId].closeChecks) != []
      then Err(ClosePreconditionsUnmet)
      else Ok(())
  }

  // ---- the database's twin -------------------------------------------------------------

  /** What the trigger raises on; the decision the Rust gate takes a step earlier. */
  ghost predicate GuardRaises(workflows: Workflows, checks: Checks, id: Id, oldStatus: string, row: CaseRow) {
    row.status != oldStatus &&
    (row.workflowId !in workflows
     || (workflows[row.workflowId].IsTerminal(row.status)
         && exists name | name in workflows[row.workflowId].closeChecks :: !Passed(checks, id, name)))
  }

  /** The trigger function, statement by statement. */
  method CasesGuard(workflows: Workflows, checks: Checks, id: Id, old_: CaseRow, new_: CaseRow) returns (r: Result<CaseRow>)
    ensures r == if GuardRaises(workflows, checks, id, old_.status, new_) then Err(ClosePreconditionsUnmet) else Ok(new_)
  {
    if new_.status != old_.status {
      if new_.workflowId !in workflows {
        return Err(ClosePreconditionsUnmet);
      }
      var wf := workflows[new_.workflowId];
      var terminal := if wf.states != [] then Some(wf.states[|wf.states| - 1]) else None;
      if terminal == Some(new_.status) {
        var unmet := 0;
        for i := 0 to |wf.closeChecks|
          invariant unmet >= 0
          invariant unmet > 0 <==> exists j | 0 <= j < i :: !Passed(checks, id, wf.closeChecks[j])
        {
          if !Passed(checks, id, wf.closeChecks[i]) {
            unmet := unmet + 1;
          }
        }
        if unmet > 0 {
          return Err(ClosePreconditionsUnmet);
        }
      }
    }
    return Ok(new_);
  }

  /** The mirror row a record projects to. */
  function MirrorOf(data: Record, version: int): CaseRow {
    CaseRow(
      (match StrAt(data, "title") case Some(s) => s case None => ""),
      (match StrAt(data, "status") case Some(s) => s case None => "backlog"),
      WorkflowIdOf(data),
      (match StrAt(data, "priority") case Some(s) => s case None => "normal"),
      StrAt(data, "assignee_id"), StrAt(data, "project_id"), version)
  }

  /** The two gates draw the same line: once the Rust gate has accepted the transition, it accepts the
      close exactly when the trigger will, provided the mirror holds the old status. */
  lemma GatesAgree(workflows: Workflows, checks: Checks, id: Id, data: Record, oldStatus: string, version: int)
    requires StrAt(data, "status").Some?
    requires Validate(workflows, WorkflowIdOf(data), Some(oldStatus), StatusOf(data)).Ok?
    ensures ValidateCaseChange(workflows, checks, id, data, Some(oldStatus)).Ok?
      <==> !GuardRaises(workflows, checks, id, oldStatus, MirrorOf(data, version))
  {
    UnmetEmptyIffAllPassed(checks, id, workflows[WorkflowIdOf(data)].closeChecks);
  }

  /** A move the Rust gate lets into the terminal state had every close check passed. */
  lemma TerminalEntryWasChecked(workflows: Workflows, checks: Checks, id: Id, data: Record, oldStatus: Option<string>, name: string)
    requires ValidateCaseChange(workflows, checks, id, data, oldStatus).Ok?
    requires oldStatus != Some(StatusOf(data)) && WorkflowIdOf(data) in workflows
    requires workflows[WorkflowIdOf(data)].IsTerminal(StatusOf(data)) && name in workflows[WorkflowIdOf(data)].closeChecks
    ensures Passed(checks, id, name)
  {
    UnmetEmptyIffAllPassed(checks, id, workflows[WorkflowIdOf(data)].closeChecks);
  }
}
