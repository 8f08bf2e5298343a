/** Workflow-as-data (crates/api/src/workflow.rs): which status moves a workflow row permits. */
module Workflow {
  import opened Prelude

  datatype Workflow = Workflow(
    states: seq<string>, transitions: map<string, seq<string>>, initial: string, closeChecks: seq<string>)
  {
    /** The last of the ordered states. */
    predicate IsTerminal(s: string) {
      states != [] && states[|states| - 1] == s
    }

    predicate Permits(source: string, target: string) {
      source in transitions && target in transitions[source]
    }
  }

  type Workflows = map<string, Workflow>

  /** `source` is None on create: the status must then be the initial one. On update an unchanged status
      passes, any other must be a listed transition. */
  function Validate(workflows: Workflows, id: string, source: Option<string>, target: string): Result<()> {
    if id !in workflows then Err(Unprocessable)
    else
      var wf := workflows[id];
      if target !in wf.states then Err(Unprocessable)
      else match source
        case None => if target != wf.initial then Err(IllegalTransition) else Ok(())
        case Some(s) => if s != target && !wf.Permits(s, target) then Err(IllegalTransition) else Ok(())
  }

  /** The row migrations/0007_cases_engine.sql seeds. */
  const DEFAULT_WORKFLOW := Workflow(
    ["backlog", "todo", "in_progress", "in_review", "done"],
    map["backlog" := ["todo"], "todo" := ["backlog", "in_progress"], "in_progress" := ["todo", "in_review"],
        "in_review" := ["in_progress", "done"], "done" := ["in_review"]],
    "backlog",
    ["docs_reconciled"])

  /** A sequence of statuses, each equal to the one before or a permitted move from it. */
  ghost predicate Legal(wf: Workflow, statuses: seq<string>) {
    forall i | 0 <= i < |statuses| - 1 ::
      statuses[i] == statuses[i + 1] || wf.Permits(statuses[i], statuses[i + 1])
  }

  /** The position of a status along the default board. */
  function Level(s: string): int {
    match s
    case "backlog" => 0
    case "todo" => 1
    case "in_progress" => 2
    case "in_review" => 3
    case "done" => 4
    case _ => -1
  }

  /** The first index at which a status is seen, or the length. */
  function FirstVisit(statuses: seq<string>, s: string): (i: nat)
    ensures i <= |statuses|
    ensures forall j | 0 <= j < i :: statuses[j] != s
    ensures i < |statuses| ==> statuses[i] == s
  {
    if statuses == [] then 0
    else if statuses[0] == s then 0
    else 1 + FirstVisit(statuses[1..], s)
  }

  /** The default workflow's moves are exactly those between neighbouring columns; work starts at the first and closes at the
      last, on one check. */
  lemma DefaultMovesOneStep(source: string, target: string)
    ensures DEFAULT_WORKFLOW.Permits(source, target) <==>
      Level(source) >= 0 && Level(target) >= 0 && (Level(target) == Level(source) + 1 || Level(target) == Level(source) - 1)
    ensures DEFAULT_WORKFLOW.initial == "backlog" && DEFAULT_WORKFLOW.closeChecks == ["docs_reconciled"]
    ensures DEFAULT_WORKFLOW.IsTerminal(target) <==> target == "done"
    ensures target in DEFAULT_WORKFLOW.states <==> Level(target) >= 0
  {
    if Level(source) >= 0 {
      assert source in {"backlog", "todo", "in_progress", "in_review", "done"};
    }
    if Level(target) >= 0 {
      assert target in {"backlog", "todo", "in_progress", "in_review", "done"};
      assert DEFAULT_WORKFLOW.states[Level(target)] == target;
    }
  }

  const BOARD: seq<string> := ["backlog", "todo", "in_progress", "in_review", "done"]

  /** Before some status of level `l` is seen, every level stays below `l`. */
  lemma {:induction false} LevelsBelowUntilSeen(statuses: seq<string>, l: nat, n: nat)
    requires Legal(DEFAULT_WORKFLOW, statuses) && statuses != [] && statuses[0] == "backlog"
    requires 0 < l <= 4 && n < |statuses|
    requires forall j | 0 <= j <= n :: statuses[j] != BOARD[l]
    ensures 0 <= Level(statuses[n]) < l
  {
    if n > 0 {
      LevelsBelowUntilSeen(statuses, l, n - 1);
      assert statuses[n - 1] == statuses[n - 1 + 1] || DEFAULT_WORKFLOW.Permits(statuses[n - 1], statuses[n - 1 + 1]);
      if statuses[n - 1] != statuses[n] {
        DefaultMovesOneStep(statuses[n - 1], statuses[n]);
      }
    }
  }

  /** Column `l + 1` is entered, and column `l` was entered before it. */
  ghost predicate EntersInTurn(statuses: seq<string>, l: nat)
    requires l < 4
  {
    FirstVisit(statuses, BOARD[l]) < FirstVisit(statuses, BOARD[l + 1]) < |statuses|
  }

  /** In the default workflow a case that is done has been through todo, in_progress and in_review, first
      visited in that order, however long and winding its history. */
  lemma DoneVisitsEveryColumn(statuses: seq<string>)
    requires Legal(DEFAULT_WORKFLOW, statuses) && statuses != []
    requires statuses[0] == "backlog" && "done" in statuses
    ensures forall l | 0 <= l < 4 :: EntersInTurn(statuses, l)
  {
    for l := 4 downto 0
      invariant BOARD[l] in statuses
      invariant forall k | l <= k < 4 :: EntersInTurn(statuses, k)
    {
      VisitedBelow(statuses, l);
    }
  }

  lemma BoardLevel(l: nat)
    requires l <= 4
    ensures Level(BOARD[l]) == l
  {}

  lemma VisitedBelow(statuses: seq<string>, l: nat)
    requires Legal(DEFAULT_WORKFLOW, statuses) && statuses != [] && statuses[0] == "backlog"
    requires l < 4 && BOARD[l + 1] in statuses
    ensures BOARD[l] in statuses
    ensures EntersInTurn(statuses, l)
  {
    FirstVisitOrder(statuses, l, BOARD[l], BOARD[l + 1]);
    assert statuses[FirstVisit(statuses, BOARD[l])] == BOARD[l];
  }

  lemma FirstVisitOrder(statuses: seq<string>, l: nat, here: string, next: string)
    requires Legal(DEFAULT_WORKFLOW, statuses) && statuses != [] && statuses[0] == "backlog"
    requires l < 4 && here == BOARD[l] && next == BOARD[l + 1] && next in statuses
    ensures FirstVisit(statuses, here) < FirstVisit(statuses, next) < |statuses|
  {
    BoardLevel(l);
    BoardLevel(l + 1);
    var j :| 0 <= j < |statuses| && statuses[j] == next;
    var i := FirstVisit(statuses, next);
    if FirstVisit(statuses, here) >= i {
      FirstVisitAtLevel(statuses, l, here, i);
    }
  }

  /** Where `here` has not been seen yet, the level is at most its own. */
  lemma FirstVisitAtLevel(statuses: seq<string>, l: nat, here: string, n: nat)
    requires Legal(DEFAULT_WORKFLOW, statuses) && statuses != [] && statuses[0] == "backlog"
    requires l < 4 && here == BOARD[l] && n < |statuses| && n <= FirstVisit(statuses, here)
    ensures Level(statuses[n]) <= l
  {
    BoardLevel(l);
    if statuses[n] != here {
      if l > 0 {
        LevelsBelowUntilSeen(statuses, l, n);
      }
    }
  }
}
