/** The feature pipeline (crates/api/src/orchestrator.rs): a phase machine whose circuit breaker counts rows
    of its own handoff log. Each handoff request is one atomic step. */
module Orchestrator {
  import opened Prelude

  datatype Phase = Spec | Test | Code | Review | Ops
  datatype Status = Active | Landed | Escalated
  datatype Outcome = Pass | Fail | TestDrift | Escalate

  const PHASES: seq<Phase> := [Spec, Test, Code, Review, Ops]
  const MAX_HOPS: int := 8
  const MAX_RETRIES_PER_GATE: int := 3

  function ParseOutcome(s: string): Option<Outcome> {
    match s
    case "pass" => Some(Pass)
    case "fail" => Some(Fail)
    case "test-drift" => Some(TestDrift)
    case "escalate" => Some(Escalate)
    case _ => None
  }

  function RoleForPhase(p: Phase): string {
    match p
    case Spec => "architect"
    case Test => "tester"
    case Code => "coder"
    case Review => "reviewer"
    case Ops => "ops"
  }

  function Position(p: Phase): (i: nat)
    ensures i < |PHASES| && PHASES[i] == p
  {
    match p case Spec => 0 case Test => 1 case Code => 2 case Review => 3 case Ops => 4
  }

  function NextPhase(p: Phase): Option<Phase> {
    if Position(p) + 1 < |PHASES| then Some(PHASES[Position(p) + 1]) else None
  }

  /** A row of `role_handoffs`, in insertion order. */
  datatype Handoff = Handoff(
    role: string, gate: string, outcome: Outcome, kind: string, attempt: int, retries: int, hops: int)

  datatype Run = Run(phase: Phase, status: Status, log: seq<Handoff>)

  const STARTED := Run(Spec, Active, [])

  /** `select count(*) ... where gate = $2 and outcome = 'fail'`. */
  function Fails(log: seq<Handoff>, gate: string): nat {
    if log == [] then 0
    else Fails(log[..|log| - 1], gate) + (if log[|log| - 1].gate == gate && log[|log| - 1].outcome == Fail then 1 else 0)
  }

  datatype Decision = Decision(phase: Phase, status: Status, retries: int)

  /** Where one outcome takes the run, given the phase it is in and the log so far. */
  function Decide(phase: Phase, log: seq<Handoff>, gate: string, outcome: Outcome): Decision {
    var d := match outcome
      case Escalate => Decision(phase, Escalated, 0)
      case Pass =>
        (match NextPhase(phase)
         case Some(n) => Decision(n, Active, 0)
         case None => Decision(phase, Landed, 0))
      case Fail =>
        var retries := Fails(log, gate) + 1;
        if retries >= MAX_RETRIES_PER_GATE then Decision(phase, Escalated, retries) else Decision(Code, Active, retries)
      case TestDrift => Decision(Test, Active, 0);
    if d.status.Active? && |log| + 1 >= MAX_HOPS then d.(status := Escalated) else d
  }

  function RowFor(log: seq<Handoff>, role: string, gate: string, outcome: Outcome, retries: int): Handoff {
    Handoff(role, gate, outcome, if outcome.TestDrift? then "test-drift" else "gate", retries + 1, retries, |log| + 1)
  }

  /** A request: whether the caller may edit the run's case, and the handoff's fields. */
  datatype Request = Request(authorized: bool, role: string, gate: string, outcome: string)

  function Record(run: Run, req: Request): Result<Run> {
    match ParseOutcome(req.outcome)
    case None => Err(Unprocessable)
    case Some(outcome) =>
      if !req.authorized then Err(NotFound)
      else if run.status != Active then Err(Unprocessable)
      else if req.role != RoleForPhase(run.phase) then Err(Unprocessable)
      else
        var d := Decide(run.phase, run.log, req.gate, outcome);
        Ok(Run(d.phase, d.status, run.log + [RowFor(run.log, req.role, req.gate, outcome, d.retries)]))
  }

  class FeatureRun {
    var phase: Phase
    var status: Status
    var log: seq<Handoff>

    ghost function State(): Run
      reads this
    {
      Run(phase, status, log)
    }

    constructor ()
      ensures State() == STARTED
    {
      phase, status, log := Spec, Active, [];
    }

    method RecordHandoff(req: Request) returns (r: Result<()>)
      modifies this
      ensures match Record(old(State()), req)
        case Ok(next) => r.Ok? && State() == next
        case Err(e) => r == Err(e) && State() == old(State())
    {
      var parsed := ParseOutcome(req.outcome);
      if parsed.None? { return Err(Unprocessable); }
      if !req.authorized { return Err(NotFound); }
      if status != Active { return Err(Unprocessable); }
      if req.role != RoleForPhase(phase) { return Err(Unprocessable); }

      var thisHop := |log| + 1;
      var newPhase, newStatus, retries, kind := phase, Active, 0, "gate";
      match parsed.value {
        case Escalate => newStatus := Escalated;
        case Pass =>
          match NextPhase(phase) {
            case Some(n) => newPhase := n;
            case None => newStatus := Landed;
          }
        case Fail =>
          retries := Fails(log, req.gate);
          retries := retries + 1;
          if retries >= MAX_RETRIES_PER_GATE {
            newStatus := Escalated;
          } else {
            newPhase := Code;
          }
        case TestDrift =>
          newPhase := Test;
          kind := "test-drift";
      }
      if newStatus == Active && thisHop >= MAX_HOPS {
        newStatus := Escalated;
      }
      log := log + [Handoff(req.role, req.gate, parsed.value, kind, retries + 1, retries, thisHop)];
      phase, status := newPhase, newStatus;
      return Ok(());
    }
  }

  // ---- every run -----------------------------------------------------------------------

  /** The run after a sequence of requests; a refused one leaves it as it is. */
  function Play(requests: seq<Request>): Run {
    if requests == [] then STARTED
    else
      var before := Play(requests[..|requests| - 1]);
      match Record(before, requests[|requests| - 1]) case Ok(after) => after case Err(_) => before
  }

  /** The phase and status the log alone determines: only outcomes and gates are read. */
  function Replay(log: seq<Handoff>): Decision {
    if log == [] then Decision(Spec, Active, 0)
    else
      var earlier, row := log[..|log| - 1], log[|log| - 1];
      Decide(Replay(earlier).phase, earlier, row.gate, row.outcome)
  }

  /** Row `i` was written by the role of its phase, on an active run, with the counters of that moment. */
  ghost predicate RowFits(log: seq<Handoff>, i: nat)
    requires i < |log|
  {
    && Replay(log[..i]).status.Active?
    && log[i] == RowFor(log[..i], RoleForPhase(Replay(log[..i]).phase), log[i].gate, log[i].outcome,
                        if log[i].outcome.Fail? then Fails(log[..i], log[i].gate) + 1 else 0)
  }

  ghost predicate Consistent(run: Run) {
    && run.phase == Replay(run.log).phase && run.status == Replay(run.log).status
    && forall i | 0 <= i < |run.log| :: RowFits(run.log, i)
  }

  lemma {:induction false} RowsFitAfterAppend(log: seq<Handoff>, row: Handoff)
    requires forall i | 0 <= i < |log| :: RowFits(log, i)
    requires RowFits(log + [row], |log|)
    ensures forall i | 0 <= i < |log + [row]| :: RowFits(log + [row], i)
  {
    forall i | 0 <= i < |log| ensures RowFits(log + [row], i) {
      assert (log + [row])[..i] == log[..i];
      assert RowFits(log, i);
    }
  }

  lemma RecordKeepsConsistent(run: Run, req: Request)
    requires Consistent(run) && Record(run, req).Ok?
    ensures Consistent(Record(run, req).value)
  {
    var after := Record(run, req).value;
    var row := after.log[|run.log|];
    assert after.log[..|run.log|] == run.log;
    RowsFitAfterAppend(run.log, row);
  }

  /** In every run the stored phase and status are a replay of the log, and each row's role, hop number
      and retry count are what the log before it gives. */
  lemma {:induction false} EveryRunIsConsistent(requests: seq<Request>)
    ensures Consistent(Play(requests))
  {
    if requests != [] {
      var before := Play(requests[..|requests| - 1]);
      EveryRunIsConsistent(requests[..|requests| - 1]);
      if Record(before, requests[|requests| - 1]).Ok? {
        RecordKeepsConsistent(before, requests[|requests| - 1]);
      }
    }
  }

  /** A gate on which the log holds three fails. */
  ghost predicate StruckOut(log: seq<Handoff>) {
    exists gate :: Fails(log, gate) >= 3
  }

  /** Which outcomes end a run, and how. */
  lemma DecideOutcome(phase: Phase, log: seq<Handoff>, gate: string, outcome: Outcome)
    ensures var status := Decide(phase, log, gate, outcome).status;
      && (status.Landed? <==> outcome == Pass && phase == Ops)
      && (status.Active? <==>
            && outcome != Escalate && !(outcome == Pass && phase == Ops)
            && !(outcome == Fail && Fails(log, gate) + 1 >= MAX_RETRIES_PER_GATE) && |log| + 1 < MAX_HOPS)
  {
    hide Fails;
  }

  lemma RowRole(log: seq<Handoff>, i: nat)
    requires i < |log| && RowFits(log, i)
    ensures Replay(log[..i]).status.Active?
    ensures log[i].role == "ops" <==> Replay(log[..i]).phase == Ops
  {
    hide Decide, Fails;
  }

  lemma {:induction false} StruckOutAfter(earlier: seq<Handoff>, row: Handoff)
    requires !StruckOut(earlier)
    ensures StruckOut(earlier + [row]) <==> row.outcome == Fail && Fails(earlier, row.gate) + 1 >= MAX_RETRIES_PER_GATE
    ensures forall gate :: Fails(earlier + [row], gate) <= MAX_RETRIES_PER_GATE
  {
    var log := earlier + [row];
    assert log[..|log| - 1] == earlier;
    forall gate ensures Fails(log, gate) == Fails(earlier, gate) + (if row.gate == gate && row.outcome == Fail then 1 else 0) {}
    forall gate ensures Fails(earlier, gate) < MAX_RETRIES_PER_GATE {}
    assert StruckOut(log) <== Fails(log, row.gate) >= MAX_RETRIES_PER_GATE;
  }

  /** The status in terms of the log as a whole, with no machine in it: landed by a final ops pass, else
      escalated by an escalate row, a third fail on some gate, or the eighth row. */
  lemma {:induction false} StatusOfLog(log: seq<Handoff>)
    requires forall i | 0 <= i < |log| :: RowFits(log, i)
    ensures Replay(log).status.Landed? <==> log != [] && log[|log| - 1].outcome == Pass && log[|log| - 1].role == "ops"
    ensures Replay(log).status.Active? <==>
      (forall i | 0 <= i < |log| :: log[i].outcome != Escalate && !(log[i].outcome == Pass && log[i].role == "ops"))
      && !StruckOut(log) && |log| < 8
    ensures forall gate :: Fails(log, gate) <= 3
    ensures |log| <= 8
  {
    if log != [] {
      var n := |log| - 1;
      var earlier, row := log[..n], log[n];
      PrefixFits(log, n);
      StatusOfLog(earlier);
      assert RowFits(log, n);
      hide Decide, Fails, RowFits, RowFor, StruckOut, RoleForPhase;
      RowRole(log, n);
      DecideOutcome(Replay(earlier).phase, earlier, row.gate, row.outcome);
      StruckOutAfter(earlier, row);
      assert log == earlier + [row];
      assert forall i | 0 <= i < n :: log[i] == earlier[i];
    } else {
      assert forall gate :: Fails(log, gate) == 0;
    }
  }

  /** The breaker's bounds: an active run has at most seven rows and two fails on any gate; no run has more
      than eight rows or three fails on a gate. */
  lemma BreakerBounds(requests: seq<Request>)
    ensures var run := Play(requests);
      && |run.log| <= 8
      && (forall gate :: Fails(run.log, gate) <= 3)
      && (run.status.Active? ==> |run.log| <= 7 && forall gate :: Fails(run.log, gate) <= 2)
  {
    EveryRunIsConsistent(requests);
    StatusOfLog(Play(requests).log);
  }

  /** A closed run stays as it is whatever is sent to it. */
  lemma {:induction false} ClosedRunsNeverChange(requests: seq<Request>, more: seq<Request>)
    requires !Play(requests).status.Active?
    ensures Play(requests + more) == Play(requests)
    decreases |more|
  {
    if more != [] {
      var all := requests + more;
      assert all[..|all| - 1] == requests + more[..|more| - 1];
      ClosedRunsNeverChange(requests, more[..|more| - 1]);
    } else {
      assert requests + more == requests;
    }
  }

  // ---- the shape of a landed run ----------------------------------------------------------

  /** After any row the run is past the spec phase for good, unless that row closed it. */
  lemma {:induction false} SpecOnlyAtTheStart(log: seq<Handoff>)
    requires forall i | 0 <= i < |log| :: RowFits(log, i)
    requires log != [] && Replay(log).status.Active?
    ensures Replay(log).phase != Spec
  {
    PrefixFits(log, |log| - 1);
  }

  lemma {:induction false} PrefixFits(log: seq<Handoff>, n: nat)
    requires n <= |log| && forall i | 0 <= i < |log| :: RowFits(log, i)
    ensures forall i | 0 <= i < n :: RowFits(log[..n], i)
  {
    forall i | 0 <= i < n ensures RowFits(log[..n], i) {
      assert RowFits(log, i);
      assert log[..n][..i] == log[..i];
    }
  }

  /** A run in review or ops got there by a pass in the phase before. */
  lemma {:induction false} CameByPass(log: seq<Handoff>, p: Phase)
    requires forall i | 0 <= i < |log| :: RowFits(log, i)
    requires Replay(log).status.Active? && Replay(log).phase == p && (p == Review || p == Ops)
    ensures log != [] && log[|log| - 1].outcome == Pass
    ensures NextPhase(Replay(log[..|log| - 1]).phase) == Some(p)
    ensures log[|log| - 1].role == (if p == Ops then "reviewer" else "coder")
  {
    var n := |log| - 1;
    assert log != [];
    assert RowFits(log, n);
  }

  lemma TakeTwice(log: seq<Handoff>, m: nat, k: nat)
    requires k <= m <= |log|
    ensures log[..m][..k] == log[..k]
  {}

  /** The last three rows of a log that landed. */
  lemma {:induction false} LandedTail(log: seq<Handoff>)
    requires forall i | 0 <= i < |log| :: RowFits(log, i)
    requires Replay(log).status.Landed?
    ensures |log| >= 4
    ensures log[|log| - 3].role == "coder" && log[|log| - 3].outcome == Pass
    ensures log[|log| - 2].role == "reviewer" && log[|log| - 2].outcome == Pass
    ensures log[|log| - 1].role == "ops" && log[|log| - 1].outcome == Pass
  {
    StatusOfLog(log);
    hide Fails, StruckOut, RowFor;
    var n := |log|;
    var upToOps, upToReview, upToCode := log[..n - 1], [], [];
    assert RowFits(log, n - 1);
    PrefixFits(log, n - 1);
    assert Replay(upToOps).phase == Ops;
    CameByPass(upToOps, Ops);
    upToReview := log[..n - 2];
    TakeTwice(log, n - 1, n - 2);
    PrefixFits(log, n - 2);
    assert RowFits(log, n - 2);
    CameByPass(upToReview, Review);
    upToCode := log[..n - 3];
    TakeTwice(log, n - 2, n - 3);
    assert Replay(upToCode).phase == Code;
  }

  /** A landed run has four to eight rows, ends with coder, reviewer and ops passes in that order, and its
      architect row is the first one and no other. */
  lemma {:induction false} LandedRunShape(requests: seq<Request>)
    requires Play(requests).status.Landed?
    ensures var log := Play(requests).log;
      && 4 <= |log| <= 8
      && log[|log| - 3].role == "coder" && log[|log| - 3].outcome == Pass
      && log[|log| - 2].role == "reviewer" && log[|log| - 2].outcome == Pass
      && log[|log| - 1].role == "ops" && log[|log| - 1].outcome == Pass
      && log[0].role == "architect"
      && forall i | 0 < i < |log| :: log[i].role != "architect"
  {
    var log := Play(requests).log;
    EveryRunIsConsistent(requests);
    StatusOfLog(log);
    LandedTail(log);
    assert RowFits(log, 0);
    forall i | 0 < i < |log| ensures log[i].role != "architect" {
      assert RowFits(log, i);
      PrefixFits(log, i);
      SpecOnlyAtTheStart(log[..i]);
      OnlyTheArchitectSpecs(Replay(log[..i]).phase);
    }
  }

  lemma OnlyTheArchitectSpecs(p: Phase)
    ensures RoleForPhase(p) == "architect" <==> p == Spec
  {}

  function After(run: Run, req: Request): Run {
    match Record(run, req) case Ok(next) => next case Err(_) => run
  }

  ghost predicate Untested(run: Run) {
    forall i | 0 <= i < |run.log| :: run.log[i].role != "tester"
  }

  lemma FirstFailGoesToCode(gate: string)
    ensures var run := After(STARTED, Request(true, "architect", gate, "fail"));
      run.phase == Code && run.status == Active && |run.log| == 1 && Untested(run)
  {
    assert Fails([], gate) == 0;
  }

  /** A pass outside the test phase adds no tester, and moves on or lands while hops remain. */
  lemma PassMovesOn(run: Run, gate: string)
    requires run.status == Active && run.phase != Test && |run.log| + 1 < MAX_HOPS && Untested(run)
    ensures var after := After(run, Request(true, RoleForPhase(run.phase), gate, "pass"));
      && |after.log| == |run.log| + 1 && Untested(after)
      && (match NextPhase(run.phase)
          case Some(n) => after.phase == n && after.status == Active
          case None => after.status == Landed)
  {}

  ghost predicate Tested(log: seq<Handoff>) {
    exists i | 0 <= i < |log| :: log[i].role == "tester"
  }

  ghost predicate Drifted(log: seq<Handoff>) {
    exists i | 0 <= i < |log| :: log[i].outcome == TestDrift
  }

  lemma TesterRunsTheTestPhase(log: seq<Handoff>, i: nat)
    requires i < |log| && RowFits(log, i)
    ensures log[i].role == "tester" <==> Replay(log[..i]).phase == Test
  {
    hide Decide, Fails;
  }

  /** The test phase is entered by a first-row pass and by a test drift, and by nothing else. */
  lemma {:induction false} EnteringTest(log: seq<Handoff>)
    requires forall i | 0 <= i < |log| :: RowFits(log, i)
    ensures Replay(log).phase == Test && !Drifted(log) ==> log != [] && log[0].outcome == Pass
  {
    if log != [] {
      var n := |log| - 1;
      var earlier := log[..n];
      PrefixFits(log, n);
      EnteringTest(earlier);
      assert RowFits(log, n);
      if Drifted(earlier) {
        var i :| 0 <= i < |earlier| && earlier[i].outcome == TestDrift;
        assert log[i].outcome == TestDrift;
      }
      if n > 0 && Replay(earlier).phase == Spec {
        SpecOnlyAtTheStart(earlier);
      }
    }
  }

  /** Whoever lands, a tester had a row exactly if the first row passed or somebody called a test drift. */
  lemma {:induction false} LandedIsTestedIff(requests: seq<Request>)
    requires Play(requests).status.Landed?
    ensures var log := Play(requests).log;
      log != [] && (Tested(log) <==> log[0].outcome == Pass || Drifted(log))
  {
    var log := Play(requests).log;
    EveryRunIsConsistent(requests);
    LandedTail(log);
    hide Play, Replay, RowFits, Decide, RowFor;
    if Tested(log) && !Drifted(log) { TestedNeedsAnEntry(log); }
    if log[0].outcome == Pass { FirstPassIsTested(log); }
    if Drifted(log) { DriftIsTested(log); }
  }

  lemma {:induction false} TestedNeedsAnEntry(log: seq<Handoff>)
    requires forall i | 0 <= i < |log| :: RowFits(log, i)
    requires Tested(log) && !Drifted(log)
    ensures log[0].outcome == Pass
  {
    hide Replay, Decide, RowFits;
    var i :| 0 <= i < |log| && log[i].role == "tester";
    assert RowFits(log, i);
    TesterRunsTheTestPhase(log, i);
    PrefixFits(log, i);
    assert forall j | 0 <= j < i :: log[..i][j] == log[j];
    EnteringTest(log[..i]);
  }

  /** A first-row pass puts the run into the test phase, and the next row is the tester's. */
  lemma {:induction false} FirstPassIsTested(log: seq<Handoff>)
    requires forall i | 0 <= i < |log| :: RowFits(log, i)
    requires |log| > 1 && log[0].outcome == Pass
    ensures Tested(log)
  {
    assert RowFits(log, 1);
    TesterRunsTheTestPhase(log, 1);
    assert log[..1][..0] == [];
    assert Replay(log[..1]).phase == Test;
  }

  /** A test drift on a run that goes on is followed by the tester's row. */
  lemma {:induction false} DriftIsTested(log: seq<Handoff>)
    requires forall i | 0 <= i < |log| :: RowFits(log, i)
    requires |log| > 0 && log[|log| - 1].outcome == Pass && Drifted(log)
    ensures Tested(log)
  {
    var i :| 0 <= i < |log| && log[i].outcome == TestDrift;
    assert RowFits(log, i + 1);
    TesterRunsTheTestPhase(log, i + 1);
    assert log[..i + 1][..i] == log[..i] && log[..i + 1][i] == log[i];
    assert Replay(log[..i + 1]).phase == Test;
  }

  /** The case without: a first-row fail jumps the run to `code`, and it lands untested. */
  lemma {:induction false} LandsWithoutATester(gate: string)
    ensures var run := Play([
        Request(true, "architect", gate, "fail"), Request(true, "coder", gate, "pass"),
        Request(true, "reviewer", gate, "pass"), Request(true, "ops", gate, "pass")]);
      run.status.Landed? && Untested(run)
  {
    hide Play, After, Untested;
    var r1, r2 := Request(true, "architect", gate, "fail"), Request(true, "coder", gate, "pass");
    var r3, r4 := Request(true, "reviewer", gate, "pass"), Request(true, "ops", gate, "pass");
    var p1 := After(STARTED, r1);
    var p2 := After(p1, r2);
    var p3 := After(p2, r3);
    FirstFailGoesToCode(gate);
    PassMovesOn(p1, gate);
    PassMovesOn(p2, gate);
    PassMovesOn(p3, gate);
    PlayFour(r1, r2, r3, r4);
  }

  lemma {:induction false} PlayFour(r1: Request, r2: Request, r3: Request, r4: Request)
    ensures Play([r1, r2, r3, r4]) == After(After(After(After(STARTED, r1), r2), r3), r4)
  {
    hide After;
    PlayOne([], r1);
    PlayOne([r1], r2);
    PlayOne([r1, r2], r3);
    PlayOne([r1, r2, r3], r4);
    assert [] + [r1] == [r1] && [r1] + [r2] == [r1, r2];
    assert [r1, r2] + [r3] == [r1, r2, r3] && [r1, r2, r3] + [r4] == [r1, r2, r3, r4];
  }

  lemma {:induction false} PlayOne(earlier: seq<Request>, req: Request)
    ensures Play(earlier + [req]) == After(Play(earlier), req)
  {
    assert (earlier + [req])[..|earlier|] == earlier;
  }
}
