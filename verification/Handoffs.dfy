/** Which handoff requests append a row to a feature run, what the row says, and where it takes the run. */
module Handoffs {
  import opened Prelude
  import opened Orchestrator

  predicate KnownOutcome(s: string) {
    s == "pass" || s == "fail" || s == "test-drift" || s == "escalate"
  }

  /** The word a request uses for an outcome. */
  function Word(o: Outcome): string {
    match o case Pass => "pass" case Fail => "fail" case TestDrift => "test-drift" case Escalate => "escalate"
  }

  predicate Owns(role: string, p: Phase) {
    || (role == "architect" && p == Spec)
    || (role == "tester" && p == Test)
    || (role == "coder" && p == Code)
    || (role == "reviewer" && p == Review)
    || (role == "ops" && p == Ops)
  }

  /** The request may be made, the run is open, the role owns its phase and the outcome is one there is. */
  predicate Counts(run: Run, req: Request) {
    req.authorized && run.status == Active && Owns(req.role, run.phase) && KnownOutcome(req.outcome)
  }

  /** The rows by which a gate has failed. */
  function FailedRows(log: seq<Handoff>, gate: string): set<int> {
    set i | 0 <= i < |log| && log[i].gate == gate && log[i].outcome == Fail
  }

  lemma {:induction false} FailsAreCounted(log: seq<Handoff>, gate: string)
    ensures Fails(log, gate) == |FailedRows(log, gate)|
  {
    if log != [] {
      var n := |log| - 1;
      FailsAreCounted(log[..n], gate);
      var earlier := FailedRows(log[..n], gate);
      assert FailedRows(log, gate) == if log[n].gate == gate && log[n].outcome == Fail then earlier + {n} else earlier;
    }
  }

  /** The row says what the request said; it counts the rows so far and, for a fail, those of its gate. */
  predicate RowSays(log: seq<Handoff>, req: Request, row: Handoff) {
    var fails := if req.outcome == "fail" then |FailedRows(log, req.gate)| + 1 else 0;
    && row.role == req.role && row.gate == req.gate && Word(row.outcome) == req.outcome
    && row.kind == (if req.outcome == "test-drift" then "test-drift" else "gate")
    && row.hops == |log| + 1 && row.retries == fails && row.attempt == fails + 1
  }

  /** A pass moves one phase on, and lands the run after ops. A fail goes to the coder, and escalates at the
      third of its gate; a test drift goes to the tester; an escalation stays. Whatever goes on escalates
      at the eighth row. */
  predicate Leads(before: Run, req: Request, after: Run) {
    var open := if |before.log| + 1 >= 8 then Escalated else Active;
    && (req.outcome == "escalate" ==> after.phase == before.phase && after.status == Escalated)
    && (req.outcome == "test-drift" ==> after.phase == Test && after.status == open)
    && (req.outcome == "fail" ==>
          if |FailedRows(before.log, req.gate)| + 1 >= 3 then after.phase == before.phase && after.status == Escalated
          else after.phase == Code && after.status == open)
    && (req.outcome == "pass" ==>
          match before.phase
          case Spec => after.phase == Test && after.status == open
          case Test => after.phase == Code && after.status == open
          case Code => after.phase == Review && after.status == open
          case Review => after.phase == Ops && after.status == open
          case Ops => after.phase == Ops && after.status == Landed)
  }

  /** A request is taken exactly if it counts; if it is not, which error it gets. */
  lemma RecordAnswer(run: Run, req: Request)
    ensures var r := Record(run, req);
      && (r.Ok? <==> Counts(run, req))
      && (r == Err(NotFound) <==> KnownOutcome(req.outcome) && !req.authorized)
      && (r == Err(Unprocessable) <==>
            !KnownOutcome(req.outcome) || (req.authorized && !(run.status == Active && Owns(req.role, run.phase))))
      && (r.Ok? ==>
            && |r.value.log| == |run.log| + 1 && r.value.log[..|run.log|] == run.log
            && RowSays(run.log, req, r.value.log[|run.log|]) && Leads(run, req, r.value))
  {
    FailsAreCounted(run.log, req.gate);
    hide Fails, FailedRows;
  }

  /** In any run, the next request appends exactly its own row and leads on from there if it counts, and
      changes nothing at all if it does not: in particular if its sender may not edit the run's case. */
  lemma {:induction false} NextHandoff(requests: seq<Request>, req: Request)
    ensures var before, after := Play(requests), Play(requests + [req]);
      if Counts(before, req) then
        && |after.log| == |before.log| + 1 && after.log[..|before.log|] == before.log
        && RowSays(before.log, req, after.log[|before.log|]) && Leads(before, req, after)
      else after == before
  {
    hide Play, Record, RowSays, Leads, Counts;
    PlayOne(requests, req);
    RecordAnswer(Play(requests), req);
  }

  /** Requests that their senders may not make could as well not have been sent. */
  function Authorized(requests: seq<Request>): seq<Request> {
    if requests == [] then []
    else
      var n := |requests| - 1;
      Authorized(requests[..n]) + (if requests[n].authorized then [requests[n]] else [])
  }

  lemma {:induction false} UnauthorizedRequestsDoNothing(requests: seq<Request>)
    ensures Play(requests) == Play(Authorized(requests))
  {
    hide Play, Record, RowSays, Leads;
    if requests != [] {
      var n := |requests| - 1;
      UnauthorizedRequestsDoNothing(requests[..n]);
      assert requests == requests[..n] + [requests[n]];
      PlayOne(requests[..n], requests[n]);
      if requests[n].authorized {
        PlayOne(Authorized(requests[..n]), requests[n]);
      } else {
        NextHandoff(requests[..n], requests[n]);
        assert Authorized(requests) == Authorized(requests[..n]);
      }
    }
  }
}
