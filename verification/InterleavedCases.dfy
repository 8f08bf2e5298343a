/** Cases under interleaved writes: when a case closes with its checks passed, and when its mirror agrees
    with its row. */
module InterleavedCases {
  import opened Prelude
  import opened Json
  import opened Objects
  import opened Workflow
  import opened Cases
  import opened Catalog
  import opened Server
  import opened Runs
  import opened CaseRuns
  import opened Interleaving
  import Registry
  import Gate
  import Types
  import M = Members

  // ---- what happens to a close check -----------------------------------------------------------

  /** What an accepted request records about the check, if it is about it at all. */
  ghost function RecordedBy(s: Sys, move: Move, id: Id, name: string): Option<bool> {
    if move.Whole? && move.step.request.RecordCheck? && move.step.request.id == id && move.step.request.name == name
       && Handle(s.db, move.step.caller, move.step.request).result.Ok?
    then Some(move.step.request.passed)
    else None
  }

  lemma InsertKeepsChecks(db: Db, creator: Id, typeId: string, row: NewRow, id: Id)
    ensures InsertAll(db, creator, typeId, row, id).db.checks == db.checks
  {
    hide SyncMirror;
    var inserted := InsertRow(db, id, typeId, row.data, row.parent, creator);
    if SyncMirror(inserted, id, row.data, 1).Ok? { SyncShape(inserted, id, row.data, 1); }
  }

  lemma DeleteKeepsOtherChecks(db: Db, caller: Caller, typeId: string, deleted: Id, ifMatch: IfMatch, id: Id, name: string)
    requires id in ItemDelete(db, caller, typeId, deleted, ifMatch).db.rows
    ensures Passed(ItemDelete(db, caller, typeId, deleted, ifMatch).db.checks, id, name) <==> Passed(db.checks, id, name)
  {
    hide Gate.RequireAction, M.DeleteEntity;
  }

  /** Nothing but recording it changes whether a check has passed, while the case is there. */
  lemma OtherRequestsKeepChecks(db: Db, caller: Caller, req: Request, id: Id, name: string)
    requires !req.Write? && !req.RecordCheck? && id in Handle(db, caller, req).db.rows
    ensures Passed(Handle(db, caller, req).db.checks, id, name) <==> Passed(db.checks, id, name)
  {
    hide Passed, PrepareCreate, InsertAll, ItemDelete, Types.SpecVerdict, M.AddMember, M.SetMember, M.RemoveMember;
    match req {
      case CreateObject(typeId, payload, newId) =>
        if PrepareCreate(db, caller, typeId, payload).Ok? {
          InsertKeepsChecks(db, caller.actor, typeId, PrepareCreate(db, caller, typeId, payload).value, newId);
        }
      case DeleteObject(typeId, deleted, ifMatch) => DeleteKeepsOtherChecks(db, caller, typeId, deleted, ifMatch, id, name);
      case _ =>
    }
  }

  lemma CheckAfterMove(s: Sys, move: Move, id: Id, name: string)
    requires id in Next(s, move).db.rows
    ensures Passed(Next(s, move).db.checks, id, name)
      <==> match RecordedBy(s, move, id, name) case Some(passed) => passed case None => Passed(s.db.checks, id, name)
  {
    hide Prepare, SyncMirror, Handle;
    match move {
      case Whole(step) =>
        var req := step.request;
        if req.RecordCheck? {
          SetCheckShape(s.db, step.caller, req.typeId, req.id, req.name, req.passed);
          HandleSetsCheck(s.db, step.caller, req);
          hide SetCheck;
        } else if !req.Write? {
          OtherRequestsKeepChecks(s.db, step.caller, req, id, name);
        }
      case Mirror(ticket) =>
        if ticket in s.stored {
          var p := s.stored[ticket];
          if SyncMirror(s.db, p.id, p.data, p.expected + 1).Ok? { SyncShape(s.db, p.id, p.data, p.expected + 1); }
        }
      case _ =>
    }
  }

  lemma HandleSetsCheck(db: Db, caller: Caller, req: Request)
    requires req.RecordCheck?
    ensures Handle(db, caller, req) == SetCheck(db, caller, req.typeId, req.id, req.name, req.passed)
  {
    hide SetCheck;
  }

  // ---- closing with the checks passed -----------------------------------------------------------

  /** What was last recorded about a check since the write behind the ticket was read. */
  ghost function SinceSelect(s: Sys, moves: seq<Move>, ticket: nat, name: string): Option<bool> {
    if moves == [] then None
    else
      var n := |moves| - 1;
      var before := Play(s, moves[..n]);
      if ticket !in before.selected then None
      else match RecordedBy(before, moves[n], before.selected[ticket].id, name)
        case Some(passed) => Some(passed)
        case None => SinceSelect(s, moves[..n], ticket, name)
  }

  /** The write takes the case it was computed from into its terminal state. */
  ghost predicate Closes(workflows: Workflows, p: Pending) {
    p.typeId == CASE && EntersTerminal(workflows, p.base, p.data)
  }

  predicate NeedsCheck(workflows: Workflows, p: Pending, name: string) {
    WorkflowIdOf(p.data) in workflows && name in workflows[WorkflowIdOf(p.data)].closeChecks
  }

  lemma BaseHasStatus(db: Db, id: Id)
    requires Good(db) && CaseReady(db) && IsCase(db, id)
    ensures StrAt(db.rows[id].data, "status").Some?
  {
    hide Good, CaseReady, CaseType, FinalOk;
    GoodCase(db, id);
    CaseStrings(db.rows[id].data);
  }

  /** A write that closes its case was read with every close check passed. */
  lemma CheckedAtSelect(db: Db, caller: Caller, verb: Verb, typeId: string, id: Id, ifMatch: IfMatch, payload: Record, name: string)
    requires Good(db) && CaseReady(db) && Prepare(db, caller, verb, typeId, id, ifMatch, payload).Ok?
    requires var p := Prepare(db, caller, verb, typeId, id, ifMatch, payload).value;
      Closes(db.workflows, p) && NeedsCheck(db.workflows, p, name)
    ensures Passed(db.checks, id, name)
  {
    PreparedBase(db, caller, verb, typeId, id, ifMatch, payload);
    hide Good, CaseReady, Prepare, Passed, ValidateCaseChange, FinalOk, WorkflowIdOf;
    var p := Prepare(db, caller, verb, typeId, id, ifMatch, payload).value;
    PreparedCase(db, caller, verb, id, ifMatch, payload);
    BaseHasStatus(db, id);
    TerminalEntryWasChecked(db.workflows, db.checks, id, p.data, StrAt(p.base, "status"), name);
  }

  lemma PreparedBase(db: Db, caller: Caller, verb: Verb, typeId: string, id: Id, ifMatch: IfMatch, payload: Record)
    requires Prepare(db, caller, verb, typeId, id, ifMatch, payload).Ok?
    ensures var p := Prepare(db, caller, verb, typeId, id, ifMatch, payload).value;
      && p.id == id && p.typeId == typeId && RowExists(db, id, typeId)
      && p.base == db.rows[id].data && p.baseVersion == db.rows[id].version
  {
    hide Assemble;
  }

  /** A ticket in flight stands for the same write, or has just been read. */
  lemma TicketStands(s: Sys, move: Move, ticket: nat)
    requires ticket in Next(s, move).selected
    ensures ticket in s.selected ==> Next(s, move).selected[ticket] == s.selected[ticket]
    ensures ticket !in s.selected ==> move.Select? && move.ticket == ticket && Next(s, move).db == s.db
    ensures ticket !in s.selected ==>
      Prepare(s.db, move.caller, move.verb, move.typeId, move.id, move.ifMatch, move.payload) == Ok(Next(s, move).selected[ticket])
  {
    hide Prepare, Handle, SyncMirror, Update;
  }

  /** An id once minted names a row now only if it did before. */
  lemma RowWasThere(s: Sys, move: Move, id: Id)
    requires Inv(s) && id in s.db.minted && id in Next(s, move).db.rows
    ensures id in s.db.rows
  {
    hide Prepare, Handle, SyncMirror, Good, CaseReady, Caught, LedgerOk;
    match move {
      case Whole(step) =>
        if !step.request.Write? {
          hide Moved, HasEffect;
          var e := WholeMoves(s.db, step);
          EffectsMintNew(s.db, Handle(s.db, step.caller, step.request).db, e, id);
        }
      case Mirror(ticket) =>
        if ticket in s.stored {
          var p := s.stored[ticket];
          if SyncMirror(s.db, p.id, p.data, p.expected + 1).Ok? { SyncShape(s.db, p.id, p.data, p.expected + 1); }
        }
      case _ =>
    }
  }

  lemma EffectsMintNew(db: Db, after: Db, e: Effect, id: Id)
    requires Moved(db, after, e) && id in db.minted && id in after.rows
    ensures id in db.rows
  {
    hide Good, ScopeParent;
  }

  /** A check of a case being closed stands passed exactly unless the last thing recorded about it since
      the SELECT is that it is not. */
  lemma {:induction false} CheckStandsIff(db: Db, moves: seq<Move>, ticket: nat, name: string)
    requires Good(db) && CaseReady(db) && AllTimely(Start(db), moves)
    requires var s := Play(Start(db), moves);
      && ticket in s.selected && s.selected[ticket].id in s.db.rows
      && Closes(s.db.workflows, s.selected[ticket]) && NeedsCheck(s.db.workflows, s.selected[ticket], name)
    ensures var s := Play(Start(db), moves);
      Passed(s.db.checks, s.selected[ticket].id, name) <==> SinceSelect(Start(db), moves, ticket, name) != Some(false)
  {
    hide Good, CaseReady, AllTimely, Passed, Next, Closes, NeedsCheck, Inv, RecordedBy, Prepare;
    if moves == [] {
      NothingInFlight(db);
    } else {
      var n := |moves| - 1;
      var before, s := Play(Start(db), moves[..n]), Play(Start(db), moves);
      AllTimelyPrefix(Start(db), moves);
      StartInv(db);
      PlayKeepsInv(Start(db), moves[..n]);
      MovesKeepWorkflows(before, moves[n]);
      TicketStands(before, moves[n], ticket);
      if ticket in before.selected {
        InFlightIsMinted(before, ticket);
        RowWasThere(before, moves[n], before.selected[ticket].id);
        CheckStandsIff(db, moves[..n], ticket, name);
        CheckAfterMove(before, moves[n], before.selected[ticket].id, name);
      } else {
        var m := moves[n];
        InvIsGood(before);
        CheckedAtSelect(before.db, m.caller, m.verb, m.typeId, m.id, m.ifMatch, m.payload, name);
        PreparedBase(before.db, m.caller, m.verb, m.typeId, m.id, m.ifMatch, m.payload);
      }
    }
  }

  lemma NothingInFlight(db: Db)
    ensures Play(Start(db), []).selected == map[]
  {}

  lemma InvIsGood(s: Sys)
    requires Inv(s)
    ensures Good(s.db) && CaseReady(s.db)
  {
    hide Good, CaseReady, Caught, LedgerOk;
  }

  lemma InFlightIsMinted(s: Sys, ticket: nat)
    requires Inv(s) && ticket in s.selected
    ensures s.selected[ticket].id in s.db.minted && Caught(s.db, s.selected[ticket])
    ensures s.selected[ticket].expected <= s.selected[ticket].baseVersion
  {
    hide Good, CaseReady, LedgerOk, Fits, Applied, MoveLegal, InputOk;
  }

  /** In every interleaving whose tags are not ahead: an UPDATE that takes a case into its terminal state
      does so with every close check passed at that moment, exactly if none of them was last recorded as
      failed since the write was read. */
  lemma TerminalUpdatesAreCheckedIff(db: Db, moves: seq<Move>, ticket: nat)
    requires Good(db) && CaseReady(db) && AllTimely(Start(db), moves)
    requires var s := Play(Start(db), moves);
      && ticket in s.selected && s.selected[ticket].typeId == CASE && Update(s.db, s.selected[ticket]).Ok?
      && EntersTerminal(s.db.workflows, s.db.rows[s.selected[ticket].id].data, s.selected[ticket].data)
    ensures var s := Play(Start(db), moves);
      var p := s.selected[ticket];
      (forall name | name in s.db.workflows[WorkflowIdOf(p.data)].closeChecks :: Passed(s.db.checks, p.id, name))
      <==> (forall name | name in s.db.workflows[WorkflowIdOf(p.data)].closeChecks ::
              SinceSelect(Start(db), moves, ticket, name) != Some(false))
  {
    hide Good, CaseReady, AllTimely, Play, Inv, Caught, Passed, StatusOf, WorkflowIdOf, Update, SinceSelect, Start;
    StartInv(db);
    PlayKeepsInv(Start(db), moves);
    var s := Play(Start(db), moves);
    InFlightIsMinted(s, ticket);
    AcceptedReplacesItsBaseIff(s.db, s.selected[ticket]);
    UpdateShape(s.db, s.selected[ticket]);
    forall name | name in s.db.workflows[WorkflowIdOf(s.selected[ticket].data)].closeChecks
      ensures Passed(s.db.checks, s.selected[ticket].id, name) <==> SinceSelect(Start(db), moves, ticket, name) != Some(false)
    {
      CheckStandsIff(db, moves, ticket, name);
    }
  }

  ghost predicate Retracts(move: Move, id: Id, name: string) {
    move.Whole? && move.step.request.RecordCheck? && move.step.request.id == id && move.step.request.name == name
    && !move.step.request.passed
  }

  /** So it is enough that nobody retracts a check of that case. */
  lemma {:induction false} NoRetractionSinceSelect(s: Sys, moves: seq<Move>, ticket: nat, name: string)
    requires ticket in Play(s, moves).selected && ticket !in s.selected
    requires forall m | m in moves :: !Retracts(m, Play(s, moves).selected[ticket].id, name)
    ensures SinceSelect(s, moves, ticket, name) != Some(false)
  {
    hide Next, Handle;
    if moves != [] {
      var n := |moves| - 1;
      assert moves[n] in moves;
      TicketStands(Play(s, moves[..n]), moves[n], ticket);
      if ticket in Play(s, moves[..n]).selected { NoRetractionSinceSelect(s, moves[..n], ticket, name); }
    }
  }

  // ---- the mirror ----------------------------------------------------------------------------

  /** The mirror row shows, in full, one of the records the ledger holds, under that record's version. */
  ghost predicate ShowsPast(row: CaseRow, l: Ledger) {
    var k := row.version - l.firstVersion;
    0 <= k < |l.versions| && SameFace(row, MirrorOf(l.versions[k], row.version))
  }

  /** A stored write is in its row's ledger, at its version. */
  ghost predicate InLedger(ledgers: map<Id, Ledger>, p: Pending) {
    p.id in ledgers ==>
      var k := p.expected + 1 - ledgers[p.id].firstVersion;
      0 < k < |ledgers[p.id].versions| && ledgers[p.id].versions[k] == p.data
  }

  ghost predicate MirrorShowsPast(s: Sys, id: Id) {
    id in s.ledgers && id in s.db.mirror && ShowsPast(s.db.mirror[id], s.ledgers[id])
  }

  ghost predicate MirrorInv(s: Sys) {
    && (forall id | id in s.db.mirror :: id in s.db.access.types)
    && (forall id | IsCase(s.db, id) :: MirrorShowsPast(s, id))
    && (forall t | t in s.stored :: s.stored[t].id in s.db.minted && InLedger(s.ledgers, s.stored[t]))
  }

  /** The mirror shows some past record, so it agrees with the row exactly when it shows the row's version. */
  lemma AgreesIffSameVersion(s: Sys, id: Id)
    requires Inv(s) && MirrorShowsPast(s, id) && id in s.db.rows
    ensures Mirrored(s.db, id) <==> s.db.mirror[id].version == s.db.rows[id].version
  {
    hide Good, CaseReady, Caught, MirrorOf, CaseChained, Applied;
    assert LedgerOk(s.db, id, s.ledgers[id]);
    MirrorColumnsOf(s.db.rows[id].data, s.db.rows[id].version);
  }

  lemma ShowsPastStays(row: CaseRow, l: Ledger, data: Record, entry: Entry)
    requires ShowsPast(row, l)
    ensures ShowsPast(row, Ledger(l.firstVersion, l.versions + [data], l.entries + [entry]))
  {
    hide MirrorOf;
  }

  lemma FaceSuffices(row: CaseRow, other: CaseRow, l: Ledger)
    requires ShowsPast(row, l) && SameFace(other, row)
    ensures ShowsPast(other, l)
  {
    hide MirrorOf;
  }

  lemma LastOfChain(td: Registry.TypeDef, row: Row, l: Ledger)
    requires Chained(td, row, l)
    ensures 0 < |l.versions| == row.version - l.firstVersion + 1
  {
    hide Applied;
  }

  /** The new record takes its place in the ledger; what stood there still does. */
  lemma RecordedLedger(ledgers: map<Id, Ledger>, p: Pending, q: Pending)
    requires InLedger(ledgers, q)
    ensures InLedger(Recorded(ledgers, p), q)
  {}

  lemma OwnPlaceInLedger(ledgers: map<Id, Ledger>, p: Pending)
    requires p.id in ledgers && 0 < |ledgers[p.id].versions| == p.expected - ledgers[p.id].firstVersion + 1
    ensures InLedger(Recorded(ledgers, p), p)
  {}

  lemma StoreKeepsMirrorInv(s: Sys, ticket: nat)
    requires Inv(s) && MirrorInv(s)
    ensures MirrorInv(Next(s, Store(ticket)))
  {
    hide Good, CaseReady, Caught, Update, InLedger, MirrorOf, CaseChained, Chained, ShowsPast;
    if ticket in s.selected && Update(s.db, s.selected[ticket]).Ok? {
      var p := s.selected[ticket];
      var after := Next(s, Store(ticket));
      InFlightIsMinted(s, ticket);
      UpdateShape(s.db, p);
      UpdateKeepsMirror(s.db, p);
      assert LedgerOk(s.db, p.id, s.ledgers[p.id]);
      LastOfChain(s.db.registry[s.db.access.types[p.id]], s.db.rows[p.id], s.ledgers[p.id]);
      OwnPlaceInLedger(s.ledgers, p);
      forall t | t in s.stored ensures InLedger(after.ledgers, s.stored[t]) {
        RecordedLedger(s.ledgers, p, s.stored[t]);
      }
      forall id | IsCase(after.db, id) ensures MirrorShowsPast(after, id) {
        assert IsCase(s.db, id) && MirrorShowsPast(s, id);
        if id == p.id { ShowsPastStays(s.db.mirror[id], s.ledgers[id], p.data, Entry(p.verb, p.payload)); }
      }
    }
  }

  lemma UpdateKeepsMirror(db: Db, p: Pending)
    requires Update(db, p).Ok?
    ensures Update(db, p).value.mirror == db.mirror && Update(db, p).value.minted == db.minted
  {}

  lemma GoodTypesAreRows(db: Db)
    requires Good(db)
    ensures db.rows.Keys == db.access.types.Keys <= db.minted
  {
    hide M.Sound, RowGood, Registry.WellFormed;
  }

  /** An upsert goes through only for an entity that is still there. */
  lemma SyncNeedsTheEntity(db: Db, id: Id, data: Record, version: int)
    requires SyncMirror(db, id, data, version).Ok?
    ensures id in db.access.types
  {
    hide GuardRaises, MirrorOf;
  }

  lemma MirrorKeepsMirrorInv(s: Sys, ticket: nat)
    requires Inv(s) && MirrorInv(s)
    ensures MirrorInv(Next(s, Mirror(ticket)))
  {
    hide Good, CaseReady, Caught, LedgerOk, SyncMirror, MirrorOf;
    if ticket in s.stored {
      var p := s.stored[ticket];
      if SyncMirror(s.db, p.id, p.data, p.expected + 1).Ok? {
        SyncShape(s.db, p.id, p.data, p.expected + 1);
        SyncNeedsTheEntity(s.db, p.id, p.data, p.expected + 1);
        GoodTypesAreRows(s.db);
        MirrorColumnsOf(p.data, p.expected + 1);
        var after := Next(s, Mirror(ticket));
        forall id | IsCase(after.db, id) ensures MirrorShowsPast(after, id) {
          assert IsCase(s.db, id) && MirrorShowsPast(s, id);
        }
      }
    }
  }

  lemma MirrorColumnsOf(data: Record, version: int)
    ensures MirrorOf(data, version).version == version
  {}

  // ---- the mirror through whole requests --------------------------------------------------------

  /** What a request other than a PUT or PATCH leaves of the mirror: rows as they were but for nulled
      references, and for a new case the row of its first record. */
  ghost predicate MirrorCarried(db: Db, after: Db) {
    && (forall id | id in after.mirror :: id in after.access.types)
    && (forall id | id in after.mirror :: (id in db.mirror && SameFace(after.mirror[id], db.mirror[id]))
          || (id !in db.minted && id in after.rows && after.mirror[id] == MirrorOf(after.rows[id].data, 1) && after.rows[id].version == 1))
    && (forall id | IsCase(after, id) :: id in after.mirror)
  }

  lemma InsertCarriesMirror(db: Db, creator: Id, typeId: string, row: NewRow, id: Id)
    requires (forall x | x in db.mirror :: x in db.access.types) && (forall x | IsCase(db, x) :: x in db.mirror)
    ensures MirrorCarried(db, InsertAll(db, creator, typeId, row, id).db)
  {
    hide SyncMirror, MirrorOf;
    var inserted := InsertRow(db, id, typeId, row.data, row.parent, creator);
    if SyncMirror(inserted, id, row.data, 1).Ok? { SyncShape(inserted, id, row.data, 1); }
    var after := InsertAll(db, creator, typeId, row, id).db;
    forall x | IsCase(after, x) ensures x in after.mirror {
      if x != id { assert IsCase(db, x); }
    }
  }

  lemma RemoveCarriesMirror(db: Db, id: Id)
    requires (forall x | x in db.mirror :: x in db.access.types) && (forall x | IsCase(db, x) :: x in db.mirror)
    ensures MirrorCarried(db, RemoveRow(db, id))
  {
    var after := RemoveRow(db, id);
    forall x | IsCase(after, x) ensures x in after.mirror {
      assert IsCase(db, x);
    }
  }

  lemma SameRowsCarryMirror(db: Db, after: Db)
    requires (forall x | x in db.mirror :: x in db.access.types) && (forall x | IsCase(db, x) :: x in db.mirror)
    requires after.mirror == db.mirror && after.rows == db.rows && after.access.types == db.access.types
    ensures MirrorCarried(db, after)
  {
    forall x | IsCase(after, x) ensures x in after.mirror {
      assert IsCase(db, x);
    }
  }

  lemma WholeCarriesMirror(db: Db, step: Step)
    requires Good(db) && !step.request.Write?
    requires (forall x | x in db.mirror :: x in db.access.types) && (forall x | IsCase(db, x) :: x in db.mirror)
    ensures MirrorCarried(db, Handle(db, step.caller, step.request).db)
  {
    hide Good, MirrorCarried, PrepareCreate, InsertAll, RemoveRow, Gate.RequireAction;
    var req := step.request;
    if req.CreateObject? {
      if PrepareCreate(db, step.caller, req.typeId, req.payload).Ok? {
        InsertCarriesMirror(db, step.caller.actor, req.typeId, PrepareCreate(db, step.caller, req.typeId, req.payload).value, req.id);
      } else {
        SameRowsCarryMirror(db, db);
      }
    } else if req.DeleteObject? {
      RemoveCarriesMirror(db, req.id);
      SameRowsCarryMirror(db, db);
    } else {
      hide Handle;
      OtherStepKeepsMirror(db, step);
      SameRowsCarryMirror(db, Handle(db, step.caller, req).db);
    }
  }

  lemma WholeKeepsMirrorInv(s: Sys, step: Step)
    requires Inv(s) && MirrorInv(s)
    ensures MirrorInv(Next(s, Whole(step)))
  {
    hide Good, CaseReady, Caught, LedgerOk, Handle, MirrorOf, InLedger, ShowsPast, Moved, MirrorCarried;
    if !step.request.Write? {
      var db, after := s.db, Next(s, Whole(step)).db;
      var e := WholeMoves(db, step);
      WholeCarriesMirror(db, step);
      MirrorStaysTyped(db, after);
      MintedGrows(db, after, e);
      forall t | t in s.stored ensures InLedger(Next(s, Whole(step)).ledgers, s.stored[t]) {
        StoredRowWasThere(s, step, s.stored[t].id);
        WatchKeepsPlace(s.ledgers, after.rows, s.stored[t]);
      }
      forall id | IsCase(after, id) ensures MirrorShowsPast(Next(s, Whole(step)), id) {
        CarriedShowsPast(s, step, id);
      }
    }
  }

  lemma MirrorStaysTyped(db: Db, after: Db)
    requires MirrorCarried(db, after)
    ensures forall id | id in after.mirror :: id in after.access.types
  {
    hide MirrorOf;
  }

  lemma StoredRowWasThere(s: Sys, step: Step, id: Id)
    requires Inv(s) && !step.request.Write? && id in s.db.minted
    ensures id in Next(s, Whole(step)).ledgers ==> id in s.ledgers
  {
    hide Good, CaseReady, Caught, LedgerOk, Handle;
    if id in Next(s, Whole(step)).db.rows { RowWasThere(s, Whole(step), id); }
  }

  lemma WatchKeepsPlace(known: map<Id, Ledger>, rows: map<Id, Row>, p: Pending)
    requires InLedger(known, p) && (p.id in Watch(rows, known) ==> p.id in known)
    ensures InLedger(Watch(rows, known), p)
  {}

  lemma CarriedShowsPast(s: Sys, step: Step, id: Id)
    requires Inv(s) && MirrorInv(s) && !step.request.Write? && IsCase(Next(s, Whole(step)).db, id)
    requires MirrorCarried(s.db, Next(s, Whole(step)).db)
    ensures MirrorShowsPast(Next(s, Whole(step)), id)
  {
    hide Good, CaseReady, Caught, LedgerOk, Handle, MirrorOf, InLedger;
    var db, after := s.db, Handle(s.db, step.caller, step.request).db;
    GoodTypesAreRows(db);
    if id in db.rows {
      CasesStayCases(s, step, id);
      assert MirrorShowsPast(s, id);
      FaceSuffices(db.mirror[id], after.mirror[id], s.ledgers[id]);
    } else {
      MirrorColumnsOf(after.rows[id].data, 1);
    }
  }

  /** No request changes the type of an object. */
  lemma CasesStayCases(s: Sys, step: Step, id: Id)
    requires Inv(s) && !step.request.Write? && id in s.db.rows && IsCase(Next(s, Whole(step)).db, id)
    ensures IsCase(s.db, id)
  {
    hide Good, CaseReady, Caught, LedgerOk, Handle;
    GoodTypesAreRows(s.db);
    var e := EffectOf(s.db, step.caller, step.request);
  }

  lemma NextKeepsMirrorInv(s: Sys, move: Move)
    requires Inv(s) && MirrorInv(s)
    ensures MirrorInv(Next(s, move))
  {
    match move {
      case Select(_, _, _, _, _, _, _) => SelectKeepsMirrorInv(s, move);
      case Store(ticket) => hide Next, Inv, MirrorInv; StoreKeepsMirrorInv(s, ticket);
      case Mirror(ticket) => hide Next, Inv, MirrorInv; MirrorKeepsMirrorInv(s, ticket);
      case Whole(step) => hide Next, Inv, MirrorInv; WholeKeepsMirrorInv(s, step);
    }
  }

  lemma SelectKeepsMirrorInv(s: Sys, move: Move)
    requires MirrorInv(s) && move.Select?
    ensures MirrorInv(Next(s, move))
  {
    hide Prepare, InLedger, ShowsPast;
    var after := Next(s, move);
    assert after.db == s.db && after.ledgers == s.ledgers && after.stored == s.stored;
    forall id | IsCase(after.db, id) ensures MirrorShowsPast(after, id) {
      assert MirrorShowsPast(s, id);
    }
  }

  // ---- which upsert the mirror shows ------------------------------------------------------------

  /** The version of the upsert this move gets through for the case, if it does. */
  ghost function SyncedBy(s: Sys, move: Move, id: Id): Option<int> {
    if move.Mirror? && move.ticket in s.stored && s.stored[move.ticket].id == id
       && SyncMirror(s.db, id, s.stored[move.ticket].data, s.stored[move.ticket].expected + 1).Ok?
    then Some(s.stored[move.ticket].expected + 1)
    else None
  }

  /** The version of the last upsert that went through for the case. */
  ghost function LastSynced(s: Sys, moves: seq<Move>, id: Id): Option<int> {
    if moves == [] then None
    else
      var n := |moves| - 1;
      match SyncedBy(Play(s, moves[..n]), moves[n], id)
      case Some(v) => Some(v)
      case None => LastSynced(s, moves[..n], id)
  }

  /** The version the mirror shows after a move. */
  lemma ShownAfterMove(s: Sys, move: Move, id: Id)
    requires Inv(s) && MirrorInv(s) && IsCase(Next(s, move).db, id) && id in s.db.rows
    requires id in s.db.mirror && id in Next(s, move).db.mirror && id in s.ledgers && id in Next(s, move).ledgers
    ensures Next(s, move).ledgers[id].firstVersion == s.ledgers[id].firstVersion
    ensures Next(s, move).db.mirror[id].version ==
      match SyncedBy(s, move, id) case Some(v) => v case None => s.db.mirror[id].version
  {
    hide Good, CaseReady, Caught, LedgerOk, Handle, SyncMirror, MirrorOf, InLedger, ShowsPast, Update, Prepare;
    match move {
      case Store(ticket) =>
        if ticket in s.selected && Update(s.db, s.selected[ticket]).Ok? { UpdateKeepsMirror(s.db, s.selected[ticket]); }
      case Mirror(ticket) =>
        if ticket in s.stored {
          var p := s.stored[ticket];
          if SyncMirror(s.db, p.id, p.data, p.expected + 1).Ok? {
            SyncShape(s.db, p.id, p.data, p.expected + 1);
            MirrorColumnsOf(p.data, p.expected + 1);
          }
        }
      case Whole(step) =>
        if !step.request.Write? {
          GoodTypesAreRows(s.db);
          WholeCarriesMirror(s.db, step);
        }
      case _ =>
    }
  }

  /** No upsert has gone through for an id that was never handed out. */
  lemma {:induction false} NothingSyncedUnminted(db: Db, moves: seq<Move>, id: Id)
    requires Good(db) && CaseReady(db) && AllTimely(Start(db), moves)
    requires id !in Play(Start(db), moves).db.minted
    ensures LastSynced(Start(db), moves, id) == None
  {
    hide Good, CaseReady, AllTimely, Next, Inv, SyncMirror;
    if moves != [] {
      var n := |moves| - 1;
      var before := Play(Start(db), moves[..n]);
      AllTimelyPrefix(Start(db), moves);
      StartInv(db);
      PlayKeepsInv(Start(db), moves[..n]);
      InvIsGood(before);
      MoveMintsMore(before, moves[n]);
      NothingSyncedUnminted(db, moves[..n], id);
      GoodTypesAreRows(before.db);
      if SyncedBy(before, moves[n], id).Some? {
        var p := before.stored[moves[n].ticket];
        SyncNeedsTheEntity(before.db, id, p.data, p.expected + 1);
      }
    }
  }

  lemma MoveMintsMore(s: Sys, move: Move)
    requires Inv(s)
    ensures s.db.minted <= Next(s, move).db.minted
  {
    hide Good, CaseReady, Caught, LedgerOk, Handle, SyncMirror, Update, Prepare;
    match move {
      case Store(ticket) =>
        if ticket in s.selected && Update(s.db, s.selected[ticket]).Ok? { UpdateKeepsMirror(s.db, s.selected[ticket]); }
      case Mirror(ticket) =>
        if ticket in s.stored {
          var p := s.stored[ticket];
          if SyncMirror(s.db, p.id, p.data, p.expected + 1).Ok? { SyncShape(s.db, p.id, p.data, p.expected + 1); }
        }
      case Whole(step) =>
        if !step.request.Write? {
          hide Moved;
          var e := WholeMoves(s.db, step);
          MintedGrows(s.db, Handle(s.db, step.caller, step.request).db, e);
        }
      case _ =>
    }
  }

  lemma StartMirrorInv(db: Db)
    requires Good(db) && InSync(db)
    ensures MirrorInv(Start(db))
  {
    hide Good, MirrorOf;
    forall id | IsCase(db, id) ensures MirrorShowsPast(Start(db), id) {
      assert Mirrored(db, id);
      MirrorColumnsOf(db.rows[id].data, db.rows[id].version);
    }
  }

  lemma {:induction false} PlayKeepsMirrorInv(db: Db, moves: seq<Move>)
    requires Good(db) && CaseReady(db) && InSync(db) && AllTimely(Start(db), moves)
    ensures MirrorInv(Play(Start(db), moves))
  {
    hide Good, CaseReady, InSync, AllTimely, Next, Inv, MirrorInv, Start;
    if moves == [] {
      StartMirrorInv(db);
    } else {
      var n := |moves| - 1;
      AllTimelyPrefix(Start(db), moves);
      StartInv(db);
      PlayKeepsInv(Start(db), moves[..n]);
      PlayKeepsMirrorInv(db, moves[..n]);
      NextKeepsMirrorInv(Play(Start(db), moves[..n]), moves[n]);
    }
  }

  /** The version a mirror row shows is that of the last upsert that went through for it, or the version
      the case had when it was first seen. */
  ghost function ShownVersion(s: Sys, moves: seq<Move>, id: Id): int
    requires id in Play(s, moves).ledgers
  {
    match LastSynced(s, moves, id)
    case Some(v) => v
    case None => Play(s, moves).ledgers[id].firstVersion
  }

  lemma CaseFacts(s: Sys, id: Id)
    requires Inv(s) && MirrorInv(s) && IsCase(s.db, id)
    ensures id in s.db.mirror && id in s.ledgers && id in s.db.minted
  {
    hide Good, CaseReady, Caught, LedgerOk, ShowsPast, InLedger;
    GoodTypesAreRows(s.db);
    assert MirrorShowsPast(s, id);
  }

  lemma {:induction false} MirrorShowsLastSynced(db: Db, moves: seq<Move>, id: Id)
    requires Good(db) && CaseReady(db) && InSync(db) && AllTimely(Start(db), moves)
    requires IsCase(Play(Start(db), moves).db, id)
    ensures var s := Play(Start(db), moves);
      id in s.ledgers && id in s.db.mirror && s.db.mirror[id].version == ShownVersion(Start(db), moves, id)
  {
    hide Good, CaseReady, InSync, AllTimely, Next, Inv, MirrorInv, IsCase, SyncedBy;
    StartInv(db);
    PlayKeepsInv(Start(db), moves);
    PlayKeepsMirrorInv(db, moves);
    CaseFacts(Play(Start(db), moves), id);
    if moves == [] {
      StartShowsFirst(db, id);
    } else {
      var n := |moves| - 1;
      var before := Play(Start(db), moves[..n]);
      AllTimelyPrefix(Start(db), moves);
      PlayKeepsInv(Start(db), moves[..n]);
      PlayKeepsMirrorInv(db, moves[..n]);
      if id in before.db.minted {
        CaseBefore(before, moves[n], id);
        MirrorShowsLastSynced(db, moves[..n], id);
        ShownAfterMove(before, moves[n], id);
      } else {
        NothingSyncedUnminted(db, moves[..n], id);
        NewCaseShowsFirst(before, moves[n], id);
      }
    }
  }

  lemma StartShowsFirst(db: Db, id: Id)
    requires InSync(db) && IsCase(db, id)
    ensures id in db.mirror && db.mirror[id].version == Start(db).ledgers[id].firstVersion
  {
    assert Mirrored(db, id);
    MirrorColumnsOf(db.rows[id].data, db.rows[id].version);
  }

  lemma CaseBefore(s: Sys, move: Move, id: Id)
    requires Inv(s) && MirrorInv(s) && id in s.db.minted && IsCase(Next(s, move).db, id)
    ensures IsCase(s.db, id) && id in s.db.rows && id in s.db.mirror && id in s.ledgers
  {
    hide Good, CaseReady, Caught, LedgerOk, MirrorInv;
    RowWasThere(s, move, id);
    TypeStays(s, move, id);
    CaseFacts(s, id);
  }

  lemma TypeStays(s: Sys, move: Move, id: Id)
    requires Inv(s) && id in s.db.rows && IsCase(Next(s, move).db, id)
    ensures IsCase(s.db, id)
  {
    hide Good, CaseReady, Caught, LedgerOk, Handle, SyncMirror, Update, Prepare;
    match move {
      case Store(ticket) =>
        if ticket in s.selected && Update(s.db, s.selected[ticket]).Ok? { UpdateShape(s.db, s.selected[ticket]); }
      case Mirror(ticket) =>
        if ticket in s.stored {
          var p := s.stored[ticket];
          if SyncMirror(s.db, p.id, p.data, p.expected + 1).Ok? { SyncShape(s.db, p.id, p.data, p.expected + 1); }
        }
      case Whole(step) => if !step.request.Write? { CasesStayCases(s, step, id); }
      case _ =>
    }
  }

  /** A case created by a move is first seen at the version its mirror row has, and no upsert of a write is
      involved. */
  lemma NewCaseShowsFirst(s: Sys, move: Move, id: Id)
    requires Inv(s) && MirrorInv(s) && id !in s.db.minted && IsCase(Next(s, move).db, id)
    ensures SyncedBy(s, move, id) == None
    ensures id in Next(s, move).ledgers && id in Next(s, move).db.mirror
    ensures Next(s, move).db.mirror[id].version == Next(s, move).ledgers[id].firstVersion
  {
    hide Good, CaseReady, Caught, LedgerOk, Handle, SyncMirror, Update, Prepare, InLedger, ShowsPast, MirrorOf;
    GoodTypesAreRows(s.db);
    match move {
      case Store(ticket) =>
        if ticket in s.selected && Update(s.db, s.selected[ticket]).Ok? {
          UpdateShape(s.db, s.selected[ticket]);
        }
      case Mirror(ticket) =>
        if ticket in s.stored {
          var p := s.stored[ticket];
          if SyncMirror(s.db, p.id, p.data, p.expected + 1).Ok? { SyncShape(s.db, p.id, p.data, p.expected + 1); }
        }
      case Whole(step) =>
        if !step.request.Write? {
          WholeCarriesMirror(s.db, step);
          MirrorColumnsOf(Handle(s.db, step.caller, step.request).db.rows[id].data, 1);
        }
      case _ =>
    }
  }

  /** In every interleaving whose tags are not ahead, from tables in step: a case's mirror agrees with its
      row exactly when the last upsert that went through for it was that of its last accepted UPDATE. */
  lemma MirrorAgreesIff(db: Db, moves: seq<Move>, id: Id)
    requires Good(db) && CaseReady(db) && InSync(db) && AllTimely(Start(db), moves)
    requires IsCase(Play(Start(db), moves).db, id)
    ensures id in Play(Start(db), moves).ledgers
    ensures var s := Play(Start(db), moves);
      Mirrored(s.db, id) <==> ShownVersion(Start(db), moves, id) == s.db.rows[id].version
  {
    hide Good, CaseReady, InSync, AllTimely, Play, Inv, Mirrored, ShownVersion, ShowsPast, InLedger;
    StartInv(db);
    PlayKeepsInv(Start(db), moves);
    PlayKeepsMirrorInv(db, moves);
    MirrorShowsLastSynced(db, moves, id);
    assert MirrorShowsPast(Play(Start(db), moves), id);
    AgreesIffSameVersion(Play(Start(db), moves), id);
  }

  // ---- the two statements after the SELECT -----------------------------------------------------

  /** What a case write in flight that is about to be accepted has settled. */
  lemma CaseWriteSettled(s: Sys, ticket: nat)
    requires Inv(s) && ticket in s.selected && s.selected[ticket].typeId == CASE && Update(s.db, s.selected[ticket]).Ok?
    ensures var p := s.selected[ticket];
      && RowExists(s.db, p.id, CASE) && StrAt(p.data, "status").Some?
      && var project := StrAt(p.data, "project_id"); project.Some? && project.value in s.db.access.types
  {
    hide Good, CaseReady, LedgerOk, Update, FinalOk, Applied, InputOk, MoveLegal, CaseType, StrAt;
    var p := s.selected[ticket];
    InFlightIsMinted(s, ticket);
    UpdateShape(s.db, p);
    RegistryHasCase(s.db);
    CaseStrings(p.data);
    ProjectIsParent(p.data);
  }

  lemma RegistryHasCase(db: Db)
    requires CaseReady(db)
    ensures CASE in db.registry && db.registry[CASE] == CaseType()
  {
    hide CaseType;
  }

  lemma ProjectIsParent(data: Record)
    ensures ScopeParent(CaseType(), data) == StrAt(data, "project_id")
  {
    hide EnumOptions;
    assert CaseType().scopeParents[0] == "project_id";
  }

  /** A write in flight whose tag is the row's version is accepted exactly if the row is no orphan. */
  lemma CaughtAcceptedIff(db: Db, p: Pending)
    requires Good(db) && Caught(db, p) && RowExists(db, p.id, p.typeId) && db.rows[p.id].version == p.expected < MAX_I32
    ensures Update(db, p).Ok? <==> !Orphaned(db, p.id)
  {
    GoodKeys(db);
    assert RowGood(db, p.id);
    hide Good, FinalOk, ScopeParent, Applied, InputOk, MoveLegal;
  }

  /** A write that closes its case, with the row's version for a tag, is accepted whatever the checks say by
      now; the mirror follows it exactly if they all stand passed and the assignee exists. */
  lemma RetractedCheckStillCloses(s: Sys, ticket: nat)
    requires Inv(s) && ticket in s.selected && s.selected[ticket].typeId == CASE
    requires var p := s.selected[ticket];
      IsCase(s.db, p.id) && s.db.rows[p.id].version == p.expected < MAX_I32 && !Orphaned(s.db, p.id)
    requires var p := s.selected[ticket];
      && p.id in s.db.mirror && s.db.mirror[p.id].status != StatusOf(p.data) && s.db.mirror[p.id].version <= p.expected
      && WorkflowIdOf(p.data) in s.db.workflows && s.db.workflows[WorkflowIdOf(p.data)].IsTerminal(StatusOf(p.data))
    ensures var p, after := s.selected[ticket], Next(Next(s, Store(ticket)), Mirror(ticket)).db;
      && p.id in after.rows && after.rows[p.id] == Row(p.data, p.expected + 1) && p.id in after.mirror
      && (after.mirror[p.id].version == p.expected + 1 <==>
            && (forall name | name in s.db.workflows[WorkflowIdOf(p.data)].closeChecks :: Passed(s.db.checks, p.id, name))
            && AssigneeExists(s.db, p.data))
  {
    hide Inv, Next, Update, SyncMirror, Passed, WorkflowIdOf, StatusOf, MirrorOf, AssigneeExists, StrAt, Caught, Good, CaseReady, Orphaned;
    InvIsGood(s);
    InFlightIsMinted(s, ticket);
    CaughtAcceptedIff(s.db, s.selected[ticket]);
    CaseWriteSettled(s, ticket);
    var p := s.selected[ticket];
    UpdateShape(s.db, p);
    UpdateKeepsRest(s.db, p);
    var stored := Update(s.db, p).value;
    StoreThenMirror(s, ticket);
    ClosingSyncIff(stored, p.id, p.data, p.expected + 1);
    SameAssignee(s.db, stored, p.data);
    if SyncMirror(stored, p.id, p.data, p.expected + 1).Ok? { SyncShape(stored, p.id, p.data, p.expected + 1); }
    MirrorColumnsOf(p.data, p.expected + 1);
  }

  lemma StoreThenMirror(s: Sys, ticket: nat)
    requires ticket in s.selected && s.selected[ticket].typeId == CASE && Update(s.db, s.selected[ticket]).Ok?
    ensures var p := s.selected[ticket];
      var stored := Update(s.db, p).value;
      Next(Next(s, Store(ticket)), Mirror(ticket)).db ==
        match SyncMirror(stored, p.id, p.data, p.expected + 1) case Err(_) => stored case Ok(synced) => synced
  {
    hide Update, SyncMirror, Recorded;
  }

  lemma UpdateKeepsRest(db: Db, p: Pending)
    requires Update(db, p).Ok?
    ensures var after := Update(db, p).value;
      after.mirror == db.mirror && after.checks == db.checks && after.workflows == db.workflows
  {}

  lemma SameAssignee(db: Db, after: Db, data: Record)
    requires after.access.types == db.access.types
    ensures AssigneeExists(after, data) <==> AssigneeExists(db, data)
  {
    hide StrAt;
  }

  /** When an upsert into the terminal state goes through. */
  lemma ClosingSyncIff(db: Db, id: Id, data: Record, version: int)
    requires id in db.access.types && id in db.mirror && db.mirror[id].status != StatusOf(data) && StrAt(data, "status").Some?
    requires WorkflowIdOf(data) in db.workflows && db.workflows[WorkflowIdOf(data)].IsTerminal(StatusOf(data))
    requires var project := StrAt(data, "project_id"); project.Some? && project.value in db.access.types
    ensures SyncMirror(db, id, data, version).Ok? <==>
      && (forall name | name in db.workflows[WorkflowIdOf(data)].closeChecks :: Passed(db.checks, id, name))
      && AssigneeExists(db, data)
  {
    hide Passed, StrAt;
  }

  /** Upserts of one case that arrive in the order opposite to their UPDATEs: if the earlier one goes
      through the mirror ends behind the row; if it is refused, the mirror agrees if the later one, being
      that of the row's version, went through. */
  lemma LateMirrorGoesStale(s: Sys, earlier: nat, later: nat)
    requires Inv(s) && MirrorInv(s) && earlier != later && earlier in s.stored && later in s.stored
    requires s.stored[earlier].id == s.stored[later].id && s.stored[earlier].expected < s.stored[later].expected
    requires var p := s.stored[later]; IsCase(s.db, p.id) && s.db.rows[p.id].version == p.expected + 1
    ensures var id, between, after := s.stored[later].id, Next(s, Mirror(later)), Next(Next(s, Mirror(later)), Mirror(earlier));
      && id in after.db.rows
      && (SyncedBy(between, Mirror(earlier), id).Some? ==> !Mirrored(after.db, id))
      && (SyncedBy(between, Mirror(earlier), id).None? && SyncedBy(s, Mirror(later), id).Some? ==> Mirrored(after.db, id))
  {
    hide Next, Inv, MirrorInv, Mirrored, MirrorShowsPast, SyncedBy, IsCase;
    var id := s.stored[later].id;
    var between := Next(s, Mirror(later));
    var after := Next(between, Mirror(earlier));
    MirrorStep(s, later, id);
    SyncedVersion(s, later, id);
    MirrorStep(between, earlier, id);
    SyncedVersion(between, earlier, id);
    ShowsPastHere(after, id);
    AgreesIffSameVersion(after, id);
  }

  /** One upsert move, as far as one case is concerned. */
  lemma MirrorStep(s: Sys, ticket: nat, id: Id)
    requires Inv(s) && MirrorInv(s) && ticket in s.stored && IsCase(s.db, id)
    ensures var after := Next(s, Mirror(ticket));
      && Inv(after) && MirrorInv(after) && IsCase(after.db, id)
      && id in s.db.rows && id in s.db.mirror && id in after.db.rows && id in after.db.mirror
      && after.db.rows == s.db.rows && after.stored == s.stored - {ticket}
      && after.db.mirror[id].version == match SyncedBy(s, Mirror(ticket), id) case Some(v) => v case None => s.db.mirror[id].version
  {
    MirrorMoveKeeps(s, ticket);
    hide Next, Inv, MirrorInv, SyncedBy;
    MirrorKeepsInv(s, ticket);
    MirrorKeepsMirrorInv(s, ticket);
    CaseFacts(s, id);
    CaseFacts(Next(s, Mirror(ticket)), id);
    ShownAfterMove(s, Mirror(ticket), id);
  }

  lemma SyncedVersion(s: Sys, ticket: nat, id: Id)
    requires ticket in s.stored
    ensures SyncedBy(s, Mirror(ticket), id).Some? ==> SyncedBy(s, Mirror(ticket), id).value == s.stored[ticket].expected + 1
  {
    hide SyncMirror;
  }

  lemma ShowsPastHere(s: Sys, id: Id)
    requires MirrorInv(s) && IsCase(s.db, id)
    ensures MirrorShowsPast(s, id)
  {
    hide MirrorShowsPast, InLedger;
  }

  lemma MirrorMoveKeeps(s: Sys, ticket: nat)
    requires ticket in s.stored
    ensures var after := Next(s, Mirror(ticket));
      && after.db.rows == s.db.rows && after.db.access == s.db.access && after.ledgers == s.ledgers
      && after.stored == s.stored - {ticket}
  {
    hide SyncMirror;
    var p := s.stored[ticket];
    if SyncMirror(s.db, p.id, p.data, p.expected + 1).Ok? { SyncShape(s.db, p.id, p.data, p.expected + 1); }
  }

  // ---- upserts in order -----------------------------------------------------------------------------

  /** An upsert of the case is still to come for this version. */
  ghost predicate Waiting(s: Sys, id: Id, version: int) {
    exists t | t in s.stored :: s.stored[t].id == id && s.stored[t].expected + 1 == version
  }

  /** The mirror is behind all upserts to come, which are for different versions, and those are all it
      lacks. */
  ghost predicate Orderly(s: Sys, id: Id) {
    && id in s.db.rows && id in s.db.mirror
    && s.selected.Keys !! s.stored.Keys
    && (forall t | t in s.stored && s.stored[t].id == id :: s.db.mirror[id].version <= s.stored[t].expected)
    && (forall t, u | t in s.stored && u in s.stored && t != u && s.stored[t].id == s.stored[u].id == id ::
          s.stored[t].expected != s.stored[u].expected)
    && (forall v | s.db.mirror[id].version < v <= s.db.rows[id].version :: Waiting(s, id, v))
  }

  /** The upsert comes before every other one to come for its case. */
  ghost predicate InOrder(s: Sys, ticket: nat)
    requires ticket in s.stored
  {
    forall t | t in s.stored && s.stored[t].id == s.stored[ticket].id :: s.stored[ticket].expected <= s.stored[t].expected
  }

  /** Nothing the upsert refers to is missing, and if it closes the case the checks stand passed. */
  ghost predicate Clear(db: Db, p: Pending) {
    && AssigneeExists(db, p.data)
    && (var project := StrAt(p.data, "project_id"); project.Some? ==> project.value in db.access.types)
    && (WorkflowIdOf(p.data) in db.workflows && db.workflows[WorkflowIdOf(p.data)].IsTerminal(StatusOf(p.data)) ==>
          forall name | name in db.workflows[WorkflowIdOf(p.data)].closeChecks :: Passed(db.checks, p.id, name))
  }

  ghost predicate SmoothMove(s: Sys, move: Move, id: Id) {
    move.Mirror? && move.ticket in s.stored && s.stored[move.ticket].id == id ==>
      InOrder(s, move.ticket) && Clear(s.db, s.stored[move.ticket])
  }

  ghost predicate Smooth(s: Sys, moves: seq<Move>, id: Id) {
    forall i | 0 <= i < |moves| :: SmoothMove(Play(s, moves[..i]), moves[i], id)
  }

  lemma SmoothPrefix(s: Sys, moves: seq<Move>, id: Id)
    requires Smooth(s, moves, id) && moves != []
    ensures Smooth(s, moves[..|moves| - 1], id)
    ensures SmoothMove(Play(s, moves[..|moves| - 1]), moves[|moves| - 1], id)
  {
    hide SmoothMove, Play;
    var n := |moves| - 1;
    forall i | 0 <= i < n ensures SmoothMove(Play(s, moves[..n][..i]), moves[..n][i], id) {
      assert moves[..n][..i] == moves[..i];
      assert SmoothMove(Play(s, moves[..i]), moves[i], id);
    }
  }

  /** A stored record's status was legal, so its workflow exists. */
  lemma StoredRecordIsLegal(s: Sys, ticket: nat)
    requires Inv(s) && MirrorInv(s) && ticket in s.stored && IsCase(s.db, s.stored[ticket].id)
    ensures var data := s.stored[ticket].data; StrAt(data, "status").Some? && WorkflowIdOf(data) in s.db.workflows
  {
    hide Good, CaseReady, Caught, ShowsPast, StrAt, WorkflowIdOf, StatusOf, Chained;
    var p := s.stored[ticket];
    assert MirrorShowsPast(s, p.id);
    assert LedgerOk(s.db, p.id, s.ledgers[p.id]) && InLedger(s.ledgers, p);
    var l, k := s.ledgers[p.id], p.expected + 1 - s.ledgers[p.id].firstVersion;
    assert l.versions[k] == p.data && MoveLegal(s.db.workflows, l.versions[k - 1], l.versions[k - 1 + 1]);
  }

  lemma ClearGoesThrough(db: Db, p: Pending)
    requires Clear(db, p) && p.id in db.access.types
    requires StrAt(p.data, "status").Some? && WorkflowIdOf(p.data) in db.workflows
    ensures SyncMirror(db, p.id, p.data, p.expected + 1).Ok?
  {
    hide Passed, StrAt;
  }

  lemma SmoothUpsertKeepsOrderly(s: Sys, ticket: nat, id: Id)
    requires Inv(s) && MirrorInv(s) && Orderly(s, id) && IsCase(s.db, id)
    requires ticket in s.stored && s.stored[ticket].id == id && SmoothMove(s, Mirror(ticket), id)
    ensures Orderly(Next(s, Mirror(ticket)), id)
  {
    hide Inv, MirrorInv, Clear, SyncMirror, MirrorOf;
    var p, after := s.stored[ticket], Next(s, Mirror(ticket));
    StoredRecordIsLegal(s, ticket);
    ClearGoesThrough(s.db, p);
    SyncShape(s.db, id, p.data, p.expected + 1);
    MirrorColumnsOf(p.data, p.expected + 1);
    forall v | p.expected + 1 < v <= s.db.rows[id].version ensures Waiting(after, id, v) {
      assert Waiting(s, id, v);
      var t :| t in s.stored && s.stored[t].id == id && s.stored[t].expected + 1 == v;
      assert t in after.stored && after.stored[t] == s.stored[t];
    }
  }

  lemma MirrorTouchesOne(s: Sys, ticket: nat, id: Id)
    requires ticket in s.stored && s.stored[ticket].id != id && id in s.db.mirror
    ensures var after := Next(s, Mirror(ticket));
      && after.db.rows == s.db.rows && after.selected == s.selected && after.stored == s.stored - {ticket}
      && id in after.db.mirror && after.db.mirror[id] == s.db.mirror[id]
  {
    hide SyncMirror, MirrorOf;
    var p := s.stored[ticket];
    if SyncMirror(s.db, p.id, p.data, p.expected + 1).Ok? { SyncShape(s.db, p.id, p.data, p.expected + 1); }
  }

  lemma NoTicketNoMove(s: Sys, ticket: nat)
    requires ticket !in s.stored
    ensures Next(s, Mirror(ticket)) == s
  {
    hide SyncMirror;
  }

  lemma OtherUpsertKeepsOrderly(s: Sys, ticket: nat, id: Id)
    requires Orderly(s, id) && (ticket in s.stored ==> s.stored[ticket].id != id)
    ensures Orderly(Next(s, Mirror(ticket)), id)
  {
    var after := Next(s, Mirror(ticket));
    if ticket in s.stored { MirrorTouchesOne(s, ticket, id); }
    hide SyncMirror, MirrorOf, Next;
    if ticket !in s.stored { NoTicketNoMove(s, ticket); }
    forall v | s.db.mirror[id].version < v <= s.db.rows[id].version ensures Waiting(after, id, v) {
      assert Waiting(s, id, v);
      var t :| t in s.stored && s.stored[t].id == id && s.stored[t].expected + 1 == v;
      assert t in after.stored && after.stored[t] == s.stored[t];
    }
  }

  /** Every stored write is for a version the row has already reached. */
  lemma StoredIsReached(s: Sys, t: nat, id: Id)
    requires Inv(s) && MirrorInv(s) && t in s.stored && s.stored[t].id == id && IsCase(s.db, id)
    ensures s.stored[t].expected < s.db.rows[id].version && s.db.mirror[id].version <= s.db.rows[id].version
  {
    hide Good, CaseReady, Caught, CaseChained, SameFace;
    assert MirrorShowsPast(s, id) && InLedger(s.ledgers, s.stored[t]);
    assert LedgerOk(s.db, id, s.ledgers[id]);
    LastOfChain(s.db.registry[s.db.access.types[id]], s.db.rows[id], s.ledgers[id]);
  }

  lemma MirrorNotAhead(s: Sys, id: Id)
    requires Inv(s) && MirrorInv(s) && IsCase(s.db, id)
    ensures id in s.db.mirror && s.db.mirror[id].version <= s.db.rows[id].version
  {
    hide Good, CaseReady, Caught, CaseChained, SameFace, InLedger;
    assert MirrorShowsPast(s, id);
    assert LedgerOk(s.db, id, s.ledgers[id]);
    LastOfChain(s.db.registry[s.db.access.types[id]], s.db.rows[id], s.ledgers[id]);
  }

  lemma StoreKeepsOrderly(s: Sys, ticket: nat, id: Id)
    requires Inv(s) && MirrorInv(s) && Orderly(s, id) && IsCase(s.db, id)
    ensures Orderly(Next(s, Store(ticket)), id)
  {
    hide Inv, MirrorInv, Update, Recorded;
    MirrorNotAhead(s, id);
    if ticket in s.selected && Update(s.db, s.selected[ticket]).Ok? {
      var p, after := s.selected[ticket], Next(s, Store(ticket));
      UpdateShape(s.db, p);
      UpdateKeepsRest(s.db, p);
      forall t | t in s.stored && s.stored[t].id == id ensures s.stored[t].expected < s.db.rows[id].version {
        StoredIsReached(s, t, id);
      }
      forall v | s.db.mirror[id].version < v <= after.db.rows[id].version ensures Waiting(after, id, v) {
        if v <= s.db.rows[id].version {
          assert Waiting(s, id, v);
          var t :| t in s.stored && s.stored[t].id == id && s.stored[t].expected + 1 == v;
          assert t in after.stored && after.stored[t] == s.stored[t];
        } else {
          assert ticket in after.stored && after.stored[ticket] == p;
        }
      }
      assert after.db.mirror == s.db.mirror;
      forall t | t in after.stored && after.stored[t].id == id ensures after.db.mirror[id].version <= after.stored[t].expected {
        if t != ticket { assert after.stored[t] == s.stored[t]; }
      }
      forall t, u | t in after.stored && u in after.stored && t != u && after.stored[t].id == after.stored[u].id == id
        ensures after.stored[t].expected != after.stored[u].expected
      {
        if t != ticket { assert after.stored[t] == s.stored[t]; }
        if u != ticket { assert after.stored[u] == s.stored[u]; }
      }
    } else {
      QuietMoveKeepsOrderly(s, Next(s, Store(ticket)), id);
    }
  }

  lemma QuietMoveKeepsOrderly(s: Sys, after: Sys, id: Id)
    requires Orderly(s, id) && after.stored == s.stored && after.selected.Keys !! after.stored.Keys
    requires id in after.db.rows && id in after.db.mirror
    requires after.db.rows[id].version == s.db.rows[id].version && after.db.mirror[id].version == s.db.mirror[id].version
    ensures Orderly(after, id)
  {
    forall v | after.db.mirror[id].version < v <= after.db.rows[id].version ensures Waiting(after, id, v) {
      assert Waiting(s, id, v);
    }
  }

  /** A whole request other than a write leaves the records that stay as they are. */
  lemma WholeKeepsRow(s: Sys, step: Step, id: Id)
    requires Inv(s) && id in s.db.rows && id in Next(s, Whole(step)).db.rows
    ensures Next(s, Whole(step)).db.rows[id] == s.db.rows[id]
  {
    hide Good, CaseReady, Caught, LedgerOk, Handle;
    if !step.request.Write? {
      GoodTypesAreRows(s.db);
      var e := EffectOf(s.db, step.caller, step.request);
    }
  }

  lemma NextKeepsOrderly(s: Sys, move: Move, id: Id)
    requires Inv(s) && MirrorInv(s) && Orderly(s, id) && IsCase(s.db, id) && IsCase(Next(s, move).db, id)
    requires Inv(Next(s, move)) && MirrorInv(Next(s, move)) && SmoothMove(s, move, id)
    ensures Orderly(Next(s, move), id)
  {
    hide Inv, MirrorInv, Orderly, SmoothMove, IsCase;
    match move {
      case Store(ticket) =>
        hide Next;
        StoreKeepsOrderly(s, ticket, id);
      case Mirror(ticket) =>
        hide Next;
        if ticket in s.stored && s.stored[ticket].id == id {
          SmoothUpsertKeepsOrderly(s, ticket, id);
        } else {
          OtherUpsertKeepsOrderly(s, ticket, id);
        }
      case Select(_, _, _, _, _, _, _) => SelectKeepsOrderly(s, move, id);
      case Whole(step) => WholeKeepsOrderly(s, step, id);
    }
  }

  lemma SelectKeepsOrderly(s: Sys, move: Move, id: Id)
    requires Orderly(s, id) && move.Select?
    ensures Orderly(Next(s, move), id)
  {
    hide Prepare, Waiting;
    assert Next(s, move).db == s.db && Next(s, move).stored == s.stored;
    QuietMoveKeepsOrderly(s, Next(s, move), id);
  }

  lemma WholeKeepsOrderly(s: Sys, step: Step, id: Id)
    requires Inv(s) && MirrorInv(s) && Orderly(s, id) && IsCase(s.db, id) && IsCase(Next(s, Whole(step)).db, id)
    requires Inv(Next(s, Whole(step))) && MirrorInv(Next(s, Whole(step)))
    ensures Orderly(Next(s, Whole(step)), id)
  {
    hide Inv, MirrorInv, Handle, Waiting;
    CaseFacts(s, id);
    CaseFacts(Next(s, Whole(step)), id);
    WholeKeepsRow(s, step, id);
    ShownAfterMove(s, Whole(step), id);
    QuietMoveKeepsOrderly(s, Next(s, Whole(step)), id);
  }

  lemma NewCaseIsOrderly(s: Sys, move: Move, id: Id)
    requires Inv(s) && MirrorInv(s) && id !in s.db.minted && IsCase(Next(s, move).db, id)
    requires s.selected.Keys !! s.stored.Keys
    requires Inv(Next(s, move)) && MirrorInv(Next(s, move))
    ensures Orderly(Next(s, move), id)
  {
    NoTicketsOfUnminted(s, move, id);
    NewCaseShowsFirst(s, move, id);
    NewCaseIsFirst(s, move, id);
    TicketsStayApart(s, move);
    hide Inv, MirrorInv, Next, SyncedBy;
    CaseFacts(Next(s, move), id);
  }

  lemma TicketsStayApart(s: Sys, move: Move)
    requires s.selected.Keys !! s.stored.Keys
    ensures Next(s, move).selected.Keys !! Next(s, move).stored.Keys
  {
    hide Prepare, Handle, SyncMirror, Update;
  }

  lemma NoTicketsOfUnminted(s: Sys, move: Move, id: Id)
    requires Inv(s) && MirrorInv(s) && id !in s.db.minted
    ensures forall t | t in Next(s, move).stored :: Next(s, move).stored[t].id != id
  {
    hide Good, CaseReady, LedgerOk, Prepare, Handle, SyncMirror, Update, InLedger, MirrorShowsPast, Fits, Applied, InputOk, MoveLegal;
  }

  /** A case created by a move is at the version its ledger starts with. */
  lemma NewCaseIsFirst(s: Sys, move: Move, id: Id)
    requires Inv(s) && id !in s.db.minted && IsCase(Next(s, move).db, id)
    ensures id in Next(s, move).ledgers && Next(s, move).db.rows[id].version == Next(s, move).ledgers[id].firstVersion
  {
    hide Good, CaseReady, Caught, LedgerOk, Handle, SyncMirror, Update, Prepare;
    GoodTypesAreRows(s.db);
    match move {
      case Store(ticket) =>
        if ticket in s.selected && Update(s.db, s.selected[ticket]).Ok? { UpdateShape(s.db, s.selected[ticket]); }
      case Mirror(ticket) =>
        if ticket in s.stored {
          var p := s.stored[ticket];
          if SyncMirror(s.db, p.id, p.data, p.expected + 1).Ok? { SyncShape(s.db, p.id, p.data, p.expected + 1); }
        }
      case _ =>
    }
  }

  lemma StartIsOrderly(db: Db, id: Id)
    requires InSync(db) && IsCase(db, id)
    ensures Orderly(Start(db), id)
  {
    assert Mirrored(db, id);
    MirrorColumnsOf(db.rows[id].data, db.rows[id].version);
  }

  lemma {:induction false} TicketsApart(db: Db, moves: seq<Move>)
    ensures Play(Start(db), moves).selected.Keys !! Play(Start(db), moves).stored.Keys
  {
    hide Next;
    if moves != [] {
      TicketsApart(db, moves[..|moves| - 1]);
      TicketsStayApart(Play(Start(db), moves[..|moves| - 1]), moves[|moves| - 1]);
    }
  }

  lemma {:induction false} SmoothPlayIsOrderly(db: Db, moves: seq<Move>, id: Id)
    requires Good(db) && CaseReady(db) && InSync(db) && AllTimely(Start(db), moves) && Smooth(Start(db), moves, id)
    requires IsCase(Play(Start(db), moves).db, id)
    ensures Orderly(Play(Start(db), moves), id)
  {
    hide Good, CaseReady, InSync, AllTimely, Smooth, SmoothMove, Next, Inv, MirrorInv, IsCase, Orderly;
    if moves == [] {
      StartIsOrderly(db, id);
    } else {
      var n := |moves| - 1;
      var before := Play(Start(db), moves[..n]);
      AllTimelyPrefix(Start(db), moves);
      SmoothPrefix(Start(db), moves, id);
      StartInv(db);
      PlayKeepsInv(Start(db), moves[..n]);
      PlayKeepsMirrorInv(db, moves[..n]);
      PlayKeepsInv(Start(db), moves);
      PlayKeepsMirrorInv(db, moves);
      if id in before.db.minted {
        CaseBefore(before, moves[n], id);
        SmoothPlayIsOrderly(db, moves[..n], id);
        NextKeepsOrderly(before, moves[n], id);
      } else {
        TicketsApart(db, moves[..n]);
        NewCaseIsOrderly(before, moves[n], id);
      }
    }
  }

  /** If every upsert of a case comes in the order of the UPDATEs, names what exists and finds the checks it
      needs passed, then the mirror agrees with the row whenever no upsert of the case is to come. */
  lemma UpsertsInOrderAgree(db: Db, moves: seq<Move>, id: Id)
    requires Good(db) && CaseReady(db) && InSync(db) && AllTimely(Start(db), moves) && Smooth(Start(db), moves, id)
    requires IsCase(Play(Start(db), moves).db, id)
    requires forall t | t in Play(Start(db), moves).stored :: Play(Start(db), moves).stored[t].id != id
    ensures Mirrored(Play(Start(db), moves).db, id)
  {
    hide Good, CaseReady, InSync, AllTimely, Smooth, Play, Inv, MirrorInv, Mirrored, MirrorShowsPast;
    var s := Play(Start(db), moves);
    StartInv(db);
    PlayKeepsInv(Start(db), moves);
    PlayKeepsMirrorInv(db, moves);
    SmoothPlayIsOrderly(db, moves, id);
    MirrorNotAhead(s, id);
    assert !Waiting(s, id, s.db.rows[id].version);
    ShowsPastHere(s, id);
    AgreesIffSameVersion(s, id);
  }
}
