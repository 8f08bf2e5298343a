/** PUT and PATCH as they really run: the SELECT, the UPDATE and the mirror upsert of arbitrarily many
    requests in flight, in any order (crates/api/src/objects.rs, item_put and item_patch). */
module Interleaving {
  import opened Prelude
  import opened Json
  import opened Registry
  import opened Objects
  import opened Workflow
  import opened Cases
  import opened Catalog
  import opened Server
  import opened Runs
  import opened CaseRuns
  import FieldPerms
  import Types
  import Rbac
  import M = Members

  /** An accepted write, as the client sent it. */
  datatype Entry = Entry(verb: Verb, payload: Record)

  /** What a row has held since it is watched: its records in order, and the write that led to each. */
  datatype Ledger = Ledger(firstVersion: int, versions: seq<Record>, entries: seq<Entry>)

  /** Writes past their SELECT are `selected`; case writes past their UPDATE are `stored` until the mirror
      upsert has run. The ledgers are history, no handler reads them. */
  datatype Sys = Sys(db: Db, selected: map<nat, Pending>, stored: map<nat, Pending>, ledgers: map<Id, Ledger>)

  datatype Move =
    | Select(ticket: nat, caller: Caller, verb: Verb, typeId: string, id: Id, ifMatch: IfMatch, payload: Record)
    | Store(ticket: nat)
    | Mirror(ticket: nat)
    | Whole(step: Step)

  function Watch(rows: map<Id, Row>, known: map<Id, Ledger>): map<Id, Ledger> {
    map id | id in rows :: if id in known then known[id] else Ledger(rows[id].version, [rows[id].data], [])
  }

  function Recorded(ledgers: map<Id, Ledger>, p: Pending): map<Id, Ledger> {
    if p.id !in ledgers then ledgers
    else var l := ledgers[p.id];
      ledgers[p.id := Ledger(l.firstVersion, l.versions + [p.data], l.entries + [Entry(p.verb, p.payload)])]
  }

  function AfterStore(s: Sys, ticket: nat, p: Pending, db: Db): Sys {
    Sys(db, s.selected - {ticket}, if p.typeId == CASE then s.stored[ticket := p] else s.stored, Recorded(s.ledgers, p))
  }

  ghost function Next(s: Sys, move: Move): Sys {
    match move
    case Select(ticket, caller, verb, typeId, id, ifMatch, payload) =>
      var prepared := Prepare(s.db, caller, verb, typeId, id, ifMatch, payload);
      if ticket in s.selected || ticket in s.stored || prepared.Err? then s
      else s.(selected := s.selected[ticket := prepared.value])
    case Store(ticket) =>
      if ticket !in s.selected then s
      else (match Update(s.db, s.selected[ticket])
        case Err(_) => s.(selected := s.selected - {ticket})
        case Ok(db) => AfterStore(s, ticket, s.selected[ticket], db))
    case Mirror(ticket) =>
      if ticket !in s.stored then s
      else
        var p := s.stored[ticket];
        (match SyncMirror(s.db, p.id, p.data, p.expected + 1)
        case Err(_) => s.(stored := s.stored - {ticket})
        case Ok(db) => s.(db := db, stored := s.stored - {ticket}))
    case Whole(step) =>
      if step.request.Write? then s
      else
        var after := Handle(s.db, step.caller, step.request).db;
        s.(db := after, ledgers := Watch(after.rows, s.ledgers))
  }

  ghost function Play(s: Sys, moves: seq<Move>): Sys {
    if moves == [] then s
    else Next(Play(s, moves[..|moves| - 1]), moves[|moves| - 1])
  }

  function Start(db: Db): Sys {
    Sys(db, map[], map[], Watch(db.rows, map[]))
  }

  /** With nothing between them, the three moves of one write are the whole request. */
  lemma AtOnceIsTheWrite(s: Sys, ticket: nat, caller: Caller, verb: Verb, typeId: string, id: Id, ifMatch: IfMatch, payload: Record)
    requires ticket !in s.selected && ticket !in s.stored
    ensures var last := Next(Next(Next(s, Select(ticket, caller, verb, typeId, id, ifMatch, payload)), Store(ticket)), Mirror(ticket));
      && last.db == Handle(s.db, caller, Write(verb, typeId, id, ifMatch, payload)).db
      && last.selected == s.selected && last.stored == s.stored
  {
    hide Prepare, Update, SyncMirror;
    var r := Prepare(s.db, caller, verb, typeId, id, ifMatch, payload);
    if r.Ok? {
      assert s.selected[ticket := r.value] - {ticket} == s.selected;
      assert s.stored[ticket := r.value] - {ticket} == s.stored;
    }
  }

  /** The client's tag names the row it has seen or an older one: it is not ahead of the version at the
      SELECT. */
  ghost predicate Timely(s: Sys, move: Move) {
    move.Select? ==>
      var prepared := Prepare(s.db, move.caller, move.verb, move.typeId, move.id, move.ifMatch, move.payload);
      prepared.Ok? ==> prepared.value.expected <= prepared.value.baseVersion
  }

  ghost predicate AllTimely(s: Sys, moves: seq<Move>) {
    forall i | 0 <= i < |moves| :: Timely(Play(s, moves[..i]), moves[i])
  }

  // ---- what a write in flight knows -------------------------------------------------------

  ghost predicate MoveLegal(workflows: Workflows, before: Record, after: Record) {
    Validate(workflows, WorkflowIdOf(after), StrAt(before, "status"), StatusOf(after)).Ok?
  }

  /** Holds from the SELECT to the UPDATE, whatever happens between. */
  ghost predicate Caught(db: Db, p: Pending) {
    && p.id in db.minted && p.typeId in db.registry && Fits(db, p)
    && InputOk(db.registry[p.typeId], p.payload, false)
    && p.data == Applied(db.registry[p.typeId], p.verb, p.base, p.payload)
    && (p.typeId == CASE ==> MoveLegal(db.workflows, p.base, p.data))
    && (RowExists(db, p.id, p.typeId) ==>
          && p.baseVersion <= db.rows[p.id].version
          && (p.baseVersion == db.rows[p.id].version ==> p.base == db.rows[p.id].data))
  }

  lemma AcceptedChangeIsLegal(workflows: Workflows, checks: Checks, id: Id, data: Record, base: Record)
    requires ValidateCaseChange(workflows, checks, id, data, StrAt(base, "status")).Ok?
    ensures MoveLegal(workflows, base, data)
  {
    hide Unmet, Validate, StrAt;
  }

  lemma AssembledMoveIsLegal(db: Db, caller: Caller, verb: Verb, typeId: string, id: Id, payload: Record)
    requires typeId in db.registry && id in db.rows
    requires Assemble(db, caller, verb, typeId, id, payload).Ok?
    ensures typeId == CASE ==> MoveLegal(db.workflows, db.rows[id].data, Assemble(db, caller, verb, typeId, id, payload).value)
  {
    hide InputOk, Applied, FinalOk, FieldPerms.WritesAllowed, FieldPerms.RankOn, ValidateCaseChange, StrAt, MoveLegal;
    if typeId == CASE {
      var data := Applied(db.registry[typeId], verb, db.rows[id].data, payload);
      AcceptedChangeIsLegal(db.workflows, db.checks, id, data, db.rows[id].data);
    }
  }

  lemma CaughtAtSelect(db: Db, caller: Caller, verb: Verb, typeId: string, id: Id, ifMatch: IfMatch, payload: Record)
    requires Good(db) && Prepare(db, caller, verb, typeId, id, ifMatch, payload).Ok?
    ensures Caught(db, Prepare(db, caller, verb, typeId, id, ifMatch, payload).value)
  {
    hide Good, Fits, Assemble, InputOk, Applied, ScopeParent, MoveLegal, Admit;
    PreparedFits(db, caller, verb, typeId, id, ifMatch, payload);
    PreparedFor(db, caller, verb, typeId, id, ifMatch, payload);
    GoodRowsMinted(db, id);
    AssembledShape(db, caller, verb, typeId, id, payload);
    AssembledMoveIsLegal(db, caller, verb, typeId, id, payload);
  }

  /** How one move changes the tables. */
  ghost predicate Moved(db: Db, after: Db, e: Effect) {
    && Good(after) && HasEffect(db, after, e) && after.workflows == db.workflows
    && (e.Wrote? ==>
          var id := e.id;
          && id in db.access.types && db.access.types[id] in db.registry && id in db.rows && id in after.rows
          && after.rows[id].version == db.rows[id].version + 1
          && (var td := db.registry[db.access.types[id]];
              ScopeParent(td, after.rows[id].data) == ScopeParent(td, db.rows[id].data)))
  }

  lemma CaughtStays(db: Db, after: Db, e: Effect, p: Pending)
    requires Moved(db, after, e) && Caught(db, p)
    ensures Caught(after, p)
  {
    hide Good, FinalOk, ScopeParent, Applied, InputOk, MoveLegal;
  }

  lemma UpdateMoves(db: Db, p: Pending)
    requires Good(db) && Caught(db, p) && Update(db, p).Ok?
    ensures Moved(db, Update(db, p).value, Wrote(p.id))
    ensures RowExists(db, p.id, p.typeId) && db.rows[p.id].version == p.expected
    ensures Update(db, p).value.rows == db.rows[p.id := Row(p.data, p.expected + 1)]
  {
    hide Good, FinalOk, ScopeParent, Applied, InputOk, MoveLegal;
    UpdateKeepsGood(db, p);
  }

  lemma SyncMoves(db: Db, id: Id, data: Record, version: int)
    requires Good(db) && SyncMirror(db, id, data, version).Ok?
    ensures Moved(db, SyncMirror(db, id, data, version).value, Kept)
  {
    hide Good, SyncMirror, MirrorOf;
    SyncShape(db, id, data, version);
    MirrorOnlyKeepsGood(db, SyncMirror(db, id, data, version).value.mirror);
  }

  lemma InsertKeepsWorkflows(db: Db, creator: Id, typeId: string, row: NewRow, id: Id)
    ensures InsertAll(db, creator, typeId, row, id).db.workflows == db.workflows
  {
    hide SyncMirror;
    var inserted := InsertRow(db, id, typeId, row.data, row.parent, creator);
    if SyncMirror(inserted, id, row.data, 1).Ok? { SyncShape(inserted, id, row.data, 1); }
  }

  lemma HandleKeepsWorkflows(db: Db, caller: Caller, req: Request)
    requires !req.Write?
    ensures Handle(db, caller, req).db.workflows == db.workflows
  {
    hide PrepareCreate, InsertAll, Types.SpecVerdict, Rbac.EffectiveRank, M.RequireRank, M.AddMember, M.SetMember, M.RemoveMember;
    if req.CreateObject? && PrepareCreate(db, caller, req.typeId, req.payload).Ok? {
      InsertKeepsWorkflows(db, caller.actor, req.typeId, PrepareCreate(db, caller, req.typeId, req.payload).value, req.id);
    }
  }

  lemma WholeMoves(db: Db, step: Step) returns (e: Effect)
    requires Good(db) && !step.request.Write?
    ensures Moved(db, Handle(db, step.caller, step.request).db, e) && !e.Wrote?
  {
    hide Good, Handle;
    HandleKeepsGood(db, step.caller, step.request);
    HandleKeepsWorkflows(db, step.caller, step.request);
    e := EffectOf(db, step.caller, step.request);
  }

  // ---- the ledgers -------------------------------------------------------------------------

  /** Every record is the one before it with exactly its own write applied, the last is the row's, and the
      version counts the writes. */
  ghost predicate Chained(td: TypeDef, row: Row, l: Ledger) {
    && |l.versions| == |l.entries| + 1
    && row == Row(l.versions[|l.entries|], l.firstVersion + |l.entries|)
    && (forall i | 0 <= i < |l.entries| ::
          l.versions[i + 1] == Applied(td, l.entries[i].verb, l.versions[i], l.entries[i].payload))
  }

  /** A case's records: each holds a status, all the same workflow, each status a legal move away. */
  ghost predicate CaseChained(workflows: Workflows, l: Ledger) {
    && l.versions != []
    && (forall i | 0 <= i < |l.versions| :: StrAt(l.versions[i], "status").Some?)
    && (forall i | 0 <= i < |l.versions| :: WorkflowIdOf(l.versions[i]) == WorkflowIdOf(l.versions[0]))
    && (forall i | 0 <= i < |l.versions| - 1 :: MoveLegal(workflows, l.versions[i], l.versions[i + 1]))
  }

  ghost predicate LedgerOk(db: Db, id: Id, l: Ledger) {
    && id in db.rows && id in db.access.types && db.access.types[id] in db.registry
    && Chained(db.registry[db.access.types[id]], db.rows[id], l)
    && (db.access.types[id] == CASE ==> CaseChained(db.workflows, l))
  }

  ghost predicate Inv(s: Sys) {
    && Good(s.db) && CaseReady(s.db)
    && (forall t | t in s.selected :: Caught(s.db, s.selected[t]) && s.selected[t].expected <= s.selected[t].baseVersion)
    && s.ledgers.Keys == s.db.rows.Keys
    && (forall id | id in s.ledgers :: LedgerOk(s.db, id, s.ledgers[id]))
  }

  /** A write whose tag is not ahead replaces exactly the record it was computed from; and only then, as
      an accepted write with a tag ahead of its SELECT never does. */
  lemma AcceptedReplacesItsBaseIff(db: Db, p: Pending)
    requires Caught(db, p) && Update(db, p).Ok?
    ensures p.expected <= p.baseVersion <==> p.baseVersion == db.rows[p.id].version
    ensures p.expected <= p.baseVersion ==> p.base == db.rows[p.id].data
  {
    hide Fits, Applied, InputOk, MoveLegal;
  }

  lemma ChainGrows(td: TypeDef, row: Row, l: Ledger, p: Pending)
    requires Chained(td, row, l) && p.base == row.data && p.expected == row.version
    requires p.data == Applied(td, p.verb, p.base, p.payload)
    ensures Chained(td, Row(p.data, p.expected + 1),
                    Ledger(l.firstVersion, l.versions + [p.data], l.entries + [Entry(p.verb, p.payload)]))
  {
    hide Applied;
  }

  /** `workflow_id` is read-only after creation. */
  lemma UpdatesKeepTheWorkflow(existing: Record, verb: Verb, payload: Record)
    requires InputOk(CaseType(), payload, false)
    ensures WorkflowIdOf(Applied(CaseType(), verb, existing, payload)) == WorkflowIdOf(existing)
  {
    hide CaseType, InputOk, PutData, PatchData;
    WorkflowIdIsReadOnly();
    UpdatesKeepOtherKeys(CaseType(), existing, payload, "workflow_id");
    assert Lookup(Applied(CaseType(), verb, existing, payload), "workflow_id") == Lookup(existing, "workflow_id");
  }

  lemma WorkflowIdIsReadOnly()
    ensures !IsWritable(CaseType(), "workflow_id")
  {
    FindAt(CaseType().fields, 7);
  }

  lemma CaseChainGrows(workflows: Workflows, l: Ledger, p: Pending)
    requires CaseChained(workflows, l) && p.base == l.versions[|l.versions| - 1]
    requires FinalOk(CaseType(), p.data) && InputOk(CaseType(), p.payload, false)
    requires p.data == Applied(CaseType(), p.verb, p.base, p.payload) && MoveLegal(workflows, p.base, p.data)
    ensures CaseChained(workflows, Ledger(l.firstVersion, l.versions + [p.data], l.entries + [Entry(p.verb, p.payload)]))
  {
    hide FinalOk, CaseType, InputOk, Applied, MoveLegal, StrAt, WorkflowIdOf;
    CaseStrings(p.data);
    UpdatesKeepTheWorkflow(p.base, p.verb, p.payload);
  }

  // ---- every move keeps the invariant --------------------------------------------------

  lemma StoredLedger(s: Sys, p: Pending)
    requires Inv(s) && Caught(s.db, p) && p.expected <= p.baseVersion && Update(s.db, p).Ok?
    ensures p.id in s.ledgers
    ensures LedgerOk(Update(s.db, p).value, p.id, Recorded(s.ledgers, p)[p.id])
  {
    hide Good, Update, MoveLegal, FinalOk, Applied, InputOk, ScopeParent, CaseType, CaseChained, Chained;
    UpdateMoves(s.db, p);
    AcceptedReplacesItsBaseIff(s.db, p);
    assert LedgerOk(s.db, p.id, s.ledgers[p.id]);
    ChainGrows(s.db.registry[p.typeId], s.db.rows[p.id], s.ledgers[p.id], p);
    if p.typeId == CASE {
      ChainedEnd(s.db.registry[p.typeId], s.db.rows[p.id], s.ledgers[p.id]);
      CaseChainGrows(s.db.workflows, s.ledgers[p.id], p);
    }
  }

  lemma ChainedEnd(td: TypeDef, row: Row, l: Ledger)
    requires Chained(td, row, l)
    ensures l.versions != [] && row.data == l.versions[|l.versions| - 1]
  {}

  /** A ledger stands while nobody writes its row. */
  lemma LedgerStands(db: Db, after: Db, e: Effect, id: Id, l: Ledger)
    requires Moved(db, after, e) && LedgerOk(db, id, l) && id in db.minted
    requires id in after.rows && (e.Wrote? ==> e.id != id)
    ensures LedgerOk(after, id, l)
  {
    hide Good, Chained, CaseChained, ScopeParent;
  }

  lemma MovedKeepsCaseReady(db: Db, after: Db, e: Effect)
    requires Moved(db, after, e) && CaseReady(db)
    ensures CaseReady(after)
  {
    hide Good, CaseType, ScopeParent;
  }

  lemma SelectKeepsInv(s: Sys, move: Move)
    requires Inv(s) && Timely(s, move) && move.Select?
    ensures Inv(Next(s, move))
  {
    hide Good, CaseReady, Caught, LedgerOk, Prepare;
    if Prepare(s.db, move.caller, move.verb, move.typeId, move.id, move.ifMatch, move.payload).Ok? {
      CaughtAtSelect(s.db, move.caller, move.verb, move.typeId, move.id, move.ifMatch, move.payload);
    }
  }

  lemma StoreKeepsInv(s: Sys, ticket: nat)
    requires Inv(s)
    ensures Inv(Next(s, Store(ticket)))
  {
    hide Good, CaseReady, Caught, LedgerOk, Update, RowExists, Moved;
    if ticket in s.selected && Update(s.db, s.selected[ticket]).Ok? {
      var p := s.selected[ticket];
      var after := Update(s.db, p).value;
      UpdateMoves(s.db, p);
      MovedIsGood(s.db, after, Wrote(p.id));
      MovedKeepsCaseReady(s.db, after, Wrote(p.id));
      StoredLedger(s, p);
      forall t | t in s.selected ensures Caught(after, s.selected[t]) {
        CaughtStays(s.db, after, Wrote(p.id), s.selected[t]);
      }
      forall id | id in s.ledgers && id != p.id ensures LedgerOk(after, id, s.ledgers[id]) {
        GoodRowsMinted(s.db, id);
        LedgerStands(s.db, after, Wrote(p.id), id, s.ledgers[id]);
      }
    }
  }

  lemma MovedIsGood(db: Db, after: Db, e: Effect)
    requires Moved(db, after, e)
    ensures Good(after)
  {
    hide Good;
  }

  lemma MirrorKeepsInv(s: Sys, ticket: nat)
    requires Inv(s)
    ensures Inv(Next(s, Mirror(ticket)))
  {
    hide Good, CaseReady, Caught, LedgerOk, SyncMirror, Moved;
    if ticket in s.stored {
      var p := s.stored[ticket];
      if SyncMirror(s.db, p.id, p.data, p.expected + 1).Ok? {
        var after := SyncMirror(s.db, p.id, p.data, p.expected + 1).value;
        SyncMoves(s.db, p.id, p.data, p.expected + 1);
        SyncShape(s.db, p.id, p.data, p.expected + 1);
        QuietMoveKeepsInv(s, after, Kept);
      }
    }
  }

  /** A move that writes no row keeps what is known of the writes in flight and of the ledgers. */
  lemma QuietMoveKeepsInv(s: Sys, after: Db, e: Effect)
    requires Inv(s) && Moved(s.db, after, e) && !e.Wrote?
    ensures Good(after) && CaseReady(after)
    ensures forall t | t in s.selected :: Caught(after, s.selected[t])
    ensures forall id | id in s.ledgers && id in after.rows :: LedgerOk(after, id, s.ledgers[id])
  {
    hide Good, CaseReady, Caught, LedgerOk, Moved;
    MovedIsGood(s.db, after, e);
    MovedKeepsCaseReady(s.db, after, e);
    forall t | t in s.selected ensures Caught(after, s.selected[t]) {
      CaughtStays(s.db, after, e, s.selected[t]);
    }
    forall id | id in s.ledgers && id in after.rows ensures LedgerOk(after, id, s.ledgers[id]) {
      GoodRowsMinted(s.db, id);
      LedgerStands(s.db, after, e, id, s.ledgers[id]);
    }
  }

  /** A ledger just opened. */
  lemma NewLedgerOk(db: Db, id: Id)
    requires Good(db) && CaseReady(db) && id in db.rows
    ensures LedgerOk(db, id, Ledger(db.rows[id].version, [db.rows[id].data], []))
  {
    hide FinalOk, CaseType, WellFormed, Placed;
    assert RowGood(db, id);
    if db.access.types[id] == CASE {
      GoodCase(db, id);
      CaseStrings(db.rows[id].data);
    }
  }

  lemma WholeKeepsInv(s: Sys, step: Step)
    requires Inv(s)
    ensures Inv(Next(s, Whole(step)))
  {
    hide Good, CaseReady, Caught, LedgerOk, Handle, Moved;
    if !step.request.Write? {
      var after := Handle(s.db, step.caller, step.request).db;
      var e := WholeMoves(s.db, step);
      QuietMoveKeepsInv(s, after, e);
      forall id | id in after.rows ensures LedgerOk(after, id, Watch(after.rows, s.ledgers)[id]) {
        if id !in s.ledgers { NewLedgerOk(after, id); }
      }
    }
  }

  lemma NextKeepsInv(s: Sys, move: Move)
    requires Inv(s) && Timely(s, move)
    ensures Inv(Next(s, move))
  {
    hide Inv, Next, Timely;
    match move {
      case Select(_, _, _, _, _, _, _) => SelectKeepsInv(s, move);
      case Store(ticket) => StoreKeepsInv(s, ticket);
      case Mirror(ticket) => MirrorKeepsInv(s, ticket);
      case Whole(step) => WholeKeepsInv(s, step);
    }
  }

  lemma AllTimelyPrefix(s: Sys, moves: seq<Move>)
    requires AllTimely(s, moves) && moves != []
    ensures AllTimely(s, moves[..|moves| - 1])
    ensures Timely(Play(s, moves[..|moves| - 1]), moves[|moves| - 1])
  {
    hide Timely, Play;
    var n := |moves| - 1;
    forall i | 0 <= i < n ensures Timely(Play(s, moves[..n][..i]), moves[..n][i]) {
      assert moves[..n][..i] == moves[..i];
      assert Timely(Play(s, moves[..i]), moves[i]);
    }
  }

  lemma {:induction false} PlayKeepsInv(s: Sys, moves: seq<Move>)
    requires Inv(s) && AllTimely(s, moves)
    ensures Inv(Play(s, moves))
  {
    hide Inv, Next, Timely, AllTimely;
    if moves != [] {
      var n := |moves| - 1;
      AllTimelyPrefix(s, moves);
      PlayKeepsInv(s, moves[..n]);
      NextKeepsInv(Play(s, moves[..n]), moves[n]);
    }
  }

  lemma StartInv(db: Db)
    requires Good(db) && CaseReady(db)
    ensures Inv(Start(db))
  {
    hide Good, CaseReady, LedgerOk;
    forall id | id in db.rows ensures LedgerOk(db, id, Start(db).ledgers[id]) {
      NewLedgerOk(db, id);
    }
  }

  // ---- rows are the fold of their writes -------------------------------------------------

  /** The record a sequence of writes makes of `start`, one after the other. */
  function Fold(td: TypeDef, start: Record, entries: seq<Entry>): Record {
    if entries == [] then start
    else
      var last := entries[|entries| - 1];
      Applied(td, last.verb, Fold(td, start, entries[..|entries| - 1]), last.payload)
  }

  lemma {:induction false} ChainIsFold(td: TypeDef, l: Ledger, n: nat)
    requires |l.versions| == |l.entries| + 1 && n <= |l.entries|
    requires forall i | 0 <= i < |l.entries| ::
      l.versions[i + 1] == Applied(td, l.entries[i].verb, l.versions[i], l.entries[i].payload)
    ensures l.versions[n] == Fold(td, l.versions[0], l.entries[..n])
  {
    hide Applied;
    if n > 0 {
      ChainIsFold(td, l, n - 1);
      assert l.entries[..n][..n - 1] == l.entries[..n - 1];
      assert l.versions[n - 1 + 1] == Applied(td, l.entries[n - 1].verb, l.versions[n - 1], l.entries[n - 1].payload);
    }
  }

  /** No update is lost: in every interleaving whose tags are not ahead of their SELECT, a row is the fold
      of its accepted writes, each applied once and in version order, over the record it started with. */
  lemma RowsAreTheFoldOfTheirWrites(db: Db, moves: seq<Move>, id: Id)
    requires Good(db) && CaseReady(db) && AllTimely(Start(db), moves)
    requires id in Play(Start(db), moves).db.rows
    ensures var s := Play(Start(db), moves);
      && id in s.ledgers && id in s.db.access.types && s.db.access.types[id] in s.db.registry
      && var l, td := s.ledgers[id], s.db.registry[s.db.access.types[id]];
      && |l.versions| > 0
      && s.db.rows[id] == Row(Fold(td, l.versions[0], l.entries), l.firstVersion + |l.entries|)
  {
    hide Good, CaseReady, AllTimely, Play, Start, Caught, CaseChained, Fold;
    StartInv(db);
    PlayKeepsInv(Start(db), moves);
    var s := Play(Start(db), moves);
    assert LedgerOk(s.db, id, s.ledgers[id]);
    var l := s.ledgers[id];
    ChainIsFold(s.db.registry[s.db.access.types[id]], l, |l.entries|);
    assert l.entries[..|l.entries|] == l.entries;
  }

  // ---- rows created on the way ---------------------------------------------------------------

  ghost predicate Initial(workflows: Workflows, data: Record) {
    Validate(workflows, WorkflowIdOf(data), None, StatusOf(data)).Ok?
  }

  lemma PreparedIsInitial(db: Db, caller: Caller, payload: Record)
    requires PrepareCreate(db, caller, CASE, payload).Ok?
    ensures Initial(db.workflows, PrepareCreate(db, caller, CASE, payload).value.data)
  {
    hide CreateData, FinalOk, InputOk, Rbac.EffectiveRank, ScopeParent, StatusOf, WorkflowIdOf, Validate;
  }

  lemma InsertedRow(db: Db, creator: Id, typeId: string, row: NewRow, id: Id)
    requires InsertAll(db, creator, typeId, row, id).db != db
    ensures var after := InsertAll(db, creator, typeId, row, id).db;
      after.rows == db.rows[id := Row(row.data, 1)] && after.access.types == db.access.types[id := typeId]
  {
    hide SyncMirror, MirrorOf;
    var inserted := InsertRow(db, id, typeId, row.data, row.parent, creator);
    if SyncMirror(inserted, id, row.data, 1).Ok? { SyncShape(inserted, id, row.data, 1); }
  }

  /** A row that was not there before is new at version 1, and a new case is in its initial status. */
  lemma NewRowsAreInitial(db: Db, step: Step, id: Id)
    requires Good(db) && !step.request.Write? && id !in db.rows
    requires id in Handle(db, step.caller, step.request).db.rows
    ensures var after := Handle(db, step.caller, step.request).db;
      && after.rows[id].version == 1 && id in after.access.types
      && (after.access.types[id] == CASE ==> Initial(after.workflows, after.rows[id].data))
  {
    hide Good, InsertAll, PrepareCreate, Initial;
    HandleKeepsWorkflows(db, step.caller, step.request);
    var req := step.request;
    if req.CreateObject? && PrepareCreate(db, step.caller, req.typeId, req.payload).Ok? {
      var row := PrepareCreate(db, step.caller, req.typeId, req.payload).value;
      InsertedRow(db, step.caller.actor, req.typeId, row, req.id);
      if req.typeId == CASE { PreparedIsInitial(db, step.caller, req.payload); }
    } else {
      hide Handle;
      var e := EffectOf(db, step.caller, req);
      NothingNew(db, step, id, e);
    }
  }

  lemma NothingNew(db: Db, step: Step, id: Id, e: Effect)
    requires id !in db.rows && HasEffect(db, Handle(db, step.caller, step.request).db, e) && !e.Inserted?
    ensures id !in Handle(db, step.caller, step.request).db.rows
  {
    hide Handle;
  }

  /** Ledgers of rows outside `old` begin at version 1, cases among them in their initial status. */
  ghost predicate BeginsFresh(db: Db, id: Id, l: Ledger) {
    && l.firstVersion == 1 && |l.versions| > 0
    && (id in db.access.types && db.access.types[id] == CASE ==> Initial(db.workflows, l.versions[0]))
  }

  ghost predicate NewOnesBeginFresh(s: Sys, old_: set<Id>) {
    && old_ <= s.db.minted
    && forall id | id in s.ledgers && id !in old_ :: BeginsFresh(s.db, id, s.ledgers[id])
  }

  lemma BeginsFreshStays(db: Db, after: Db, e: Effect, id: Id, l: Ledger)
    requires Moved(db, after, e) && BeginsFresh(db, id, l) && id in db.minted && id in db.access.types
    ensures BeginsFresh(after, id, l)
  {
    hide Good, ScopeParent, Initial;
  }

  lemma RecordedBeginsFresh(db: Db, id: Id, ledgers: map<Id, Ledger>, p: Pending)
    requires id in ledgers && BeginsFresh(db, id, ledgers[id])
    ensures BeginsFresh(db, id, Recorded(ledgers, p)[id])
  {
    hide Initial;
  }

  lemma QuietMoveKeepsFresh(s: Sys, after: Db, e: Effect, old_: set<Id>)
    requires Inv(s) && NewOnesBeginFresh(s, old_) && Moved(s.db, after, e)
    ensures old_ <= after.minted
    ensures forall id | id in s.ledgers && id !in old_ :: BeginsFresh(after, id, s.ledgers[id])
  {
    hide Good, LedgerOk, Caught, CaseReady, BeginsFresh;
    MintedGrows(s.db, after, e);
    forall id | id in s.ledgers && id !in old_ ensures BeginsFresh(after, id, s.ledgers[id]) {
      hide Moved;
      GoodRowsMinted(s.db, id);
      GoodKeys(s.db);
      BeginsFreshStays(s.db, after, e, id, s.ledgers[id]);
    }
  }

  lemma MintedGrows(db: Db, after: Db, e: Effect)
    requires Moved(db, after, e)
    ensures db.minted <= after.minted
  {
    hide Good, ScopeParent;
  }

  lemma NextKeepsFresh(s: Sys, move: Move, old_: set<Id>)
    requires Inv(s) && NewOnesBeginFresh(s, old_)
    ensures NewOnesBeginFresh(Next(s, move), old_)
  {
    hide Good, CaseReady, Caught, LedgerOk, Handle, Moved, BeginsFresh, Update, SyncMirror, Prepare, Recorded;
    match move {
      case Select(_, _, _, _, _, _, _) =>
      case Store(ticket) => StoreKeepsFresh(s, ticket, old_);
      case Mirror(ticket) =>
        if ticket in s.stored {
          var p := s.stored[ticket];
          if SyncMirror(s.db, p.id, p.data, p.expected + 1).Ok? {
            SyncMoves(s.db, p.id, p.data, p.expected + 1);
            QuietMoveKeepsFresh(s, SyncMirror(s.db, p.id, p.data, p.expected + 1).value, Kept, old_);
          }
        }
      case Whole(step) => WholeKeepsFresh(s, step, old_);
    }
  }

  lemma StoreKeepsFresh(s: Sys, ticket: nat, old_: set<Id>)
    requires Inv(s) && NewOnesBeginFresh(s, old_)
    ensures NewOnesBeginFresh(Next(s, Store(ticket)), old_)
  {
    hide Good, CaseReady, Caught, LedgerOk, Moved, BeginsFresh, Update;
    if ticket in s.selected && Update(s.db, s.selected[ticket]).Ok? {
      var p := s.selected[ticket];
      var after := Update(s.db, p).value;
      UpdateMoves(s.db, p);
      QuietMoveKeepsFresh(s, after, Wrote(p.id), old_);
      forall id | id in s.ledgers && id !in old_ ensures BeginsFresh(after, id, Recorded(s.ledgers, p)[id]) {
        RecordedBeginsFresh(after, id, s.ledgers, p);
      }
    }
  }

  lemma WholeKeepsFresh(s: Sys, step: Step, old_: set<Id>)
    requires Inv(s) && NewOnesBeginFresh(s, old_)
    ensures NewOnesBeginFresh(Next(s, Whole(step)), old_)
  {
    hide Good, CaseReady, Caught, LedgerOk, Moved, BeginsFresh, Handle;
    if !step.request.Write? {
      var after := Handle(s.db, step.caller, step.request).db;
      var e := WholeMoves(s.db, step);
      QuietMoveKeepsFresh(s, after, e, old_);
      forall id | id in after.rows && id !in old_ ensures BeginsFresh(after, id, Watch(after.rows, s.ledgers)[id]) {
        if id !in s.ledgers {
          NewRowsAreInitial(s.db, step, id);
          FreshLedger(after, id);
        }
      }
    }
  }

  lemma FreshLedger(db: Db, id: Id)
    requires id in db.rows && db.rows[id].version == 1 && id in db.access.types
    requires db.access.types[id] == CASE ==> Initial(db.workflows, db.rows[id].data)
    ensures BeginsFresh(db, id, Ledger(db.rows[id].version, [db.rows[id].data], []))
  {
    hide Initial;
  }

  lemma {:induction false} PlayKeepsFresh(s: Sys, moves: seq<Move>, old_: set<Id>)
    requires Inv(s) && NewOnesBeginFresh(s, old_) && AllTimely(s, moves)
    ensures NewOnesBeginFresh(Play(s, moves), old_)
  {
    hide Inv, Next, AllTimely, Timely, NewOnesBeginFresh;
    if moves != [] {
      var n := |moves| - 1;
      AllTimelyPrefix(s, moves);
      PlayKeepsFresh(s, moves[..n], old_);
      PlayKeepsInv(s, moves[..n]);
      NextKeepsFresh(Play(s, moves[..n]), moves[n], old_);
    }
  }

  /** What is known of a row at the end of an interleaving. */
  lemma AtTheEnd(db: Db, moves: seq<Move>, id: Id)
    requires Good(db) && CaseReady(db) && AllTimely(Start(db), moves)
    requires id in Play(Start(db), moves).db.rows
    ensures var s := Play(Start(db), moves);
      id in s.ledgers && LedgerOk(s.db, id, s.ledgers[id]) && (id !in db.rows ==> BeginsFresh(s.db, id, s.ledgers[id]))
  {
    hide Good, CaseReady, AllTimely, Play, LedgerOk, Caught, BeginsFresh;
    StartInv(db);
    PlayKeepsInv(Start(db), moves);
    forall x | x in db.rows ensures x in db.minted { GoodRowsMinted(db, x); }
    assert NewOnesBeginFresh(Start(db), db.rows.Keys);
    PlayKeepsFresh(Start(db), moves, db.rows.Keys);
  }

  function Statuses(l: Ledger): seq<string> {
    seq(|l.versions|, i requires 0 <= i < |l.versions| => StatusOf(l.versions[i]))
  }

  lemma ChainIsLegal(workflows: Workflows, l: Ledger)
    requires CaseChained(workflows, l) && WorkflowIdOf(l.versions[0]) in workflows
    ensures Legal(workflows[WorkflowIdOf(l.versions[0])], Statuses(l))
  {
    hide StrAt, WorkflowIdOf;
    forall i | 0 <= i < |l.versions| - 1
      ensures Statuses(l)[i] == Statuses(l)[i + 1]
        || workflows[WorkflowIdOf(l.versions[0])].Permits(Statuses(l)[i], Statuses(l)[i + 1])
    {
      assert MoveLegal(workflows, l.versions[i], l.versions[i + 1]);
    }
  }

  /** In every such interleaving a case created on the way keeps one workflow, starts at that workflow's
      initial state, and moves only along its listed transitions. */
  lemma CaseHistoriesAreLegal(db: Db, moves: seq<Move>, id: Id)
    requires Good(db) && CaseReady(db) && AllTimely(Start(db), moves)
    requires IsCase(Play(Start(db), moves).db, id) && id !in db.rows
    ensures var s := Play(Start(db), moves);
      && id in s.ledgers && s.ledgers[id].versions != []
      && var l := s.ledgers[id];
      && var w := WorkflowIdOf(l.versions[0]);
      && l.firstVersion == 1 && s.db.rows[id].data == l.versions[|l.versions| - 1]
      && (forall v | v in l.versions :: WorkflowIdOf(v) == w)
      && w in s.db.workflows
      && Statuses(l)[0] == s.db.workflows[w].initial
      && Legal(s.db.workflows[w], Statuses(l))
  {
    hide Good, CaseReady, AllTimely, Play, Start, StatusOf, WorkflowIdOf, MoveLegal, Legal, Applied;
    AtTheEnd(db, moves, id);
    var s := Play(Start(db), moves);
    CaseLedgerIsLegal(s.db, id, s.ledgers[id]);
  }

  lemma CaseLedgerIsLegal(db: Db, id: Id, l: Ledger)
    requires IsCase(db, id) && LedgerOk(db, id, l) && BeginsFresh(db, id, l)
    ensures l.versions != [] && db.rows[id].data == l.versions[|l.versions| - 1]
    ensures var w := WorkflowIdOf(l.versions[0]);
      && (forall v | v in l.versions :: WorkflowIdOf(v) == w)
      && w in db.workflows && Statuses(l)[0] == db.workflows[w].initial && Legal(db.workflows[w], Statuses(l))
  {
    hide StatusOf, WorkflowIdOf, MoveLegal, Legal, Applied;
    ChainIsLegal(db.workflows, l);
  }

  lemma MovesKeepWorkflows(s: Sys, move: Move)
    ensures Next(s, move).db.workflows == s.db.workflows
  {
    hide Prepare, Handle, SyncMirror;
    match move {
      case Whole(step) => if !step.request.Write? { HandleKeepsWorkflows(s.db, step.caller, step.request); }
      case Mirror(ticket) =>
        if ticket in s.stored {
          var p := s.stored[ticket];
          if SyncMirror(s.db, p.id, p.data, p.expected + 1).Ok? { SyncShape(s.db, p.id, p.data, p.expected + 1); }
        }
      case _ =>
    }
  }

  lemma {:induction false} PlayKeepsWorkflows(s: Sys, moves: seq<Move>)
    ensures Play(s, moves).db.workflows == s.db.workflows
  {
    hide Next;
    if moves != [] {
      PlayKeepsWorkflows(s, moves[..|moves| - 1]);
      MovesKeepWorkflows(Play(s, moves[..|moves| - 1]), moves[|moves| - 1]);
    }
  }

  /** With the seeded default workflow, a case created on the way that is done has been in todo,
      in_progress and in_review, first visited in that order, whatever writes raced for it. */
  lemma DoneCasesVisitedEveryColumn(db: Db, moves: seq<Move>, id: Id)
    requires Good(db) && CaseReady(db) && AllTimely(Start(db), moves)
    requires "default" in db.workflows && db.workflows["default"] == DEFAULT_WORKFLOW
    requires IsCase(Play(Start(db), moves).db, id) && id !in db.rows
    requires var data := Play(Start(db), moves).db.rows[id].data;
      WorkflowIdOf(data) == "default" && StatusOf(data) == "done"
    ensures var s := Play(Start(db), moves);
      id in s.ledgers && forall column | 0 <= column < 4 :: EntersInTurn(Statuses(s.ledgers[id]), column)
  {
    hide Good, CaseReady, AllTimely, Play, Start, StatusOf, WorkflowIdOf, Legal, EntersInTurn;
    CaseHistoriesAreLegal(db, moves, id);
    PlayKeepsWorkflows(Start(db), moves);
    var s := Play(Start(db), moves);
    StartHasTables(db);
    var l := s.ledgers[id];
    assert Statuses(l)[|l.versions| - 1] == "done";
    DoneVisitsEveryColumn(Statuses(l));
  }

  lemma StartHasTables(db: Db)
    ensures Start(db).db == db
  {}

  // ---- what the hypothesis is for --------------------------------------------------------------

  /** The hypothesis is needed. From any row that two writes have read, one with a tag one ahead of what
      it read, both can be accepted; the row then holds a record computed as if the first had never been. */
  lemma TagAheadLosesAnUpdate(db: Db, first: Pending, second: Pending)
    requires Good(db) && Caught(db, first) && Caught(db, second)
    requires first.id == second.id && first.typeId == second.typeId && RowExists(db, first.id, first.typeId)
    requires var v := db.rows[first.id].version;
      && first.expected == first.baseVersion == second.baseVersion == v && second.expected == v + 1 && v + 1 < MAX_I32
    requires first.parent.Some? ==> first.parent.value in db.access.types
    requires second.parent.Some? ==> second.parent.value in db.access.types
    ensures Update(db, first).Ok? && Update(Update(db, first).value, second).Ok?
    ensures Update(Update(db, first).value, second).value.rows[first.id] ==
      Row(Applied(db.registry[first.typeId], second.verb, db.rows[first.id].data, second.payload), second.expected + 1)
  {
    hide Good, FinalOk, Applied, ScopeParent, InputOk, MoveLegal;
  }
}
