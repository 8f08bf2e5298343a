/** Plays of the seeded database, move by move: what the separate SELECT, UPDATE and mirror upsert let
    happen. */
module Race {
  import opened Prelude
  import opened Json
  import opened Objects
  import opened Validity
  import opened Workflow
  import opened Cases
  import opened Catalog
  import opened Server
  import opened Runs
  import opened CaseRuns
  import opened Interleaving
  import opened InterleavedCases
  import opened OneFieldPatch
  import opened Seed
  import opened Incidents
  import M = Members

  const ADMIN := Caller(DEV, true)

  // ---- one move at a time -------------------------------------------------------------------------

  lemma {:induction false} PlayOneMore(s: Sys, moves: seq<Move>, m: Move)
    ensures Play(s, moves + [m]) == Next(Play(s, moves), m)
    ensures AllTimely(s, moves) && Timely(Play(s, moves), m) ==> AllTimely(s, moves + [m])
  {
    assert (moves + [m])[..|moves|] == moves;
    hide Next, Timely;
    if AllTimely(s, moves) && Timely(Play(s, moves), m) {
      forall i | 0 <= i < |moves + [m]| ensures Timely(Play(s, (moves + [m])[..i]), (moves + [m])[i]) {
        if i < |moves| {
          assert (moves + [m])[..i] == moves[..i];
          assert Timely(Play(s, moves[..i]), moves[i]);
        }
      }
    }
  }

  lemma NothingPlayed(s: Sys)
    ensures Play(s, []) == s && AllTimely(s, [])
  {}

  function Reading(ticket: nat, typeId: string, id: Id, k: string, v: Value, tag: int): Move {
    Select(ticket, ADMIN, Patch, typeId, id, Tag(tag), map[k := v])
  }

  lemma ReadingAdds(s: Sys, ticket: nat, typeId: string, id: Id, i: nat, k: string, v: Value, tag: int)
    requires Good(s.db) && Settable(s.db, typeId, id, i, v) && s.db.registry[typeId].fields[i].field == k
    requires ticket !in s.selected && ticket !in s.stored
    ensures var p := Setting(s.db, typeId, id, i, v, tag);
      && Next(s, Reading(ticket, typeId, id, k, v, tag)) == s.(selected := s.selected[ticket := p])
      && (tag <= s.db.rows[id].version ==> Timely(s, Reading(ticket, typeId, id, k, v, tag)))
      && Caught(s.db, p)
  {
    hide Good, Prepare, Settable, Caught, ScopeParent;
    SettingIsPrepared(s.db, ADMIN, typeId, id, i, v, tag);
    CaughtAtSelect(s.db, ADMIN, Patch, typeId, id, Tag(tag), map[k := v]);
  }

  /** An UPDATE that goes through, in full. */
  lemma StoringMoves(s: Sys, ticket: nat)
    requires Good(s.db) && ticket in s.selected && Caught(s.db, s.selected[ticket])
    requires var p := s.selected[ticket];
      && RowExists(s.db, p.id, p.typeId) && s.db.rows[p.id].version == p.expected < MAX_I32
      && (p.parent.Some? ==> p.parent.value in s.db.access.types)
    ensures var p := s.selected[ticket];
      var db := s.db.(rows := s.db.rows[p.id := Row(p.data, p.expected + 1)]);
      Next(s, Store(ticket)) == AfterStore(s, ticket, p, db) && Good(db)
  {
    hide Good, FinalOk, Applied, InputOk, MoveLegal, ScopeParent;
    UpdateKeepsGood(s.db, s.selected[ticket]);
  }

  // ---- a tag ahead loses an update ------------------------------------------------------------------

  function Fresh(k: string): Record {
    map[k := Str("new")]
  }

  lemma ProjectTextFields()
    ensures |ProjectType().fields| == 7
    ensures var f, g := ProjectType().fields[4], ProjectType().fields[5];
      && f.field == "description" && f.Writable() && KindFits(f, Str("new"))
      && g.field == "repo_url" && g.Writable() && KindFits(g, Str("new"))
  {
    hide EnumOptions;
  }

  lemma ProjectsTakeText()
    ensures var db := SeedDb();
      && Settable(db, "project", PROJECT, 4, Str("new")) && db.registry["project"].fields[4].field == "description"
      && Settable(db, "project", PROJECT, 5, Str("new")) && db.registry["project"].fields[5].field == "repo_url"
  {
    SeedHasProject();
    ProjectTextFields();
    hide SeedDb, ProjectType, ProjectData;
  }

  lemma ProjectStaysRoot(k: string)
    requires k == "description" || k == "repo_url"
    ensures ScopeParent(ProjectType(), ProjectData()[k := Str("new")]) == None
    ensures "description" !in ProjectData()["repo_url" := Str("new")]
  {
    hide EnumOptions;
  }

  /** Two clients read version 1; the second sends tag 2, which nobody has told it yet. The first write is
      accepted as version 2, the second replaces it as version 3, and the first write's field is gone. */
  lemma AheadTagRace()
    ensures var s := Play(Start(SeedDb()),
        [Reading(0, "project", PROJECT, "description", Str("new"), 1),
         Reading(1, "project", PROJECT, "repo_url", Str("new"), 2), Store(0), Store(1)]);
      && PROJECT in s.ledgers && PROJECT in s.db.rows
      && s.ledgers[PROJECT].entries == [Entry(Patch, Fresh("description")), Entry(Patch, Fresh("repo_url"))]
      && s.db.rows[PROJECT].version == 3 && "description" !in s.db.rows[PROJECT].data
  {
    hide Good, Next, Play, AllTimely, Timely, Start, SeedDb, AfterStore, Recorded;
    var m0, m1 := Reading(0, "project", PROJECT, "description", Str("new"), 1), Reading(1, "project", PROJECT, "repo_url", Str("new"), 2);
    var s0 := Start(SeedDb());
    NothingPlayed(s0);
    PlayOneMore(s0, [], m0);
    PlayOneMore(s0, [m0], m1);
    PlayOneMore(s0, [m0, m1], Store(0));
    PlayOneMore(s0, [m0, m1, Store(0)], Store(1));
    assert [] + [m0] == [m0] && [m0] + [m1] == [m0, m1];
    assert [m0, m1] + [Store(0)] == [m0, m1, Store(0)] && [m0, m1, Store(0)] + [Store(1)] == [m0, m1, Store(0), Store(1)];
    BothAreRead(m0, m1);
    BothAreStored(Next(Next(s0, m0), m1));
  }

  lemma BothAreRead(m0: Move, m1: Move)
    requires m0 == Reading(0, "project", PROJECT, "description", Str("new"), 1)
    requires m1 == Reading(1, "project", PROJECT, "repo_url", Str("new"), 2)
    ensures Settable(SeedDb(), "project", PROJECT, 4, Str("new")) && Settable(SeedDb(), "project", PROJECT, 5, Str("new"))
    ensures var db := SeedDb();
      var p, q := Setting(db, "project", PROJECT, 4, Str("new"), 1), Setting(db, "project", PROJECT, 5, Str("new"), 2);
      && Next(Next(Start(db), m0), m1) == Start(db).(selected := map[0 := p, 1 := q])
      && Good(db) && Caught(db, p) && Caught(db, q)
  {
    hide Good, Next, SeedDb, InSync, CaseReady, Setting, Caught, Timely, Watch, Reading, KindFits, ValidateCaseChange;
    SeedIsGood();
    ProjectsTakeText();
    var s0 := Start(SeedDb());
    ReadingAdds(s0, 0, "project", PROJECT, 4, "description", Str("new"), 1);
    ReadingAdds(Next(s0, m0), 1, "project", PROJECT, 5, "repo_url", Str("new"), 2);
    assert Next(Next(s0, m0), m1).selected == map[0 := Setting(SeedDb(), "project", PROJECT, 4, Str("new"), 1),
                                                  1 := Setting(SeedDb(), "project", PROJECT, 5, Str("new"), 2)];
  }

  lemma BothAreStored(s: Sys)
    requires Settable(SeedDb(), "project", PROJECT, 4, Str("new")) && Settable(SeedDb(), "project", PROJECT, 5, Str("new"))
    requires var db := SeedDb();
      var p, q := Setting(db, "project", PROJECT, 4, Str("new"), 1), Setting(db, "project", PROJECT, 5, Str("new"), 2);
      s == Start(db).(selected := map[0 := p, 1 := q]) && Good(db) && Caught(db, p) && Caught(db, q)
    ensures var after := Next(Next(s, Store(0)), Store(1));
      && PROJECT in after.ledgers && PROJECT in after.db.rows
      && after.ledgers[PROJECT].entries == [Entry(Patch, Fresh("description")), Entry(Patch, Fresh("repo_url"))]
      && after.db.rows[PROJECT].version == 3 && "description" !in after.db.rows[PROJECT].data
  {
    hide Good, Next, SeedDb, Settable, Caught, ProjectType, ProjectData, ScopeParent;
    SeedHasProject();
    ProjectsTakeText();
    ProjectStaysRoot("description");
    ProjectStaysRoot("repo_url");
    StoringMoves(s, 0);
    SecondStaysCaught(s);
    StoringMoves(Next(s, Store(0)), 1);
    assert s.ledgers[PROJECT].entries == [];
  }

  lemma SecondStaysCaught(s: Sys)
    requires Good(s.db) && 0 in s.selected && 1 in s.selected
    requires Caught(s.db, s.selected[0]) && Caught(s.db, s.selected[1]) && Update(s.db, s.selected[0]).Ok?
    ensures 1 in Next(s, Store(0)).selected && Next(s, Store(0)).selected[1] == s.selected[1]
    ensures Caught(Next(s, Store(0)).db, s.selected[1])
  {
    hide Good, Caught, Update, Moved;
    UpdateMoves(s.db, s.selected[0]);
    CaughtStays(s.db, Update(s.db, s.selected[0]).value, Wrote(s.selected[0].id), s.selected[1]);
  }

  // ---- a check retracted between SELECT and UPDATE -----------------------------------------------

  /** Field `i` of the case is `k`, and setting it to `v` is a move the case gate lets through. */
  lemma CaseTakesStatus()
    ensures Settable(SeedDb(), CASE, FIRST_CASE, 3, Str("done")) && SeedDb().registry[CASE].fields[3].field == "status"
  {
    SeedCase();
    CaseStatusField();
    DoneIsLegal();
    hide SeedDb, CaseType, CaseData, ValidateCaseChange;
  }

  lemma CaseStatusField()
    ensures |CaseType().fields| == 11
    ensures var f := CaseType().fields[3]; f.field == "status" && f.Writable() && KindFits(f, Str("done"))
  {
    var f := CaseType().fields[3];
    var items := Get(f.options, "enum").value.items;
    assert items[4] == Str("done");
  }

  lemma DoneIsLegal()
    ensures var workflows, checks := map["default" := DEFAULT_WORKFLOW], map[(FIRST_CASE, REVIEWED) := true];
      ValidateCaseChange(workflows, checks, FIRST_CASE, CaseData()["status" := Str("done")], StrAt(CaseData(), "status")).Ok?
  {
    DoneStrings();
    var workflows, checks := map["default" := DEFAULT_WORKFLOW], map[(FIRST_CASE, REVIEWED) := true];
    assert Unmet(checks, FIRST_CASE, [REVIEWED]) == [];
    hide CaseData;
  }

  lemma DoneStrings()
    ensures var data := CaseData()["status" := Str("done")];
      && StatusOf(data) == "done" && WorkflowIdOf(data) == "default" && StrAt(CaseData(), "status") == Some("in_review")
      && StrAt(data, "project_id") == Some(PROJECT) && StrAt(data, "status") == Some("done")
      && MirrorOf(CaseData(), 4).status == "in_review"
  {}

  lemma CaseStaysInProject(k: string, v: string)
    requires k == "status" || k == "title"
    ensures ScopeParent(CaseType(), CaseData()[k := Str(v)]) == Some(PROJECT)
  {
    hide EnumOptions;
  }

  const RETRACTION := Whole(Step(ADMIN, RecordCheck(CASE, FIRST_CASE, REVIEWED, false)))

  lemma AdminRetracts(s: Sys)
    requires s.db == SeedDb() && s.ledgers == Watch(s.db.rows, map[])
    ensures Next(s, RETRACTION) == s.(db := s.db.(checks := s.db.checks[(FIRST_CASE, REVIEWED) := false]))
  {
    hide SeededTypes, CaseData, MirrorOf;
    SeedCase();
    var db := s.db;
    assert SetCheck(db, ADMIN, CASE, FIRST_CASE, REVIEWED, false)
      == Reply(db.(checks := db.checks[(FIRST_CASE, REVIEWED) := false]), Ok(())) by {
      assert M.ObjectExists(db.access, FIRST_CASE, CASE);
    }
    assert Watch(db.rows, s.ledgers) == s.ledgers;
  }

  function Closing(): Move { Reading(0, CASE, FIRST_CASE, "status", Str("done"), 4) }

  /** The close check has passed when the write is read, is retracted before its UPDATE, and the case closes
      all the same; the trigger then refuses the mirror, which goes on showing the case under review. */
  lemma RetractedCheckRace()
    ensures var moves := [Closing(), RETRACTION, Store(0), Mirror(0)];
      var s := Play(Start(SeedDb()), moves);
      && AllTimely(Start(SeedDb()), moves) && IsCase(s.db, FIRST_CASE) && FIRST_CASE in s.db.mirror
      && StatusOf(s.db.rows[FIRST_CASE].data) == "done" && !Passed(s.db.checks, FIRST_CASE, REVIEWED)
      && s.db.mirror[FIRST_CASE].status == "in_review"
  {
    hide Good, Next, Play, AllTimely, Timely, Start, SeedDb, CaseData;
    var m0, s0 := Closing(), Start(SeedDb());
    NothingPlayed(s0);
    PlayOneMore(s0, [], m0);
    PlayOneMore(s0, [m0], RETRACTION);
    PlayOneMore(s0, [m0, RETRACTION], Store(0));
    PlayOneMore(s0, [m0, RETRACTION, Store(0)], Mirror(0));
    assert [] + [m0] == [m0] && [m0] + [RETRACTION] == [m0, RETRACTION];
    assert [m0, RETRACTION] + [Store(0)] == [m0, RETRACTION, Store(0)];
    assert [m0, RETRACTION, Store(0)] + [Mirror(0)] == [m0, RETRACTION, Store(0), Mirror(0)];
    OthersAreTimely(s0, [m0]);
    OthersAreTimely(s0, [m0, RETRACTION]);
    OthersAreTimely(s0, [m0, RETRACTION, Store(0)]);
    ClosingIsRead();
    RetractedCaseCloses(Next(s0, m0));
  }

  lemma OthersAreTimely(s: Sys, moves: seq<Move>)
    ensures forall m: Move | !m.Select? :: Timely(Play(s, moves), m)
  {}

  lemma ClosingIsRead()
    ensures Settable(SeedDb(), CASE, FIRST_CASE, 3, Str("done"))
    ensures var db := SeedDb();
      var p := Setting(db, CASE, FIRST_CASE, 3, Str("done"), 4);
      && Next(Start(db), Closing()) == Start(db).(selected := map[0 := p])
      && Timely(Start(db), Closing()) && Good(db) && Caught(db, p)
  {
    hide Good, Next, SeedDb, InSync, CaseReady, Setting, Caught, Timely, Watch, Reading, KindFits, ValidateCaseChange, CaseData;
    SeedIsGood();
    SeedCase();
    CaseTakesStatus();
    ReadingAdds(Start(SeedDb()), 0, CASE, FIRST_CASE, 3, "status", Str("done"), 4);
  }

  lemma RetractionKeepsCaught(db: Db, checks: Checks, p: Pending)
    requires Good(db) && Caught(db, p)
    ensures Good(db.(checks := checks)) && Caught(db.(checks := checks), p)
  {
    hide Good, FinalOk, Applied, InputOk, MoveLegal, ScopeParent;
    ChecksOnlyKeepGood(db, checks);
  }

  /** The case's record now, and what the mirror upsert will meet. */
  lemma RetractedCaseCloses(s: Sys)
    requires Settable(SeedDb(), CASE, FIRST_CASE, 3, Str("done"))
    requires var db := SeedDb();
      var p := Setting(db, CASE, FIRST_CASE, 3, Str("done"), 4);
      s == Start(db).(selected := map[0 := p]) && Good(db) && Caught(db, p)
    ensures var after := Next(Next(Next(s, RETRACTION), Store(0)), Mirror(0)).db;
      && IsCase(after, FIRST_CASE) && FIRST_CASE in after.mirror
      && StatusOf(after.rows[FIRST_CASE].data) == "done" && !Passed(after.checks, FIRST_CASE, REVIEWED)
      && after.mirror[FIRST_CASE].status == "in_review"
  {
    hide Good, Next, SeedDb, Settable, Caught, CaseType, CaseData, ScopeParent, StrAt, StatusOf, MirrorOf, SyncMirror, Recorded, Watch;
    SeedCase();
    CaseTakesStatus();
    CaseStaysInProject("status", "done");
    DoneStrings();
    AdminRetracts(s);
    var s1 := Next(s, RETRACTION);
    RetractionKeepsCaught(s.db, s1.db.checks, s.selected[0]);
    StoringMoves(s1, 0);
    var s2 := Next(s1, Store(0));
    TriggerRefuses(s2);
    MirrorMove(s2, 0);
  }

  lemma MirrorMove(s: Sys, ticket: nat)
    requires ticket in s.stored
    ensures var p := s.stored[ticket];
      Next(s, Mirror(ticket)) == match SyncMirror(s.db, p.id, p.data, p.expected + 1)
        case Err(_) => s.(stored := s.stored - {ticket})
        case Ok(db) => s.(db := db, stored := s.stored - {ticket})
  {
    hide SyncMirror;
  }

  lemma TriggerRefuses(s: Sys)
    requires 0 in s.stored && s.stored[0].id == FIRST_CASE && s.stored[0].data == CaseData()["status" := Str("done")]
    requires FIRST_CASE in s.db.mirror && s.db.mirror[FIRST_CASE].status == "in_review"
    requires s.db.workflows == map["default" := DEFAULT_WORKFLOW] && !Passed(s.db.checks, FIRST_CASE, REVIEWED)
    ensures SyncMirror(s.db, FIRST_CASE, s.stored[0].data, s.stored[0].expected + 1).Err?
  {
    DoneStrings();
    hide CaseData, StrAt, Passed;
    assert REVIEWED in DEFAULT_WORKFLOW.closeChecks;
  }

  // ---- upserts out of order ----------------------------------------------------------------------

  function Titled(title: string): Record {
    CaseData()["title" := Str(title)]
  }

  function Retitling(ticket: nat, title: string, tag: int): Move {
    Reading(ticket, CASE, FIRST_CASE, "title", Str(title), tag)
  }

  lemma CaseTitleField(title: string)
    ensures |CaseType().fields| == 11
    ensures var f := CaseType().fields[0]; f.field == "title" && f.Writable() && KindFits(f, Str(title))
  {
    hide EnumOptions;
  }

  lemma TitledStrings(title: string)
    ensures var data := Titled(title);
      && StatusOf(data) == "in_review" && WorkflowIdOf(data) == "default" && StrAt(data, "status") == Some("in_review")
      && StrAt(data, "project_id") == Some(PROJECT) && StrAt(data, "assignee_id") == None
  {}

  /** What the tables keep of the seed while case titles change. */
  ghost predicate StillSeeded(db: Db) {
    && Good(db) && IsCase(db, FIRST_CASE) && PROJECT in db.access.types
    && CASE in db.registry && db.registry[CASE] == CaseType()
    && db.workflows == map["default" := DEFAULT_WORKFLOW]
    && FIRST_CASE in db.mirror && db.mirror[FIRST_CASE].status == "in_review"
  }

  lemma CaseTakesTitle(db: Db, before: string, title: string)
    requires StillSeeded(db) && db.rows[FIRST_CASE].data == Titled(before)
    ensures Settable(db, CASE, FIRST_CASE, 0, Str(title)) && db.registry[CASE].fields[0].field == "title"
    ensures db.rows[FIRST_CASE].data["title" := Str(title)] == Titled(title)
  {
    hide Good, CaseType, StrAt, StatusOf, WorkflowIdOf, KindFits;
    CaseTitleField(title);
    TitledStrings(before);
    TitledStrings(title);
    assert Titled(before)["title" := Str(title)] == Titled(title);
    hide Titled;
  }

  /** A pending retitling of the case. */
  ghost predicate Retitles(p: Pending, title: string, tag: int) {
    p.id == FIRST_CASE && p.typeId == CASE && p.data == Titled(title) && p.expected == tag && p.parent == Some(PROJECT)
  }

  lemma TitleIsRead(s: Sys, ticket: nat, before: string, title: string, tag: int)
    requires StillSeeded(s.db) && s.db.rows[FIRST_CASE] == Row(Titled(before), tag)
    requires ticket !in s.selected && ticket !in s.stored
    ensures var after := Next(s, Retitling(ticket, title, tag));
      && after == s.(selected := after.selected) && after.selected.Keys == s.selected.Keys + {ticket}
      && Retitles(after.selected[ticket], title, tag) && Caught(s.db, after.selected[ticket])
      && Timely(s, Retitling(ticket, title, tag))
  {
    hide Good, Next, Timely, Caught, CaseType, Titled, CaseData, ScopeParent, Settable;
    CaseTakesTitle(s.db, before, title);
    ReadingAdds(s, ticket, CASE, FIRST_CASE, 0, "title", Str(title), tag);
    TitledInProject(title);
  }

  lemma TitledInProject(title: string)
    ensures ScopeParent(CaseType(), Titled(title)) == Some(PROJECT)
  {
    CaseStaysInProject("title", title);
  }

  lemma TitleIsStored(s: Sys, ticket: nat, title: string, tag: int)
    requires StillSeeded(s.db) && ticket in s.selected && Caught(s.db, s.selected[ticket]) && Retitles(s.selected[ticket], title, tag)
    requires s.db.rows[FIRST_CASE].version == tag < MAX_I32
    ensures var after := Next(s, Store(ticket));
      && StillSeeded(after.db) && after.db.rows[FIRST_CASE] == Row(Titled(title), tag + 1)
      && after.selected == s.selected - {ticket} && after.stored == s.stored[ticket := s.selected[ticket]]
  {
    hide Good, Next, Caught, CaseType, Titled, Recorded;
    StoringMoves(s, ticket);
  }

  lemma TitleIsSynced(s: Sys, ticket: nat, title: string, tag: int)
    requires StillSeeded(s.db) && ticket in s.stored && Retitles(s.stored[ticket], title, tag)
    ensures var after := Next(s, Mirror(ticket));
      && StillSeeded(after.db) && after.db.rows == s.db.rows && after.stored == s.stored - {ticket}
      && after.db.mirror[FIRST_CASE].version == tag + 1
  {
    hide Good, Next, CaseType, StrAt, CaseData, Titled;
    TitledStrings(title);
    SyncShape(s.db, FIRST_CASE, Titled(title), tag + 1) by { TitleGoesThrough(s.db, title, tag + 1); }
    TitleGoesThrough(s.db, title, tag + 1);
    MirrorMove(s, ticket);
    MirrorOnlyKeepsGood(s.db, s.db.mirror[FIRST_CASE := MirrorOf(Titled(title), tag + 1)]);
  }

  lemma TitleGoesThrough(db: Db, title: string, version: int)
    requires StillSeeded(db)
    ensures SyncMirror(db, FIRST_CASE, Titled(title), version).Ok?
    ensures MirrorOf(Titled(title), version).status == "in_review" && MirrorOf(Titled(title), version).version == version
  {
    TitledStrings(title);
    hide Good, CaseType, StrAt, CaseData, Titled;
  }

  lemma SeedIsSeeded()
    ensures StillSeeded(SeedDb()) && SeedDb().rows[FIRST_CASE] == Row(Titled("first"), 4)
  {
    hide Good, CaseType, SeedDb, InSync, CaseReady;
    SeedIsGood();
    SeedCase();
    DoneStrings();
    assert CaseData() == Titled("first");
    hide CaseData, Titled;
  }

  function TwoTitles(): seq<Move> {
    [Retitling(0, "second", 4), Store(0), Retitling(1, "third", 5), Store(1), Mirror(1), Mirror(0)]
  }

  lemma {:induction false} PlayTwoTitles(s: Sys)
    ensures var s2 := Next(Next(s, Retitling(0, "second", 4)), Store(0));
      var s4 := Next(Next(s2, Retitling(1, "third", 5)), Store(1));
      && Play(s, TwoTitles()) == Next(Next(s4, Mirror(1)), Mirror(0))
      && (Timely(s, Retitling(0, "second", 4)) && Timely(s2, Retitling(1, "third", 5)) ==> AllTimely(s, TwoTitles()))
  {
    hide Next, Play, AllTimely, Timely, Retitling;
    var a, b := Retitling(0, "second", 4), Retitling(1, "third", 5);
    NothingPlayed(s);
    PlayOneMore(s, [], a);
    PlayOneMore(s, [a], Store(0));
    PlayOneMore(s, [a, Store(0)], b);
    PlayOneMore(s, [a, Store(0), b], Store(1));
    PlayOneMore(s, [a, Store(0), b, Store(1)], Mirror(1));
    PlayOneMore(s, [a, Store(0), b, Store(1), Mirror(1)], Mirror(0));
    assert [] + [a] == [a] && [a] + [Store(0)] == [a, Store(0)] && [a, Store(0)] + [b] == [a, Store(0), b];
    assert [a, Store(0), b] + [Store(1)] == [a, Store(0), b, Store(1)];
    assert [a, Store(0), b, Store(1)] + [Mirror(1)] == [a, Store(0), b, Store(1), Mirror(1)];
    assert [a, Store(0), b, Store(1), Mirror(1)] + [Mirror(0)] == TwoTitles();
    OthersAreTimely(s, [a]);
    OthersAreTimely(s, [a, Store(0), b]);
    OthersAreTimely(s, [a, Store(0), b, Store(1)]);
    OthersAreTimely(s, [a, Store(0), b, Store(1), Mirror(1)]);
  }

  /** One write from its SELECT to its UPDATE. */
  lemma TitleIsWritten(s: Sys, ticket: nat, before: string, title: string, tag: int)
    requires StillSeeded(s.db) && s.db.rows[FIRST_CASE] == Row(Titled(before), tag) && tag < MAX_I32
    requires s.selected == map[] && ticket !in s.stored
    ensures var after := Next(Next(s, Retitling(ticket, title, tag)), Store(ticket));
      && Timely(s, Retitling(ticket, title, tag)) && StillSeeded(after.db)
      && after.db.rows[FIRST_CASE] == Row(Titled(title), tag + 1) && after.selected == map[]
      && after.stored.Keys == s.stored.Keys + {ticket} && Retitles(after.stored[ticket], title, tag)
      && forall t | t in s.stored :: after.stored[t] == s.stored[t]
  {
    hide StillSeeded, Next, Timely, Titled, Retitling, Retitles, Caught;
    SeededCase(s.db);
    TitleIsRead(s, ticket, before, title, tag);
    TitleIsStored(Next(s, Retitling(ticket, title, tag)), ticket, title, tag);
  }

  lemma SeededCase(db: Db)
    requires StillSeeded(db)
    ensures IsCase(db, FIRST_CASE) && FIRST_CASE in db.rows && FIRST_CASE in db.mirror
  {
    hide Good;
  }

  lemma BothTitlesWritten(s0: Sys)
    requires StillSeeded(s0.db) && s0.db.rows[FIRST_CASE] == Row(Titled("first"), 4) && s0.selected == s0.stored == map[]
    ensures var s2 := Next(Next(s0, Retitling(0, "second", 4)), Store(0));
      var s4 := Next(Next(s2, Retitling(1, "third", 5)), Store(1));
      && Timely(s0, Retitling(0, "second", 4)) && Timely(s2, Retitling(1, "third", 5))
      && StillSeeded(s4.db) && s4.db.rows[FIRST_CASE].version == 6 && s4.selected == map[]
      && s4.stored.Keys == {0, 1} && Retitles(s4.stored[0], "second", 4) && Retitles(s4.stored[1], "third", 5)
  {
    hide StillSeeded, Next, Timely, Titled, Retitling, Retitles;
    SeededCase(s0.db);
    TitleIsWritten(s0, 0, "first", "second", 4);
    var s2 := Next(Next(s0, Retitling(0, "second", 4)), Store(0));
    SeededCase(s2.db);
    TitleIsWritten(s2, 1, "second", "third", 5);
    SeededCase(Next(Next(s2, Retitling(1, "third", 5)), Store(1)).db);
  }

  lemma BothTitlesSynced(s: Sys)
    requires StillSeeded(s.db) && s.db.rows[FIRST_CASE].version == 6 && s.selected == map[]
    requires s.stored.Keys == {0, 1} && Retitles(s.stored[0], "second", 4) && Retitles(s.stored[1], "third", 5)
    ensures var after := Next(Next(s, Mirror(1)), Mirror(0));
      && StillSeeded(after.db) && after.selected == map[] && after.stored == map[]
      && after.db.rows[FIRST_CASE].version == 6 && after.db.mirror[FIRST_CASE].version == 5
  {
    hide StillSeeded, Next, Retitles, IsCase, Titled;
    SeededCase(s.db);
    MirrorKeepsSelected(s, 1);
    MirrorKeepsSelected(Next(s, Mirror(1)), 0);
    TitleIsSynced(s, 1, "third", 5);
    SeededCase(Next(s, Mirror(1)).db);
    TitleIsSynced(Next(s, Mirror(1)), 0, "second", 4);
    SeededCase(Next(Next(s, Mirror(1)), Mirror(0)).db);
  }

  lemma MirrorKeepsSelected(s: Sys, ticket: nat)
    ensures Next(s, Mirror(ticket)).selected == s.selected
  {
    hide SyncMirror;
  }

  /** Two writes, one after the other, whose upserts arrive the other way round. Both go through, and with
      nothing left in flight the mirror shows version 5 of a row at version 6. */
  lemma StaleMirrorRace()
    ensures var s := Play(Start(SeedDb()), TwoTitles());
      && AllTimely(Start(SeedDb()), TwoTitles()) && s.selected == map[] && s.stored == map[]
      && IsCase(s.db, FIRST_CASE) && FIRST_CASE in s.db.mirror
      && s.db.rows[FIRST_CASE].version == 6 && s.db.mirror[FIRST_CASE].version == 5
      && !Mirrored(s.db, FIRST_CASE)
  {
    hide StillSeeded, Next, Play, AllTimely, Timely, SeedDb, Titled, Retitling, TwoTitles, Watch, Retitles, MirrorOf;
    var s0 := Start(SeedDb());
    PlayTwoTitles(s0);
    SeedIsSeeded();
    SeededCase(s0.db);
    BothTitlesWritten(s0);
    BothTitlesSynced(Next(Next(Next(Next(s0, Retitling(0, "second", 4)), Store(0)), Retitling(1, "third", 5)), Store(1)));
    SeededCase(Play(s0, TwoTitles()).db);
    MirrorColumnsOf(Play(s0, TwoTitles()).db.rows[FIRST_CASE].data, 6);
  }
}
