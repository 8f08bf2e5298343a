# numu API: a Dafny model of the access graph, the versioned write path, cases and the feature pipeline

A numu server keeps typed objects in a relational database: each object is an entity with one JSON record
and a version, hangs in a scope tree under an optional parent, and has a roster of members with roles. Types,
workflows and permissions are rows, not code. This project models the tables as maps and sets, the handlers
as requests against them, and proves what single requests, whole runs of requests and interleavings of
half-finished requests do.

| file | models |
|---|---|
| `Prelude.dfy`, `Fixpoint.dfy` | ids, results; worklist fixpoints for SQL recursive queries |
| `Rbac.dfy`, `Gate.dfy`, `Members.dfy`, `Relations.dfy` | rank by climbing, reach by cascading, action floors, roster guards, typed edges |
| `Json.dfy`, `Registry.dfy`, `Objects.dfy`, `Types.dfy`, `FieldPerms.dfy` | merge patch, field definitions, create/PUT/PATCH data, type registration, field floors |
| `Workflow.dfy`, `Cases.dfy` | transition tables, the close gate and its database twin |
| `Server.dfy` | all tables; each request as a function of them, and the same handlers as methods of a `Database` that updates in place |
| `Runs.dfy`, `Ranks.dfy`, `Authority.dfy`, `Outsiders.dfy`, `CaseRuns.dfy` | what every run keeps: integrity, ranks and owners, authority over changes, ways in, the case mirror |
| `Validity.dfy`, `FloorRules.dfy`, `ReachInFull.dfy` | what a record may hold, which ranks pass which floor, rank and reach: spelled out in rows and figures |
| `RosterAnswers.dfy`, `CreateAnswers.dfy`, `WriteAnswers.dfy`, `TypeAnswers.dfy`, `MirrorColumns.dfy` | each request's answer and effect in full, without the functions that compute them |
| `RosterRaces.dfy` | roster guards and their statements as separate steps |
| `Interleaving.dfy`, `InterleavedCases.dfy` | PUT and PATCH with SELECT, UPDATE and mirror upsert as separate steps of requests in flight; closing and mirroring cases under them |
| `Catalog.dfy`, `Seed.dfy` | the seeded types; a database as the migrations leave it with a few objects |
| `OneFieldPatch.dfy`, `Incidents.dfy`, `Race.dfy` | a one-field PATCH; concrete requests and interleavings on the seeded database |
| `Orchestrator.dfy`, `Handoffs.dfy`, `RateLimit.dfy`, `Text.dfy` | the handoff breaker, the fixed-window limiter, version tags and the signed sign-in state |

`dafny verify dfyconfig.toml` checks the project.

## Where the code differs from what it says, or from what one would expect

The model follows the code. Each point below has its lemma.

- Climb and cascade are called equivalent in `crates/api/src/relations.rs:164-167`. The climb stops after
  eight ancestors and the cascade does not, so they agree exactly up to eight (`Rbac.AgreementNeedsTheCap`);
  beyond, a relation list shows edges the object gate refuses (`Relations.ListOvershootsBeyondTheCap`), and
  reach of an ancestor is not reach of the object (`Authority.LongChainsLetIn`).
- A grant on a team can hand over more than the granter has: a new member gets whatever the team holds
  (`Members.GrantEscalatesOnlyThroughTeams`, `Ranks.TeamGrantEscalates`). So a workspace admin can let herself
  into what a team of that workspace holds elsewhere (`Incidents.AnnLetsHerselfIn`).
- Whether a caller is an admin is read from the caller's actor record on each request. The owner of an actor
  record may write its `platform_role`, so that write is the other way in (`Incidents.AnnPromotesBen`). For
  objects with at most eight ancestors there is no third one for callers without reach who are no admins
  (`Outsiders.TwoWaysIn`, `Outsiders.CrowdStaysOutIff`).
- A grant is an upsert without the last-owner guard and can demote the sole owner
  (`Members.AddMemberOrphansOnlyByDemotion`, `Ranks.GrantCanOrphan`); deleting a sole owner orphans as well.
- Deleting a scope parent nulls the column but not the record. Every later PUT or PATCH of a child writes the
  dead id back and fails on the foreign key, so the child's record is frozen until it is deleted
  (`Runs.OrphansNeverChange`, `Runs.CurrentWriteAcceptedIff`).
- A PUT resets the editable fields it omits without a permission check (`FieldPerms.PutRespectsFloorsIff`).
- Registration asks that a required engine-owned field has a default, not that the default is usable
  (`Types.AcceptedIsCreatableIff`).
- A case write with an assignee that does not exist answers an error although the row has changed, and leaves
  the mirror behind (`CaseRuns.CaseWriteOutcome`, `Incidents.DanglingAssigneeLeavesTheMirrorBehind`).
- The row's UPDATE trusts the client's tag: one ahead of the version that was read can lose an update
  (`Interleaving.TagAheadLosesAnUpdate`, `Race.AheadTagRace`).
- Close checks are read before the UPDATE and can be retracted in between (`Race.RetractedCheckRace`,
  `InterleavedCases.TerminalUpdatesAreCheckedIff`).
- The roster guards read before they write, outside a transaction: two grants can close a membership cycle and
  two demotions can leave an object without an owner (`RosterRaces.TwoGrantsCloseACycle`,
  `RosterRaces.TwoDemotionsOrphan`).
- The mirror upsert is not ordered with the UPDATEs: two of them can arrive the other way round and leave the
  mirror at an older version (`Race.StaleMirrorRace`, `InterleavedCases.MirrorAgreesIff`).
- A failed gate always sends a feature run to the coder, so a run can land that no tester has seen
  (`Orchestrator.LandsWithoutATester`, `Orchestrator.LandedIsTestedIff`).
- A window admits `max`, but a stretch as long as a (nonzero) window can admit up to `2 * max - 1`
  (`RateLimit.AdmittedBelowTwiceMax`, `RateLimit.CeilingIsReached`).

## Hypotheses that recur

`Runs.Good` is the integrity of the tables (foreign keys, acyclic graphs, valid records) and is itself kept by
every request. `CaseRuns.CaseReady` says that the case type is registered as seeded, and is kept too.
`MirrorColumns.InStep` says that every case's mirror row agrees with its record; the seeded database has all three.
`Interleaving.AllTimely` says that no tag is ahead of the version at its SELECT. `Ranks.AllModest` restricts the
requests of a run in the way its doc comment says. `Outsiders.AllSignedIn` says that each step's caller is an
actor that exists and carries the admin flag its record gives it at that moment; in the other run theorems the
flag is an input of each step, so they hold for any. `Outsiders.ActorReady` says that the actor type is
registered as seeded; it is kept.

## Model

| member | source | states |
|---|---|---|
| Fixpoint.ClosureIsLeastClosed | crates/api/src/rbac.rs:101-113 | the worklist that models a recursive query ends with the least set that holds the seeds and is closed under the edges |
| Fixpoint.ClosureIsReachability | crates/api/src/rbac.rs:101-113 | that set is exactly what some finite walk from a seed reaches |
| Rbac.EffectiveRank | crates/api/src/rbac.rs:21-50 | the rank is held by some row that counts for the caller, and no row that counts ranks higher |
| Rbac.ClimbLeadsDown | crates/api/src/rbac.rs:34-40 | every id the climb visits leads down by scope edges to the object it started from |
| Rbac.RankImpliesReach | crates/api/src/rbac.rs:21-118 | a rank by the climb always is a reach by the cascade |
| Rbac.ReachImpliesRank | crates/api/src/rbac.rs:93-118 | a reach by the cascade is a rank by the climb when the depth cap does not cut the climb |
| Rbac.AgreementNeedsTheCap | crates/api/src/rbac.rs:21-118 | in a scope forest the two agree for every membership table and actor if and only if the object has at most eight ancestors |
| Rbac.UncutIffFewAncestors | crates/api/src/rbac.rs:34-40 | the cap leaves a climb whole exactly when the ancestors still to come fit under it |
| Rbac.ListedIffRanked | crates/api/src/rbac.rs:56-88 | the collection list of a type holds exactly the objects of that type the caller ranks on, for objects with at most eight ancestors |
| Rbac.ShrinkingNeverRaises | crates/api/src/rbac.rs:21-50 | taking away memberships, team edges or scope edges raises no rank |
| ReachInFull.PrincipalsInFull | crates/api/src/rbac.rs:26-33 | the principals of an actor are those a chain of memberships, each of the next a team, leads to |
| ReachInFull.RankInFull | crates/api/src/rbac.rs:21-50 | the rank is the highest role held by such a principal on the object or on one of its first eight ancestors, and there is none exactly if none is held |
| ReachInFull.CascadeInFull | crates/api/src/rbac.rs:93-118 | the cascade reaches an object exactly if such a principal has an edge on it or on an ancestor, however far up |
| Members.RequireRank | crates/api/src/members.rs:102-119 | admins get the maximum; the rank returned to anyone else is the effective rank and meets the floor; without reach the answer is not-found, below the floor forbidden |
| Members.CycleGuardIsExact | crates/api/src/members.rs:203-210 | adding a member to a team closes a membership cycle if and only if the guard refuses it |
| Members.AddMemberKeepsSound | crates/api/src/members.rs:180-237 | a grant keeps foreign keys and both graphs acyclic |
| Members.SetMemberKeepsSound | crates/api/src/members.rs:240-279 | so does a role change |
| Members.RemoveMemberKeepsSound | crates/api/src/members.rs:294-318 | so does a revoke |
| Members.InsertKeepsSound | crates/api/src/objects.rs:463-485 | so does a create: a new row under an existing parent closes no scope cycle |
| Members.DeleteKeepsSound | migrations/0001_init.sql:49-59 | so does a delete with its cascades |
| Members.SetMemberNeverEscalates | crates/api/src/members.rs:255-279 | a role change lifts no actor on any object above the caller's own rank |
| Members.GrantEscalatesOnlyThroughTeams | crates/api/src/members.rs:196-221 | a grant lifts someone above the caller's rank if and only if it puts a new member into a team that somewhere holds more than both had |
| Members.RemoveMemberNeverRaises | crates/api/src/members.rs:314-318 | a revoke raises nobody's rank on anything |
| Members.DeleteNeverRaises | migrations/0001_init.sql:49-59 | deleting an entity raises nobody's rank on anything |
| Members.SetMemberKeepsOwners | crates/api/src/members.rs:264-268 | a role change leaves no object without an owner |
| Members.RemoveMemberKeepsOwners | crates/api/src/members.rs:308-312 | nor does a revoke |
| Members.AddMemberOrphansOnlyByDemotion | crates/api/src/members.rs:212-221 | a grant leaves an object without an owner if and only if it re-grants the sole owner a lesser role |
| Members.DeleteOrphansOnlyOwnedAlone | migrations/0001_init.sql:57-64 | a delete leaves another object without an owner if and only if the deleted entity was its sole owner |
| RosterAnswers.GrantAnswer | crates/api/src/members.rs:180-237 | a grant goes through if and only if the object is there, the caller is an admin or ranks three or more on it and no lower than the role, the member does not contain the object as a team and exists; else which error; only that edge changes |
| RosterAnswers.ChangeRoleAnswer | crates/api/src/members.rs:240-291 | the same for a role change: the edge must be there and must not be the sole owner's to a lesser role |
| RosterAnswers.RevokeAnswer | crates/api/src/members.rs:294-331 | a revoke goes through if and only if the object and the edge are there, the caller is that member, an admin or of rank three or more, and the edge is not the sole owner's; else which error |
| RosterAnswers.RecordCheckAnswer | crates/api/src/members.rs:40-80 | a check is recorded if and only if the object is a case with a mirror row and the caller is an admin or ranks three or more on it; else which error |
| Json.MergePatchInPlace | crates/api/src/objects.rs:265-284 | the in-place loop gives the recursive merge of section 2 of RFC 7386 |
| Json.MergeFollowsThePatch | crates/api/src/objects.rs:265-284 | at every path, however deep: what the patch does not mention stays, what it nulls goes, what it gives is there |
| Json.MergeIsIdempotent | crates/api/src/objects.rs:265-284 | merging a patch a second time changes nothing |
| Registry.FindAt | crates/api/src/registry.rs:73-75 | with distinct field names a lookup by name finds that very field |
| Objects.BuildCreateData | crates/api/src/objects.rs:217-236 | the create loop stores, per field, the given or default value of a settable field and the default of an engine-owned one |
| Objects.BuildPutData | crates/api/src/objects.rs:238-257 | the PUT loop gives, key by key, the replacement that PutForgetsWritableFields and PutIsIdempotent speak about |
| Objects.PutForgetsWritableFields | crates/api/src/objects.rs:238-257 | a PUT is a replacement: two rows that differ only in writable fields become equal |
| Objects.PutIsIdempotent | crates/api/src/objects.rs:238-257 | the same PUT twice is the PUT once |
| Objects.UpdatesKeepOtherKeys | crates/api/src/objects.rs:154-168 | neither PUT nor an accepted PATCH touches a key that is not a writable field |
| Objects.PatchKeepsOmittedKeys | crates/api/src/objects.rs:265-284 | a PATCH leaves a key it does not name alone |
| Objects.UpdatesKeepScopeParent | crates/api/src/objects.rs:259-263 | for registered types no update changes the scope parent a record names |
| Validity.FinalIffValid | crates/api/src/objects.rs:171-215 | final validation is: required fields given, and each given value a text for text, date and ref, an integer of 64 bits for int, a truth value for bool, a listed text for enum |
| Validity.RecordsStayValid | crates/api/src/objects.rs:196-215 | after any run every stored record is so |
| WriteAnswers.PutInFull | crates/api/src/objects.rs:238-257 | a PUT gives each editable field the payload's value, or its default, or nothing, and keeps every other key |
| WriteAnswers.PatchInFull | crates/api/src/objects.rs:265-284 | a PATCH decides the record at every path by what the payload says there |
| WriteAnswers.PatchStaysValidIff | crates/api/src/objects.rs:171-215 | a PATCH of a valid record passes validation if and only if it nulls no required field and gives each field a value of its kind |
| WriteAnswers.PutStaysValidIff | crates/api/src/objects.rs:196-257 | a PUT passes validation if and only if each editable field is given a value of its kind, or has a default that fits, or is not required |
| Types.ValidateSpec | crates/api/src/types.rs:116-236 | the loops with early exit decide the verdict stated over the spec as a whole |
| Types.AcceptedTypesAreWellFormed | crates/api/src/types.rs:218-234 | an accepted type has distinct field names and a primary scope parent that no update may write |
| Types.AcceptedIsCreatableIff | crates/api/src/types.rs:207-215 | an accepted type has a payload that creates an object if and only if the defaults of its engine-owned fields fit their kinds and are not null where required |
| Types.NullDefaultIsAcceptedButUncreatable | crates/api/src/types.rs:207-215 | a concrete accepted spec, its default null, of which nothing can be created |
| TypeAnswers.RegisterAnswer | crates/api/src/types.rs:116-370 | only admins register types; which specs are accepted, which clash and which are malformed, with every reserved name, kind and bound written out; what is stored is what the spec says |
| TypeAnswers.PrefixesStayDistinct | crates/api/src/types.rs:141-146 | in any run no two registered types come to share an id prefix |
| FieldPerms.RequireWrite | crates/api/src/field_perms.rs:60-81 | passes exactly when every written field is within the caller's floor, else names the first that is not |
| FieldPerms.FilterReadable | crates/api/src/field_perms.rs:83-106 | the removal loop keeps exactly the keys no field of that name puts above the rank |
| FieldPerms.ReadableSet | crates/api/src/field_perms.rs:108-130 | the inserting loop collects exactly the fields at or below the rank |
| FieldPerms.ShownIffAdvertised | crates/api/src/field_perms.rs:83-130 | a registered key is shown on read if and only if it is advertised as readable |
| FieldPerms.ReadingGrowsWithRank | crates/api/src/field_perms.rs:83-130 | a higher rank sees at least as much, values included |
| FieldPerms.PatchRespectsFloors | crates/api/src/field_perms.rs:60-81 | an allowed merge changes only writable fields within the rank |
| FieldPerms.PutRespectsFloorsIff | crates/api/src/objects.rs:623-629 | a PUT stays within the caller's floors if and only if the fields it resets by omission are within them or already at their default |
| FieldPerms.PutClearsWhatItMayNotWrite | crates/api/src/objects.rs:623-629 | a concrete empty PUT by a member that clears an owner-grade field |
| FloorRules.FloorsInFigures | crates/api/src/field_perms.rs:20-47 | which ranks pass a field's floors: as high as some role an override row lets write (read) it; without such a row 4 (3) for owner-grade, the maximum (1) for engine-owned, 2 (1) for the rest |
| FloorRules.ShownInFigures | crates/api/src/field_perms.rs:83-106 | a reader is shown exactly the keys it ranks high enough for, with their stored values |
| FloorRules.GateInFigures | crates/api/src/caller.rs:43-70 | on an object admins pass any gate, others with a rank of 1 to view, 2 to create under or edit, 3 to delete, 4 where the type keeps deletion to owners |
| FloorRules.LookedUpGateInFigures | crates/api/src/caller.rs:76-93 | the same where the type is looked up; nobody passes without an object of a known type |
| Workflow.DefaultMovesOneStep | migrations/0007_cases_engine.sql:9-15 | the default workflow moves exactly between neighbouring columns, starts at backlog and closes at done on one check |
| Workflow.DoneVisitsEveryColumn | migrations/0007_cases_engine.sql:9-15 | any legal history from backlog that reaches done first visits todo, in_progress and in_review, in that order |
| CreateAnswers.InitialGate | crates/api/src/workflow.rs:79-107 | a new case must be at a status its workflow lists, and at the initial one: which error otherwise |
| WriteAnswers.MoveGate | crates/api/src/workflow.rs:79-107 | a move is accepted if and only if its workflow lists the status and the status stays or the move is listed: which error otherwise |
| WriteAnswers.CaseGate | crates/api/src/objects.rs:122-150 | the case gate in full: the move, and on reaching the last status every check recorded as passed |
| Cases.UnmetCloseChecks | crates/api/src/db.rs:87-106 | the loop lists, in order, the checks without a passed row |
| Cases.UnmetEmptyIffAllPassed | crates/api/src/db.rs:85-106 | that list is empty if and only if every check has passed |
| Cases.CasesGuard | migrations/0008_cases_guard.sql:6-32 | the trigger refuses exactly a status change under an unknown workflow, or into the terminal state with a check unmet |
| Cases.GatesAgree | crates/api/src/objects.rs:122-150 | after a legal transition check, the handler's gate accepts a move if and only if the trigger will |
| Cases.TerminalEntryWasChecked | crates/api/src/objects.rs:137-148 | a move let into the terminal state has every close check passed |
| Server.Admit | crates/api/src/objects.rs:603-616 | past the first gates the type is known, the caller is an admin or ranks 2 on the object, the row is there under that type and the tag was given |
| Server.Database.AddMember | crates/api/src/members.rs:180-237 | in place, the grant changes the tables and answers as the specification that the invariants are proved of |
| Server.Database.SetMember | crates/api/src/members.rs:240-291 | the same for a role change |
| Server.Database.RemoveMember | crates/api/src/members.rs:294-331 | the same for a revoke |
| Server.Database.SetCloseCheck | crates/api/src/members.rs:40-80 | the same for recording a close check |
| Server.Database.Register | crates/api/src/types.rs:277-370 | the same for registering a type |
| Server.Database.UpsertCaseMirror | crates/api/src/db.rs:57-83 | the upsert, its trigger and its foreign keys: all of it or nothing |
| Server.Database.AssembleData | crates/api/src/objects.rs:617-632 | the checks between SELECT and UPDATE, in the order of the handler |
| Server.Database.PrepareWrite | crates/api/src/objects.rs:603-633 | a PUT or PATCH up to its UPDATE, for any reading of the tables |
| Server.Database.StoreUpdate | crates/api/src/objects.rs:635-648 | the versioned UPDATE: only at the expected version, and only with a parent that exists |
| Server.Database.FinishWrite | crates/api/src/objects.rs:635-652 | the UPDATE and the mirror upsert as separate statements: a failed upsert leaves the row written |
| Server.Database.ItemPutOrPatch | crates/api/src/objects.rs:595-744 | PUT and PATCH as a whole |
| Server.Database.CheckCaseChange | crates/api/src/objects.rs:122-150 | the handler's case gate |
| Server.Database.PrepareInsert | crates/api/src/objects.rs:422-460 | a create up to its transaction |
| Server.Database.InsertRows | crates/api/src/objects.rs:462-485 | the transaction of a create: on a failed mirror insert every table is as before |
| Server.Database.Create | crates/api/src/objects.rs:414-505 | a create as a whole |
| Server.Database.Delete | crates/api/src/objects.rs:746-791 | a delete as a whole |
| Server.Database.Cascade | migrations/0001_init.sql:45-64 | what one delete takes with it, table by table |
| CreateAnswers.CreatedData | crates/api/src/objects.rs:217-236 | a new record holds, field by field, the value given for a field callers own, else the default, and nothing else |
| CreateAnswers.CreateAnswer | crates/api/src/objects.rs:414-485 | a create goes through if and only if the type is known, every key may be set, the record is valid and placed, a case starts where its workflow does, the caller is an admin or ranks two or more on the parent it names, and what it refers to exists; which error otherwise; what it inserts, owner edge included |
| CreateAnswers.NewRowsNeedRank | crates/api/src/objects.rs:439-460 | whatever the request, an object new under a parent was put there by an admin or a caller of rank two or more on that parent |
| WriteAnswers.AssembleAnswer | crates/api/src/objects.rs:617-632 | which payloads are refused and with which error, in the order of the checks, and what an accepted one comes to |
| WriteAnswers.PrepareAnswer | crates/api/src/objects.rs:603-633 | a PUT or PATCH is prepared if and only if the object is there, the caller is an admin or ranks two or more, a tag is given and the payload fits; which error otherwise |
| WriteAnswers.WriteAnswer | crates/api/src/objects.rs:595-744 | it is stored if and only if, besides, the tag is the row's version, that version can grow and the parent exists: as which record, at which version, and nothing else changes |
| WriteAnswers.DeleteAnswer | crates/api/src/objects.rs:746-791 | a delete goes through if and only if the object is there, the caller is an admin or ranks three (four) or more and the tag is the row's version; which error otherwise |
| WriteAnswers.RemovedIsForgotten | migrations/0001_init.sql:45-64 | and leaves no row, edge, mirror row, check or reference to it, and all else as it was |
| Runs.PreparedFits | crates/api/src/objects.rs:617-633 | a prepared write holds a valid record under the parent the row already names |
| Runs.UpdateKeepsGood | crates/api/src/objects.rs:635-648 | an accepted UPDATE leaves the access tables exactly as they were |
| Runs.HandleKeepsGood | crates/api/src/objects.rs:414-791 | every request of every kind keeps the invariant |
| Runs.RunKeepsGood | crates/api/src/objects.rs:414-791 | over all runs: foreign keys, acyclic team and scope graphs, every record final-valid and placed under the parent it names |
| Runs.EffectOf | crates/api/src/objects.rs:414-791 | a request leaves all rows alone, or inserts, removes or rewrites exactly the one it names; registered types never change |
| Runs.ScopeEdgesAreWriteOnce | migrations/0001_init.sql:49 | a request leaves an object's parent alone, or nulls it because that parent is gone |
| Runs.DeleteOrphansChildren | migrations/0001_init.sql:49 | a delete orphans exactly the scope children of what it deletes |
| Runs.OrphanWritesFail | crates/api/src/objects.rs:633-648 | no update of an orphan is accepted: it would write back the parent its record still names |
| Runs.CurrentWriteAcceptedIff | crates/api/src/objects.rs:633-648 | a prepared write with the row's own version is accepted if and only if the row is no orphan |
| Runs.OrphansNeverChange | crates/api/src/objects.rs:633-648 | in any run an orphan keeps its record until it is deleted |
| Runs.MintedStayGone | crates/api/src/objects.rs:462 | a deleted id never comes back |
| Ranks.InsertKeepsRanks | crates/api/src/db.rs:39-53 | the owner edge of a create changes no rank on anything that was there |
| Ranks.OnlyRostersRaiseRanks | crates/api/src/members.rs:180-318 | no request other than a grant or role change raises anybody's rank |
| Ranks.GrantBounded | crates/api/src/members.rs:196-221 | for any bound above the granter's rank: a grant lifts nobody above it if and only if it joins no team that holds more than the bound and than the new member's side |
| Ranks.RunsNeverEscalate | crates/api/src/members.rs:196-279 | a run of requests by callers of rank up to a cap, admins counting as the highest rank, lifts nobody above it on any object, as long as each team that takes in a new member passes that exact condition |
| Ranks.TeamGrantEscalates | crates/api/src/members.rs:196-221 | a concrete team admin of rank 3 whose grant gives a newcomer rank 4 on the team's project |
| Ranks.StepKeepsOwnersIff | crates/api/src/db.rs:36-53 | a request leaves every object with an owner if and only if it does not, accepted, re-grant a sole owner a lesser role or delete one |
| Ranks.RunsKeepOwnersIff | crates/api/src/db.rs:36-53 | over any run: no object is ever without an owner if and only if no step does that |
| Ranks.GrantCanOrphan | crates/api/src/members.rs:212-221 | for any object with one owner, an admin's re-grant of the viewer role leaves it with none |
| RosterRaces.AtOnceIsTheRequest | crates/api/src/members.rs:180-331 | guard and statement without anything between are the request as specified |
| RosterRaces.TeamsStayAcyclicIff | crates/api/src/members.rs:203-221 | over every interleaving of guards and statements of roster requests the team graph stays acyclic if and only if each grant to a team would still pass its cycle guard when its row is written |
| RosterRaces.ObjectStaysOwnedIff | crates/api/src/members.rs:264-279 | over every interleaving an object keeps an owner if and only if no statement removes or demotes the one it has left by then |
| RosterRaces.TwoGrantsCloseACycle | crates/api/src/members.rs:203-221 | any two teams that do not contain each other: grants of each to the other, both guards first, close a cycle |
| RosterRaces.TwoDemotionsOrphan | crates/api/src/members.rs:264-279 | any object with two owners: demotions of both, both guards first, leave it with none |
| Authority.RowChangesNeedRank | crates/api/src/caller.rs:43-70 | whatever the request, a record changes only by a caller of rank 2 or more on it and goes only by one of rank 3 or more |
| Authority.RosterChangesNeedRank | crates/api/src/members.rs:102-119 | a roster changes only by a caller of rank 3 or more, apart from a member leaving or being deleted |
| Authority.PatchStaysWithinFloors | crates/api/src/objects.rs:670-744 | from request to stored record, a PATCH changes a key only if it is a writable field within the caller's floor |
| Authority.PutStaysWithinFloorsIff | crates/api/src/objects.rs:595-652 | from request to stored record, an accepted PUT stays within its caller's floors if and only if the fields it resets by omission are within them or at their default |
| Authority.JoiningAddsTheTeamsRank | crates/api/src/rbac.rs:21-50 | after a join the rank of everyone the new member stands for is the greater of its own and the team's, and everyone else's is unchanged |
| Authority.OutsidersRaiseNobodyIff | crates/api/src/members.rs:180-291 | a request of a caller without reach of an object raises nobody's rank on it, if and only if it does not put into a team someone who ranks lower on the object than the team |
| Outsiders.AdminAfter | crates/api/src/auth.rs:67-96 | exactly which requests decide whether an actor is an admin: an accepted write of its record that gives the role, a PUT that omits it, and its delete |
| Outsiders.PromotionNeedsTheFloor | crates/api/src/field_perms.rs:60-81 | a caller who is no admin gives the admin role only with the floor of that field on that record, owner where no override says otherwise |
| Outsiders.ReachGainedIff | crates/api/src/members.rs:180-331 | whoever sends it, a request gives an actor reach of an object if and only if it is an accepted grant to one it stands for, on the object, an ancestor within the climb, or a team with reach |
| Outsiders.GetsInIff | crates/api/src/auth.rs:67-96 | an actor without reach who is no admin comes to have reach or be one by exactly such a grant or such a write |
| Outsiders.OutsidersStayOutIff | crates/api/src/caller.rs:43-70 | in any run of anybody's signed-in requests: nobody of a crowd ever has reach or is an admin if and only if no step is such a grant or write; while so, no request of theirs touches the record |
| Outsiders.TwoWaysIn | crates/api/src/members.rs:180-331 | what a caller who has no reach and is no admin can do to let someone in: put one they stand for into a team with reach, or make one an admin |
| Outsiders.CrowdStep | crates/api/src/members.rs:180-331 | one signed-in request from a crowd of such callers leaves the record alone, and lets one of them in if and only if it is such a join or promotion; for objects with at most eight ancestors |
| Outsiders.CrowdStaysOutIff | crates/api/src/auth.rs:67-96 | any number of such callers, working together over a run: they stay out and the record stays the same after every step if and only if no step joins one into a team with reach or makes one an admin; for objects with at most eight ancestors |
| Incidents.AnnLetsHerselfIn | migrations/0011_catalog.sql:15-24 | on the seeded database a workspace admin without reach of a project grants herself into the team in that workspace which owns it, and ranks as owner |
| Incidents.AnnPromotesBen | migrations/0003_rbac.sql:40-46 | on the seeded database, with neither of them having reach: Ann's PATCH of an actor record she owns makes Ben an admin, joins no team and changes no roster, and Ben's next PATCH of the project is prepared |
| Authority.LongChainsLetIn | crates/api/src/rbac.rs:34-40 | on every longer chain an actor without reach of the object can let itself in by one accepted grant on the parent |
| CaseRuns.PreparedCase | crates/api/src/objects.rs:630-633 | a prepared case write is valid, legal, and has its close checks passed if it closes |
| CaseRuns.SyncFailsOnlyOnAssignee | crates/api/src/db.rs:57-83 | after a checked update the upsert goes through if and only if the assignee exists: the trigger has nothing left to refuse |
| CaseRuns.CaseWriteOutcome | crates/api/src/objects.rs:646-652 | an accepted case update answers without error, and leaves mirror and row in step, if and only if its assignee exists; the row has changed either way |
| Incidents.DanglingAssigneeLeavesTheMirrorBehind | crates/api/src/objects.rs:646-652 | on the seeded database an admin's PATCH to a missing assignee is stored as version 5, answers an error and leaves the mirror behind |
| CaseRuns.RunsKeepTheMirrorIff | crates/api/src/objects.rs:650-652 | over any run: the mirror's title, status, workflow, priority and version are the row's after every request if and only if no accepted write names a missing assignee |
| MirrorColumns.UpsertColumns | crates/api/src/db.rs:57-83 | an upsert that goes through writes title, status, workflow, priority, assignee, project and version, each from its own key of the record or its default, and changes no other row |
| MirrorColumns.UpsertAnswer | migrations/0008_cases_guard.sql:6-32 | when an upsert is refused by the trigger, when by a foreign key, and when it goes through |
| MirrorColumns.CaseWriteAnswer | crates/api/src/objects.rs:635-652 | a case write from tables in step answers without error if and only if it is stored and its assignee exists, and then every mirror column is the new record's; else the mirror stays as it was |
| MirrorColumns.CaseCreateColumns | crates/api/src/objects.rs:480-483 | a created case has every mirror column from its record |
| MirrorColumns.ColumnsAgreeThroughoutIff | crates/api/src/db.rs:57-83 | in any run, after each request every case's mirror agrees with its record column by column (a reference may be empty once what it named is deleted) if and only if no stored write names an assignee that does not exist |
| CaseRuns.TerminalEntriesAreChecked | crates/api/src/objects.rs:137-148 | any request that moves a case into its terminal state does so with every close check passed at that moment |
| Interleaving.AcceptedReplacesItsBaseIff | crates/api/src/objects.rs:608-648 | an accepted write replaces the version it was computed from if and only if its tag was not ahead of that version; then its record is computed from exactly the record it replaces |
| Interleaving.AtOnceIsTheWrite | crates/api/src/objects.rs:595-744 | SELECT, UPDATE and mirror upsert of one write with nothing between them are the request as a whole |
| Interleaving.CaughtStays | crates/api/src/objects.rs:608-648 | what a request in flight knows of its row survives any move of any other request |
| Interleaving.PlayKeepsInv | crates/api/src/objects.rs:595-744 | over every interleaving of SELECTs, UPDATEs, mirror upserts and whole other requests the ledgers and the writes in flight stay consistent with the tables |
| Interleaving.RowsAreTheFoldOfTheirWrites | crates/api/src/objects.rs:608-648 | in every interleaving whose tags are not ahead, a row is the fold of its accepted writes over its first record and the version counts them: no update is lost |
| Interleaving.TagAheadLosesAnUpdate | crates/api/src/objects.rs:608-648 | from any row two writes have read, one with a tag one ahead, both are accepted and the first is lost |
| Interleaving.CaseHistoriesAreLegal | crates/api/src/workflow.rs:79-107 | in every such interleaving a created case keeps one workflow, starts in its initial state at version 1, and moves only along listed transitions |
| Interleaving.DoneCasesVisitedEveryColumn | migrations/0007_cases_engine.sql:9-15 | in every such interleaving a done case of the default workflow has first visited the columns in order |
| Interleaving.NewRowsAreInitial | crates/api/src/objects.rs:428-438 | a row that was not there before is at version 1, and a new case is in its initial state |
| InterleavedCases.TerminalUpdatesAreCheckedIff | crates/api/src/objects.rs:122-150 | in every interleaving whose tags are not ahead, an UPDATE into the terminal state has every close check passed at that moment if and only if none was last recorded as failed since its SELECT |
| InterleavedCases.NoRetractionSinceSelect | crates/api/src/members.rs:40-80 | that is so whenever nobody retracts a check of the case |
| InterleavedCases.RetractedCheckStillCloses | crates/api/src/objects.rs:635-652 | a closing write in flight with the row's version for a tag is accepted, if the row is no orphan, whatever the checks say by then; the mirror follows it if and only if they all stand passed and the assignee exists |
| Race.RetractedCheckRace | crates/api/src/objects.rs:122-150 | a concrete play of the seeded database: the check is retracted between SELECT and UPDATE, the case is done, its mirror is under review |
| InterleavedCases.MirrorShowsLastSynced | crates/api/src/db.rs:57-83 | in every such interleaving the mirror shows the version of the last upsert that went through for the case, or the version it was first seen at |
| InterleavedCases.MirrorAgreesIff | crates/api/src/db.rs:57-83 | in every such interleaving from tables in step, a case's mirror agrees with its row if and only if the last upsert that went through for it was that of its last accepted UPDATE |
| InterleavedCases.UpsertsInOrderAgree | crates/api/src/objects.rs:646-652 | if every upsert of a case comes in the order of the UPDATEs, refers to what exists and finds the checks it needs passed, the mirror agrees with the row whenever none is still to come |
| InterleavedCases.LateMirrorGoesStale | crates/api/src/db.rs:57-83 | of two upserts that arrive in the opposite order of their UPDATEs: if the earlier one goes through the mirror ends behind; if it is refused and the current one went through the mirror agrees |
| Race.StaleMirrorRace | crates/api/src/db.rs:57-83 | a concrete play of the seeded database with nothing left in flight, its row at version 6 and its mirror at version 5 |
| Race.AheadTagRace | crates/api/src/objects.rs:608-648 | a concrete race on the seeded database: two PATCHes accepted as versions 2 and 3, the field of the first gone |
| Catalog.SeededTypesAreWellFormed | migrations/0011_catalog.sql:8-73 | all seventeen seeded types have distinct field names and a primary scope parent that no update may write |
| Seed.SeedIsGood | migrations/0003_rbac.sql:37-52 | the seeded types with a workspace, a team, a project, three actors and a case under review after three moves meet the invariants the run theorems start from |
| OneFieldPatch.SettingIsPrepared | crates/api/src/objects.rs:670-744 | a PATCH of one writable field to a value of its kind is prepared, on any sound table, from an admin or from a caller with rank 2 and the field's floor, if the case gate allows it |
| Relations.RelationTable.Create | crates/api/src/relations.rs:74-138 | which of the answers a create gives, exactly, and that the table keeps its unique triples and endpoints |
| Relations.RelationTable.List | crates/api/src/relations.rs:140-192 | the pushing loop shows the touching edges that pass the set lookup, in table order |
| Relations.RelationTable.Remove | crates/api/src/relations.rs:194-226 | an edge goes, alone, if and only if it is there and the caller may edit its subject |
| Relations.ViewableEdgesAreListed | crates/api/src/relations.rs:164-190 | the lookup hides no edge whose far endpoint the object gate would show |
| Relations.ListIsTheObjectGate | crates/api/src/relations.rs:164-190 | for far endpoints with at most eight ancestors the list is exactly what the object gate would give |
| Relations.ListOvershootsBeyondTheCap | crates/api/src/relations.rs:164-190 | in a scope forest some caller is shown an edge whose far endpoint the gate refuses if and only if that endpoint has more than eight ancestors |
| ReachInFull.ListInFull | crates/api/src/relations.rs:140-192 | a list shows exactly the rows with the entity at one end, of the kind asked for, whose other end is below some edge of the caller or of a team it belongs to |
| Orchestrator.FeatureRun.RecordHandoff | crates/api/src/orchestrator.rs:177-294 | the handler in place, answer and state |
| Handoffs.RecordAnswer | crates/api/src/orchestrator.rs:177-224 | a handoff is taken if and only if its sender may edit the case, the run is active, the role owns the phase and the outcome is one of the four; which error otherwise |
| Handoffs.NextHandoff | crates/api/src/orchestrator.rs:225-294 | in any run the next request, if it counts, appends exactly its own row, outcome, counters and kind included, and leads where that outcome leads; if it does not count it changes nothing |
| Handoffs.UnauthorizedRequestsDoNothing | crates/api/src/orchestrator.rs:207 | a run is the same without the requests whose senders may not edit its case |
| Handoffs.FailsAreCounted | crates/api/src/orchestrator.rs:244-251 | the retry counter is the number of failed rows of the gate |
| Orchestrator.EveryRunIsConsistent | crates/api/src/orchestrator.rs:209-294 | in every run the stored phase and status are a replay of the log, and each row has its index as hop, the role of the phase before it and the counters of that moment |
| Orchestrator.StatusOfLog | crates/api/src/orchestrator.rs:225-268 | the status read off the log as a whole: landed by a last ops pass; active while there is no escalate row, no ops pass, no third fail on a gate and no eighth row |
| Orchestrator.BreakerBounds | crates/api/src/orchestrator.rs:225-268 | an active run has at most seven rows and two fails per gate, any run at most eight and three |
| Orchestrator.ClosedRunsNeverChange | crates/api/src/orchestrator.rs:209-214 | no request changes a closed run |
| Orchestrator.LandedRunShape | crates/api/src/orchestrator.rs:31-45 | a landed run has four to eight rows, ends with coder, reviewer and ops passes in that order, and has its architect row first and nowhere else |
| Orchestrator.LandedIsTestedIff | crates/api/src/orchestrator.rs:237-268 | a landed run has a tester row if and only if its first row passed or some row is a test drift |
| Orchestrator.LandsWithoutATester | crates/api/src/orchestrator.rs:243-258 | a run of the other kind: a first-row fail jumps to code and the run lands without a tester |
| RateLimit.RateLimiter.Allow | crates/api/src/ratelimit.rs:39-52 | the call in place, with eviction, reset and the wrapping count |
| RateLimit.EvictionIsInvisible | crates/api/src/ratelimit.rs:42-45 | for any calls in clock order the evicting limiter answers each as one that never evicts |
| RateLimit.WindowAllowsFirstMax | crates/api/src/ratelimit.rs:46-51 | every window of a key lets exactly its first max hits through |
| RateLimit.AdmittedBelowTwiceMax | crates/api/src/ratelimit.rs:39-52 | in any stretch of time no longer than one window fewer than twice max calls of a key get through, and at most max if the window is zero |
| RateLimit.CeilingIsReached | crates/api/src/ratelimit.rs:39-52 | for every max above zero and every window there are calls that reach that bound |
| Tags.ParseUndoesEtag | crates/api/src/objects.rs:61-69 | every 32-bit version comes back from its tag: weak, strong or bare |
| SignedState.UnhexUndoesHex | crates/api/src/oauth.rs:144-156 | decoding gives back any bytes |
| SignedState.HexUndoesUnhexIff | crates/api/src/oauth.rs:144-156 | encoding gives back what was decoded if and only if it was lower-case hex; decoding also reads capitals and plus signs |
| SignedState.VerifiesIff | crates/api/src/oauth.rs:167-174 | a string verifies as a payload if and only if it is that payload, a dot and some spelling of its hash |
| SignedState.VerifyUndoesSign | crates/api/src/oauth.rs:159-174 | any payload comes back, dots in it included |
| SignedState.IssuedIsAdmittedIff | crates/api/src/oauth.rs:359-419 | an issued cookie passes the callback if and only if the state is its own nonce and ten minutes have not gone by |

## Left out

- HTTP routing, verb masks and OPTIONS bodies, media types, JSON parsing of bodies, response bodies, error texts (a 403 on a field carries its name; the model keeps only the kind), health, config, tracing.
- Reading and listing handlers: the field filter and the reach sets behind them are modelled, pagination and search ranking are not.
- `context_role`, notes, timestamps, `created_by` of entities and event logging: no handler decides by them.
- Sessions, dev login, logout, sign-in rows and `claim_admin`, which changes an actor's record, its admin role included, without a version bump; runs with it are not covered. Crowds in `Outsiders` are of actors that exist.
- Connector runs, which stamp a record outside the versioned write path; the outbound HTTP gate.
- Provider exchange, JWT checking and the hash itself in `crates/api/src/oauth.rs`: the keyed hash is any function.
- Role, workflow and field-permission rows are constant: no modelled request changes them.
- Ids are random; minting one twice is taken not to happen, and a create that would is answered with a conflict.
- Each request is one atomic step, except in `Interleaving`, where PUT and PATCH are three, and in `RosterRaces`, where a roster request is two; the SELECTs of one request before its first statement read the tables at one instant. Handoffs of a feature run are not split. Transaction isolation anomalies are not modelled.
- Numbers in records keep only whether they are integers and their value; floats are reals. Strings are sequences of characters; `trim` knows the Unicode white space.
- Workflow states and transitions are lists of strings; a workflow row with other JSON in them is not represented.
- `RateLimit` counts wrap at 32 bits as in a release build. The mutex and its poisoning are not modelled.
- Relations: the listing order is that of insertion, newest first; ties in `created_at` are not represented.
- RateLimit.AdmittedBelowTwiceMax: for fewer than 2^32 calls, as the count wraps.
- SignedState: the cookie is text of ASCII characters, as the header parser requires.
