# EasySynQ: verified migrations, acceptance runner and path selector

This project models the parts of EasySynQ whose correctness is hard to see from reading one function,
and proves what they promise. `dafny verify dfyconfig.toml` checks all of it.

**Reserved retention policies (0077, 0090).** `RetentionTables` has the tables and each bulk statement as
a function; `RetentionDatabase` has the statements as row loops over a mutable database, proved equal to
their set-at-a-time meaning, with rollback. The two migrations share their statements, so a value of type
`Migration` selects the reserved name, the salt, the marker and the join. `RetentionTheorems`,
`RetentionDowngrade`, `RetentionRoundTrip` and `RetentionInterference` say what an upgrade establishes, exactly
when each direction commits, exactly when a round trip is the identity, and that the two migrations do not
disturb each other. `RetentionState`, `RetentionMigrating`, `RetentionUse` and `RetentionRuns` are whole runs:
both migrations going up and down while packs are sealed, imports finished, records captured, policies written
by users and organizations created. `RetentionSweep` has the readers of a policy, above all the sweep that disposes
of records: it never reaches what an upgrade protects. `RetentionNameTexts` ties the symbolic names to the actual
strings and to the LIKE pattern.

**Grading freeze (0055).** `ObjectiveHistory` is the document lifecycle and the capture of readings as a
state machine. A release stamps a time that its caller read earlier, and a capture's `created_at` is when its
transaction began; extra columns remember the stamp and when the effective pointer really moved.
`ObjectiveInvariant` and `ObjectiveCutover` prove its invariant for every history. `GradingBackfill` has the
backfill query and shows exactly which readings it recovers, `GradingStability` which later events change an
answer, `GradingWitnesses` the histories of the ways to miss. `ObjectiveTable` holds the steps against the table of
lifecycle transitions and says who wrote each column last.

**Acceptance runner.** `AcceptanceHost` is a host on which every command may be refused, be killed or end in
an exception that nobody expects, with or without its effect, and where other processes act before every
command. Two hypotheses about the others are stated there: while something is between its inspection and its
removal, nobody puts another thing in its place (`InterfereElsewhere`); and, for the claims that nothing is
left, nobody takes on the run's identity (the setting `Shared`). What is removed is safe without the second.
`AcceptanceRunner` is the staged body with its cleanups; its contract holds for every pattern of failures. The host
keeps a journal of the commands that went through, which only its own methods write, and what a run claims is said
of that journal.
`ManifestWalk`, `ManifestStream`, `Manifests` and `ManifestInputs` are the directory walk and the manifest,
`ManifestBlindSpot` what a directory that cannot be listed hides from it.
`JunitReports` holds both readers of the JUnit tree. `Decimals`, `Splitting`, `Strings`, `Json`, `JsonOrder`,
`HistoryPhases`, `ProviderReceipts` and `HistoryDiagnostics` are the strict gates for what a failed run may
tell.

**Constraint names (0078, 0079, 0081, 0088, 0089).** `ConstraintNames` has the repairs over the live set of
names; `ConstraintRuns` has runs of the chain with the code from before or after the correction.

**Authorization seeds (0004, 0062).** `AuthzTables`, `AuthzSeed`, `AuthzSteward` and `AuthzDatabase`: seeding
that alters nothing, and downgrades under RESTRICT keys.

**Purge markers (0072, 0081).** `PurgeAuthority` is what any run of application statements can do with
column privileges; `PurgeMigration` is the migration that classifies the old markers and narrows the
privileges.

**CHECK bodies (0081, 0082, 0088, 0093).** `CheckLogic` is an evaluator for SQL's three-valued logic with a
sound never-NULL analysis; `CheckBodies` gives for each body exactly the rows that it admits.

**Template seeds (0074).** `TemplateSeeds`: deterministic ids among templates that operators edit;
`TemplateRuns`: whole runs.

**CI path selector.** `PathSelection` and `PathLists`, with the line-by-line reader of `Folding`.

Identifiers are natural numbers or symbolic values, and `gen_random_uuid()` is any unused one. The digest
behind a managed policy's id is a function; it is only asked not to collide on the organizations in use, and
SHA-256 over file contents only on the two streams and contents compared. Random suffixes are parameters of
the migration, so every statement about them is for all suffixes. `updated_at` columns are not modelled, and
`created_at` only where a query reads it.

## What the proofs turned up

- 0077 and 0090: a downgrade aborts on UNIQUE(org_id, name) when an organization has two policies that carry
  its marker and no policy of the reserved name (`TwoMarkedRowsAbort`). It takes users who give their policies
  marked names, which the application does not refuse. Without that, and as long as nobody gives a reserved name
  to a managed row that was retired, no run ever aborts (`StepKeepsInv`).
- 0077 and 0090: the round trip is exact only for targets that started on the organization's default policy;
  the downgrade knows no other place to send them (`RoundTrip`).
- 0055: retirement (T11) leaves `effective_to` NULL, so a version that was retired while it governed has no
  window any more and its readings fall back to the working row (`RetirementLosesReadings`). The migration's
  own comment says that it recovers what governed.
- 0055: before the first cutover, a reading later than the scheduled `effective_from` is given the first
  version although none governed (`GapHandsOutTheFirstVersion`).
- 0055: where the governing version carries no commitment, a reading is given the working row as it is when the
  migration runs, edits since the capture included (`EditRegradesTheReading`).
- 0055: the query goes by stamps, and a stamp is older than the move of the pointer. A reading taken between the
  two is given the version that had not taken over yet (`SweepTakesReadingsOver`); a capture that waited for a
  cutover is given the version before it (`LateReadingsFallBack`). Outside these families and retirement the
  answer is right, as long as releases are stamped in order (`RecoversExactly`, `StaleStampsMakeItChoose`).
- Acceptance runner: the cleanups catch AcceptanceError alone. A resources.json that makes the JSON reader raise
  something else, a PermissionError or a signal ends the run in a traceback; later cleanups get no turn, and no
  cleanup failure is reported. On a host where no command fails and nobody interferes, such a resources.json is
  the only way to escape, and every turn that is due is taken if and only if it is not there (`Runner.Cleanup`).
  A signal during the allocation of the owned directory can leave
  it behind with only the failure reported (`Host.AllocateDirectory`).
- Acceptance runner: validation takes a report with any root element, and the failure summary refuses every root
  but `testsuites` and `testsuite`, and also a large report, one that is not UTF-8 and one with declarations. Such
  a report can be accepted while the summary calls it unavailable (`OddRootIsNotTold`); these are the only
  accepted reports whose mandatory tests are not printed as passed (`AcceptedIsPrinted`).
- Manifests: `os.walk` passes over a directory that it cannot list, so the recheck does not see the files below
  it (`OnlyHiddenRewritesAreMissed`).
- 0074: after an upgrade, a sent notification, an operator's retirement of the seed and a downgrade, the next
  upgrade aborts on the primary key, because ON CONFLICT only absorbs the partial unique index
  (`RetiredSeedBlocksTheUpgrade`).
- Path lists: a key that starts with a dash and a space can be read (after a tab) but not written back
  (`RenderingMeansTheSame`).
- Path selector: an empty change takes neither lane (`OneLane`), and documentation whose name git quotes takes
  the code lane (`QuotedDocsAreCode`).

## Model

| member | source | states |
|---|---|---|
| RetentionDatabase.Database.Upgrade | migrations/versions/0077_sealed_pack_retention.py:30-125 | from any valid tables: commits exactly when the renames keep UNIQUE(org_id, name), otherwise rolls back; after a commit every org has one permanent managed policy of the reserved name and every target record is pinned to it and kept for good |
| RetentionDatabase.Database.Downgrade | migrations/versions/0077_sealed_pack_retention.py:128-245 | commits exactly when both renames keep the name unique, otherwise rolls back; keys and references hold either way |
| RetentionDatabase.Database.MoveCollisionsAside | migrations/versions/0077_sealed_pack_retention.py:34-63 | the row-by-row rename equals the set-at-a-time UPDATE, and fails exactly when its result breaks the unique name |
| RetentionDatabase.Database.UpsertManaged | migrations/versions/0077_sealed_pack_retention.py:64-112 | after the first statement the INSERT can only conflict on id: it never fails, and leaves exactly the managed rows over the old ones, each of them permanent in every column |
| RetentionDatabase.Database.RepinTargets | migrations/versions/0077_sealed_pack_retention.py:113-125 | the joined UPDATE pins each target to the one policy of its org with the reserved name |
| RetentionDatabase.Database.UnpinTargets | migrations/versions/0077_sealed_pack_retention.py:130-159 | only targets that are still pinned to their managed row move, and only to their org's default policy |
| RetentionDatabase.Database.DeleteUnreferenced | migrations/versions/0077_sealed_pack_retention.py:163-193 | a managed row goes exactly when no record, document type or disposition refers to it, whatever the order of rows |
| RetentionDatabase.Database.RetireManaged | migrations/versions/0077_sealed_pack_retention.py:194-223 | a managed row that stays gives up the reserved name; fails exactly on a taken suffix |
| RetentionDatabase.Database.RestoreNames | migrations/versions/0077_sealed_pack_retention.py:226-245 | marked rows get the reserved name back where no row of their org holds it when the statement starts |
| RetentionTheorems.UpgradeEstablishes | migrations/versions/0077_sealed_pack_retention.py:30-125 | valid tables stay valid, and the promise of the migration holds for every org and every target: its policy has the action RETAIN_PERMANENT and the duration PERMANENT, is active, needs no review, has no lock period and attaches to no new capture |
| RetentionTheorems.UpgradeCommitsExactly | migrations/versions/0077_sealed_pack_retention.py:37-63 | the upgrade aborts exactly when another row of the org already carries the name a colliding row is moved to |
| RetentionTheorems.UpgradeHasShape | migrations/versions/0077_sealed_pack_retention.py:30-125 | row by row: user policies change their name at most, non-targets and all other tables do not change |
| RetentionTheorems.ShapeKeepsValid | migrations/versions/0077_sealed_pack_retention.py:30-125 | no reference is broken and no org or settings of a policy change |
| RetentionDowngrade.DowngradeCommitsExactly | migrations/versions/0077_sealed_pack_retention.py:194-245 | the downgrade aborts exactly on a taken suffix, or when an org whose reserved name is free has two rows with the marker |
| RetentionDowngrade.TwoMarkedRowsAbort | migrations/versions/0077_sealed_pack_retention.py:226-245 | a valid database that the downgrade cannot leave |
| RetentionDowngrade.DowngradeKeepsValid | migrations/versions/0077_sealed_pack_retention.py:128-245 | a committed downgrade keeps unique names and every foreign key |
| RetentionDowngrade.DowngradeHasShape | migrations/versions/0077_sealed_pack_retention.py:128-245 | row by row: which rows stay, and the one name each of them has afterwards |
| RetentionDowngrade.OnlyManagedPinsMove | migrations/versions/0077_sealed_pack_retention.py:130-159 | a record moves only from the managed policy of its org, and only to the default policy; a target pinned elsewhere keeps its policy |
| RetentionRoundTrip.RoundTrip | migrations/versions/0077_sealed_pack_retention.py:30-245 | up and down again is the identity on all tables if and only if every target record started on its org's default policy; the upgrade, and the downgrade of such a trip, commit whatever the suffixes are |
| RetentionRoundTrip.PoliciesRoundTrip | migrations/versions/0077_sealed_pack_retention.py:30-245 | after any use in between, the policies come back exactly if and only if each managed row was used by targets of orgs with a default policy alone |
| RetentionRoundTrip.PristineUpgradeCommits | migrations/versions/0077_sealed_pack_retention.py:34-63 | from tables without a marked name no random suffix can make the upgrade fail |
| RetentionInterference.EstablishedSurvivesUpgrade | migrations/versions/0090_import_report_retention.py:31-126 | with disjoint targets, the upgrade of one migration keeps the other's promise |
| RetentionInterference.EstablishedSurvivesDowngrade | migrations/versions/0090_import_report_retention.py:128-244 | and so does its downgrade |
| RetentionInterference.HeldSurvivesUpgrade | migrations/versions/0090_import_report_retention.py:31-126 | the same when some organizations have no managed row yet |
| RetentionInterference.HeldSurvivesDowngrade | migrations/versions/0090_import_report_retention.py:128-244 | the same on the way down |
| RetentionInterference.UpgradesCommute | migrations/versions/0090_import_report_retention.py:31-126 | the two upgrades lead to the same tables in either order |
| RetentionRuns.StepKeepsInv | migrations/versions/0090_import_report_retention.py:31-244 | every step of migrations and users keeps the invariant; no upgrade, downgrade, sealing or import report ever aborts |
| RetentionRuns.EveryRun | migrations/versions/0077_sealed_pack_retention.py:30-245 | for every run of both migrations up and down, with packs sealed, imports finished, records captured, policies written and organizations created in between: keys hold, each user's policy is what its user last wrote but for the marker in its name, no record but a target is pinned elsewhere, and every migration left up has its promise in force, also for new packs and reports |
| RetentionRuns.RunsThatEndDown | migrations/versions/0077_sealed_pack_retention.py:226-245 | once both are down each user's policy is exactly what its user last wrote, and what it was at the start if nobody edited it |
| RetentionRuns.UsersAsWritten | apps/api/src/easysynq_api/services/records/retention_policies.py:219-329 | only an edit of a policy changes what is remembered as written |
| RetentionRuns.RecordsAsCaptured | migrations/versions/0077_sealed_pack_retention.py:113-159 | what is remembered of a captured record never changes |
| RetentionSweep.SweepsSpareTargets | apps/api/src/easysynq_api/services/records/repository.py:771-805 | at every point of every run, with a migration up, the sweep never selects a target of it: packs and reports from before the upgrade and later ones |
| RetentionSweep.ForGoodIsKept | apps/api/src/easysynq_api/domain/records/retention.py:112-139 | for the readers of a permanent policy: never a candidate, never elapsed, no finite lock, no disposal by hand, no attachment to a new capture |
| RetentionSweep.OthersAreSweptAsBefore | migrations/versions/0077_sealed_pack_retention.py:64-125 | what the upgrade does not protect is swept as before |
| RetentionSweep.Sweep | apps/api/src/easysynq_api/services/records/disposition.py:1057-1137 | each record that nobody else has locked becomes what its policy and its clock say, whichever disposals fail |
| RetentionSweep.SweepIsLawful | apps/api/src/easysynq_api/services/records/disposition.py:1082-1127 | the sweep changes a record exactly when it is not on hold, not permanent, elapsed, and due for its next step; no lock is broken |
| RetentionSweep.HandIsLawful | apps/api/src/easysynq_api/services/records/disposition.py:487-510 | by hand nothing permanent is disposed of, and nothing on hold or locked is destroyed |
| RetentionUse.EnsuringKeepsInv | apps/api/src/easysynq_api/services/records/repository.py:508-574 | while the migration is up, getting or creating the managed policy renames nothing, breaks no key and keeps both promises |
| RetentionUse.EnsuringMovesCollisions | apps/api/src/easysynq_api/services/records/repository.py:508-574 | on any tables: only a row of the org with the reserved name is moved aside, with its settings, and the managed row is permanent again |
| RetentionUse.StepProduce | apps/api/src/easysynq_api/services/packs/build.py:418-441 | sealing a pack, or finishing an import, never fails on a name; its record is pinned to the managed policy while the migration is up |
| RetentionUse.StepAdd | apps/api/src/easysynq_api/services/records/retention_policies.py:167-216 | a new policy with a free, unmarked name that is not reserved keeps the invariant |
| RetentionState.AdmittedAdditions | apps/api/src/easysynq_api/services/records/retention_policies.py:167-216 | a new policy comes in with exactly the names that are not taken and not reserved by a migration that is up; marked names are outside the runs |
| RetentionUse.StepEdit | apps/api/src/easysynq_api/services/records/retention_policies.py:219-329 | an edit keeps the invariant when it leaves managed names and the default name alone and gives no marked name |
| RetentionState.AdmittedEdits | apps/api/src/easysynq_api/services/records/retention_policies.py:219-329 | an edit comes in exactly where no reserved name is touched and no taken or default name is given; marked names are outside the runs |
| RetentionNameTexts.NamesAreTexts | migrations/versions/0077_sealed_pack_retention.py:25-27 | comparing names as constructors is comparing them as the texts of the source |
| RetentionNameTexts.LikeIsAside | migrations/versions/0077_sealed_pack_retention.py:231-233 | a text matches the LIKE pattern for a row exactly when it is that row's marked name |
| RetentionNameTexts.TextOfParse | migrations/versions/0077_sealed_pack_retention.py:23-27 | every text of a name is read as one name and printed back |
| GradingBackfill.BackfillRefinesHistory | migrations/versions/0055_objective_grading_freeze.py:61-102 | after any history, a recoverable reading gets the basis its capture froze exactly when the governing version carries a commitment or the working row is unedited |
| GradingBackfill.RecoversExactly | migrations/versions/0055_objective_grading_freeze.py:84-98 | with releases stamped in order, the query recovers the version that held the pointer at capture if and only if that version was not retired in office and no release lies across the reading, or, for an ungoverned reading, no version claims its time or one retired in office does |
| GradingBackfill.UndisturbedIsRecovered | migrations/versions/0055_objective_grading_freeze.py:84-98 | a governed reading that no release lies across is recovered in whatever order releases were stamped |
| GradingBackfill.OneAnswer | migrations/versions/0055_objective_grading_freeze.py:85-96 | with releases stamped in order windows are disjoint: LIMIT 1 never chooses |
| GradingStability.AnswersAreStable | migrations/versions/0055_objective_grading_freeze.py:85-96 | an event leaves the answer for a time as it was if and only if it is neither a release that counts from that time or an earlier one, nor the retirement of the version that answers |
| GradingStability.DisturbedAnswer | migrations/versions/0055_objective_grading_freeze.py:85-96 | a release takes such a time over, a retirement silences it |
| GradingStability.OrderIsKept | apps/api/src/easysynq_api/services/vault/lifecycle.py:528-545 | stamps stay in order if and only if no release takes over from a version with a later stamp |
| GradingBackfill.FreezesExactly | migrations/versions/0055_objective_grading_freeze.py:62-78 | when the two CASE expressions freeze what the capture froze |
| GradingBackfill.Governing | migrations/versions/0055_objective_grading_freeze.py:84-98 | the scan returns what ORDER BY ... DESC LIMIT 1 returns |
| GradingBackfill.Measurements.Backfill | migrations/versions/0055_objective_grading_freeze.py:61-102 | every objective-bound reading gets the basis of its picked version, every other row keeps its NULLs |
| GradingWitnesses.RetirementLosesReadings | migrations/versions/0055_objective_grading_freeze.py:89-94 | a version retired in office finds no window: the reading it governed falls back to the working row |
| GradingWitnesses.GapHandsOutTheFirstVersion | migrations/versions/0055_objective_grading_freeze.py:92-94 | a reading captured before the first cutover but after its scheduled start, which nothing governed, is handed the first version |
| GradingWitnesses.EditRegradesTheReading | migrations/versions/0055_objective_grading_freeze.py:62-82 | captured, then the working row edited in a revision: where no commitment was frozen the backfill freezes the edited basis |
| GradingWitnesses.EditedVaultIsReached | apps/api/src/easysynq_api/api/objectives.py:557-620 | the history of that reading is reachable |
| GradingWitnesses.FirstReleaseIsReached | apps/api/src/easysynq_api/services/vault/lifecycle.py:459-597 | the histories of the two findings are reachable |
| GradingWitnesses.SecondApprovalIsReached | apps/api/src/easysynq_api/services/vault/lifecycle.py:459-597 | the history before a second release is reachable |
| GradingWitnesses.SweepTakesReadingsOver | apps/api/src/easysynq_api/services/vault/lifecycle.py:635-675 | a sweep stamps 20 and its cutover commits at 30: the reading of 25 is handed the version that had not taken over |
| GradingWitnesses.LateReadingsFallBack | apps/api/src/easysynq_api/services/objectives/service.py:162-287 | a capture that began at 15 and waited for a cutover stamped 20 read the new version and is handed the old one |
| GradingWitnesses.StaleStampsMakeItChoose | migrations/versions/0055_objective_grading_freeze.py:95-96 | with a stale stamp two versions answer, LIMIT 1 chooses, and the exact condition fails |
| ObjectiveTable.StepFollowsTheTable | apps/api/src/easysynq_api/domain/vault/lifecycle.py:72-97 | every transition of every history is one of the table, from and to the states that it lists |
| ObjectiveTable.NothingOffTheTable | apps/api/src/easysynq_api/domain/vault/lifecycle.py:105-111 | what is not in the table does not happen |
| ObjectiveTable.OthersKeepTheirState | apps/api/src/easysynq_api/services/vault/lifecycle.py:459-597 | no other document changes its state, and no other version but the one that a release supersedes |
| ObjectiveTable.WorkingAsWritten | apps/api/src/easysynq_api/api/objectives.py:557-620 | after any run the working row is what the last creation or edit wrote |
| ObjectiveTable.EditsComeInDrafts | apps/api/src/easysynq_api/api/objectives.py:573-580 | a working row is edited and a version checked in only in a draft or a revision |
| ObjectiveTable.DueAsScheduled | apps/api/src/easysynq_api/services/vault/lifecycle.py:213-243 | after any run a version is due as it was scheduled last, or from the stamp of its release |
| ObjectiveCutover.StepKeepsInv | apps/api/src/easysynq_api/services/vault/lifecycle.py:459-597 | every lifecycle event keeps links, windows, pointers and captured readings consistent |
| ObjectiveCutover.RunKeepsInv | apps/api/src/easysynq_api/services/vault/lifecycle.py:459-597 | and so does every history |
| ObjectiveCutover.ReleaseKeepsInv | apps/api/src/easysynq_api/services/vault/lifecycle.py:523-545 | the cutover stamps the prior version's effective_to and link with the time its caller read, no later than the moment the pointer moves |
| ObjectiveCutover.RetireKeepsInv | apps/api/src/easysynq_api/services/vault/lifecycle.py:325-441 | retirement clears the pointer and leaves effective_to alone |
| ObjectiveCutover.CaptureKeepsInv | apps/api/src/easysynq_api/services/objectives/service.py:162-287 | a capture freezes the basis of the version that the pointer is on when it reads it; created_at is when it began |
| AcceptanceRunner.Runner.Run | scripts/run-audit-external-acceptance.py:883-1075 | for every pattern of failures, escaping exceptions and interference: exit 0 means that the host was asked for every command in order, both input manifests were read before the build and again after the tests with equal results, and nothing of the run is left; a failure names the stage of the first command that did not go through; a report without a cleanup failure leaves nothing, but for a directory whose allocation was cut short; every turn that was due is taken unless the run ends in a traceback; what is removed carries the marks the source asks for; the reported stage did not pass; and where nothing fails and nobody interferes, the exit code is 0 |
| AcceptanceRunner.RunAcceptance | scripts/run-audit-external-acceptance.py:883-906 | the same from a fresh run id, with the runner that shows it |
| AcceptanceRunner.Runner.Body | scripts/run-audit-external-acceptance.py:902-1018 | the try body keeps what the flags say about the host, and ends without an error only after every command of every stage went through, and otherwise names the stage where it stopped |
| AcceptanceRunner.Runner.TakeBoth | scripts/run-audit-external-acceptance.py:914-915 | the two manifests are read one after the other, from the inputs as they are then, while others act in between |
| AcceptanceRunner.Runner.Begin | scripts/run-audit-external-acceptance.py:902-970 | the commands before the tests, in their order, with the image built from and labelled with the digest that was read |
| AcceptanceRunner.Runner.Conclude | scripts/run-audit-external-acceptance.py:972-1018 | the tests of that image, the second reading of both manifests, the exit code and the report, in this order |
| AcceptanceRunner.Runner.Prepare | scripts/run-audit-external-acceptance.py:902-907 | tools before the directory, the directory before anything else |
| AcceptanceRunner.Runner.TakeManifests | scripts/run-audit-external-acceptance.py:912-928 | both manifests are read, their digests recorded, and the source digest is the one that was read for the build |
| AcceptanceRunner.Runner.BuildImage | scripts/run-audit-external-acceptance.py:930-947 | build_started is raised before the command, so a failed build is cleaned up |
| AcceptanceRunner.Runner.IdentifyImage | scripts/run-audit-external-acceptance.py:948-970 | the image is known by its labels and tag before it is used |
| AcceptanceRunner.Runner.RunHarness | scripts/run-audit-external-acceptance.py:972-1008 | harness_started is raised before the command |
| AcceptanceRunner.Runner.Recheck | scripts/run-audit-external-acceptance.py:1009-1013 | both manifests are read again after the tests, and the recheck passes if and only if they are equal to the first ones, whatever the harness returned |
| AcceptanceRunner.Runner.Judge | scripts/run-audit-external-acceptance.py:1014-1018 | only a zero exit code and an accepted report end the run well; the stage tells which of them it was |
| AcceptanceRunner.Runner.Cleanup | scripts/run-audit-external-acceptance.py:1023-1061 | refusals are remembered and the next turn is taken all the same; an exception other than AcceptanceError ends it, and it ends that way if and only if its last command raised one; without refusal and escape nothing of the run is left; on a calm host a cleanup escapes if and only if resources.json was unreadable before, every due turn is taken if and only if it was not, and if it was then the turn of the containers is the last and image and directory stay |
| AcceptanceRunner.Runner.ReadSession | scripts/run-audit-external-acceptance.py:765-781 | the session comes from a record that names this run; a record that the JSON reader chokes on escapes |
| AcceptanceRunner.Runner.RemoveOne | scripts/run-audit-external-acceptance.py:806-823 | a listed container is removed only if a second look shows the session |
| AcceptanceRunner.Runner.CleanupContainers | scripts/run-audit-external-acceptance.py:784-823 | done means no container of the session is left; only containers with the recorded session are removed |
| AcceptanceRunner.Runner.CleanupImage | scripts/run-audit-external-acceptance.py:826-849 | done means no image of the run is left; what is removed has its tag, both labels and the id found before |
| AcceptanceRunner.Runner.CleanupDirectory | scripts/run-audit-external-acceptance.py:852-873 | done means no directory of the run is left; what is removed is real and records the run |
| AcceptanceHost.Host.Interfere | scripts/run-audit-external-acceptance.py:784-873 | other processes may do anything; on a shared host all but take on this run's identity |
| AcceptanceHost.Host.InterfereElsewhere | scripts/run-audit-external-acceptance.py:806-849 | the stated hypothesis for the window between look and removal: the thing may vanish but nobody puts another in its place |
| AcceptanceHost.Host.AllocateDirectory | scripts/run-audit-external-acceptance.py:276-292 | a refused allocation may leave an unmarked directory, a signalled one a marked directory that nobody knows |
| AcceptanceHost.Host.RemoveTree | scripts/run-audit-external-acceptance.py:869-873 | a removal that fails part way may have lost the ownership record |
| ManifestWalk.Walk | scripts/run-audit-external-acceptance.py:338-358 | returns exactly the files the walk comes to, and refuses exactly when a link or special file is in the way; a directory that cannot be listed contributes nothing and refuses nothing |
| ManifestWalk.KeptDirectories | scripts/run-audit-external-acceptance.py:344-351 | a link among the directories is refused even under an excluded name |
| ManifestWalk.OwnFiles | scripts/run-audit-external-acceptance.py:353-357 | a file that the suffix deselects is not looked at |
| ManifestWalk.EligibleIsWanted | scripts/run-audit-external-acceptance.py:338-358 | the walk comes to exactly the files that listable directories lead to, below no cache directory and, where only Python counts, with the suffix .py |
| ManifestStream.StreamIsInjective | scripts/run-audit-external-acceptance.py:368-371 | the byte stream is uniquely decodable for NUL-free paths |
| Manifests.TextIsInjective | scripts/run-audit-external-acceptance.py:366 | two paths never have the same POSIX text |
| Manifests.Sorted | scripts/run-audit-external-acceptance.py:362 | the sorted order of a set of paths |
| Manifests.TakeManifest | scripts/run-audit-external-acceptance.py:361-373 | succeeds exactly when every path can be read, and hashes the sorted distinct paths with their digests |
| Manifests.ManifestOfASet | scripts/run-audit-external-acceptance.py:362 | order and repetition of the input paths do not matter |
| Manifests.RecheckIsExact | scripts/run-audit-external-acceptance.py:1010-1013 | two manifests are equal exactly when the same paths are there with the same digests |
| ManifestInputs.InputManifest | scripts/run-audit-external-acceptance.py:376-400 | the manifest of the fixed files and of every eligible file below the walked directories, and of no other; fails exactly when a fixed file cannot be read or a walk is refused |
| ManifestInputs.RecheckSeesEveryChange | scripts/run-audit-external-acceptance.py:1010-1013 | without collisions, the recheck passes exactly when no file that the walks find was added, removed or changed |
| ManifestBlindSpot.RecheckOfListedTrees | scripts/run-audit-external-acceptance.py:1010-1013 | where nothing is hidden below an unlistable directory, it passes exactly when no input file was added, removed or changed |
| ManifestBlindSpot.WhatTheRecheckMisses | scripts/run-audit-external-acceptance.py:342 | after a recheck that passes, the input files are the same if and only if the hidden ones are |
| ManifestBlindSpot.OnlyHiddenRewritesAreMissed | scripts/run-audit-external-acceptance.py:342 | the manifest survives the rewriting of an input file if and only if the file is hidden |
| ManifestBlindSpot.ListedHidesNothing | scripts/run-audit-external-acceptance.py:338-358 | nothing is hidden where every directory on the way can be listed |
| ManifestInputs.EligibleIsReadable | scripts/run-audit-external-acceptance.py:310-335 | whatever the walk returns can be digested again |
| Strings.OneSortedOrder | scripts/run-audit-external-acceptance.py:362 | a set of paths has one sorted order |
| JunitReports.Validate | scripts/run-audit-external-acceptance.py:445-468 | accepts exactly the reports with tests, clean counters, no unpassed case and every mandatory test |
| JunitReports.AcceptedInTheTree | scripts/run-audit-external-acceptance.py:445-468 | over the tree and the name attributes alone: counters absent or zero, no failure, error or skip below a case, and for every mandatory test a case of its name or of its name with parameters in brackets |
| JunitReports.Summarize | scripts/run-audit-external-acceptance.py:723-757 | each mandatory test gets the worst status over all its parameterizations and repeats |
| JunitReports.FailureSummary | scripts/run-audit-external-acceptance.py:711-762 | what is printed about the harness and the report: one status for each mandatory test if the report is one that the summary reads, and otherwise that it is unavailable; every line is in a closed vocabulary |
| JunitReports.PrintedStatus | scripts/run-audit-external-acceptance.py:744-757 | a status is printed for a mandatory test exactly when it is the worst that its cases show |
| JunitReports.PrintedInTheTree | scripts/run-audit-external-acceptance.py:723-757 | over the tree alone: one failed parameterization makes the test failed, one with an error makes it an error, and a test without a case is missing |
| JunitReports.ExitIsTold | scripts/run-audit-external-acceptance.py:716-722 | the exit code is told from -255 to 255; without one it is unavailable |
| JunitReports.ReadersAgree | scripts/run-audit-external-acceptance.py:445-493 | of the files that the summary reads, validation accepts exactly those with clean counters, no other case unpassed and every mandatory test printed as passed; of a file that the summary refuses no test is printed as passed |
| JunitReports.AcceptedIsPrinted | scripts/run-audit-external-acceptance.py:471-491 | for an accepted file every mandatory test is printed as passed if and only if the file is bounded and UTF-8, declares nothing and has a testsuites or testsuite root |
| JunitReports.OddRootIsNotTold | scripts/run-audit-external-acceptance.py:489-490 | a file with another root that is accepted and called unavailable |
| JunitReports.OrderDoesNotMatter | scripts/run-audit-external-acceptance.py:744-756 | a status depends on what the cases show, not on their order |
| JunitReports.NodesAreThoseWithin | scripts/run-audit-external-acceptance.py:454-464 | iteration visits every element of the tree and no other |
| JunitReports.Collect | scripts/run-audit-external-acceptance.py:725-742 | the statuses collected for a name are those that its cases show |
| HistoryPhases.GateIsExact | scripts/run-audit-external-acceptance.py:511-574 | a payload is accepted, with this reading, exactly when it is the sorted compact print of this valid record |
| HistoryPhases.PrintRecordIsInjective | scripts/run-audit-external-acceptance.py:527 | two valid records never print alike |
| Json.LoadsOfPrint | scripts/run-audit-external-acceptance.py:524-527 | parsing a print gives the value back |
| Json.PrintIsInjective | scripts/run-audit-external-acceptance.py:527 | a print determines its value |
| JsonOrder.DumpsIgnoresOrder | scripts/run-audit-external-acceptance.py:527 | objects with the same members are printed alike, in whatever order they were read |
| JsonOrder.LoadsOfDumps | scripts/run-audit-external-acceptance.py:494-500 | what was dumped is read back sorted, without duplicate keys, and dumps the same again |
| JsonOrder.SortTwice | scripts/run-audit-external-acceptance.py:527 | sorting keys is idempotent at every depth |
| HistoryPhases.DurationsFound | scripts/run-audit-external-acceptance.py:546-555 | an object accepted as durations is the one that those durations print |
| HistoryDiagnostics.PhaseDiagnostic | scripts/run-audit-external-acceptance.py:511-523 | the record is taken from the one line that mentions the prefix once, and from nothing else |
| HistoryDiagnostics.PayloadIsExact | scripts/run-audit-external-acceptance.py:86-88 | a line holds a payload exactly when it is progress marks, the prefix and the payload, within 4096 bytes |
| ProviderReceipts.ReadReceipt | scripts/run-audit-external-acceptance.py:598-686 | accepts exactly the printed forms of consistent receipts, and reads back what was printed |
| ProviderReceipts.ReadValues | scripts/run-audit-external-acceptance.py:620-630 | the fields are split exactly, in order, with non-empty values |
| ProviderReceipts.DecimalIsExact | scripts/run-audit-external-acceptance.py:632-644 | the decimal check accepts exactly the canonical prints of 0..maximum |
| ProviderReceipts.InterpretIsExact | scripts/run-audit-external-acceptance.py:646-680 | a record is consistent exactly when its printed values are accepted |
| ProviderReceipts.ValuesAreInjective | scripts/run-audit-external-acceptance.py:681-686 | the emitted values determine the receipt |
| Decimals.PrintOfValue | scripts/run-audit-external-acceptance.py:634-641 | the canonical numerals are exactly the printed ones |
| Decimals.ValueOfPrint | scripts/run-audit-external-acceptance.py:641 | reading a print gives the number back |
| Splitting.SplitOfJoin | scripts/run-audit-external-acceptance.py:620 | splitting undoes joining |
| Splitting.JoinOfSplit | scripts/run-audit-external-acceptance.py:620 | joining undoes splitting |
| HistoryDiagnostics.FindReceipt | scripts/run-audit-external-acceptance.py:605-617 | exactly one line may mention the receipt, and all of that line but a white-space margin must be one |
| HistoryDiagnostics.ReceiptBodyIsExact | scripts/run-audit-external-acceptance.py:93-96 | a line is a receipt exactly when it is the assertion with it, perhaps after an E and white space, within 1024 bytes |
| HistoryDiagnostics.FailedCasesAre | scripts/run-audit-external-acceptance.py:689-695 | the cases that count are those of exactly the test's name with an error or a failure below them |
| HistoryDiagnostics.ProviderDiagnostic | scripts/run-audit-external-acceptance.py:598-686 | a receipt is told exactly when the failure text holds its print and mentions no other |
| HistoryDiagnostics.FailureSource | scripts/run-audit-external-acceptance.py:577-595 | the last frame of the test's own file with a possible line number |
| HistoryDiagnostics.HistoryLines | scripts/run-audit-external-acceptance.py:689-708 | silent unless the test failed; if it failed once, the record, the receipt and the line that its texts hold, and unavailable three times if it failed more often |
| HistoryDiagnostics.CompleteSummary | scripts/run-audit-external-acceptance.py:711-762 | all that a failed run prints: the lines about the report and then those about the history test, each of them in a closed vocabulary |
| HistoryDiagnostics.AcceptedSummary | scripts/run-audit-external-acceptance.py:445-762 | for an accepted report nothing is printed about the history test, and every mandatory test as passed if and only if the summary reads the report |
| ConstraintNames.Table.Normalize | migrations/versions/0089_constraint_name_coherence.py:80-104 | one canonical constraint with the surviving expression, no doubled name, every other name as it was; no statement can fail |
| ConstraintNames.Table.NormalizeOnly | migrations/versions/0079_migration_orm_coherence.py:86-110 | the three-way repair of the one doubled name it knows |
| ConstraintNames.Table.DropSpellings | migrations/versions/0078_record_content_hash_version.py:62-72 | both spellings go, if there |
| ConstraintNames.Table.DropByPrefix | migrations/versions/0088_bootstrap_credential_receipt.py:40-59 | every spelling with the doubled prefix goes, and the canonical one |
| ConstraintNames.RepairIsAFunction | migrations/versions/0089_constraint_name_coherence.py:80-104 | the result of the repair is determined |
| ConstraintNames.RepairIsIdempotent | migrations/versions/0089_constraint_name_coherence.py:80-104 | repairing again changes nothing |
| ConstraintNames.RepairsAgree | migrations/versions/0079_migration_orm_coherence.py:86-110 | the repairs of 0079 and 0089 agree exactly when the only doubled name is the one 0079 knows |
| ConstraintRuns.EveryRunIsGood | migrations/versions/0089_constraint_name_coherence.py:1-22 | over any run up and down with the code from before or after the correction: one physical constraint while its column or table exists, none before, canonical from its repair on (0079 or 0089), and every other constraint untouched |
| ConstraintRuns.StepIsGood | migrations/versions/0081_pending_purge_authority.py:128-148 | each upgrade and tolerant downgrade keeps that |
| ConstraintRuns.RepairIsGood | migrations/versions/0079_migration_orm_coherence.py:86-110 | each of the two repairs leaves its one constraint under the canonical name |
| AuthzDatabase.Database.DowngradeSeed | migrations/versions/0004_seed_authz.py:471-501 | no DELETE meets a RESTRICT key, and everybody's authority is what it was |
| AuthzSeed.DowngradeKeepsAuthority | migrations/versions/0004_seed_authz.py:476-501 | every user holds exactly the same grants and overrides |
| AuthzSeed.DowngradeRemovesExactly | migrations/versions/0004_seed_authz.py:479-501 | a role goes if and only if it has a seeded name and no row assigns it, a grant if and only if its role goes, a permission if and only if it has a seeded key and no grant or override is left that gives it; everything else stays as it is |
| AuthzSeed.SeedRoundTrip | migrations/versions/0004_seed_authz.py:405-501 | the downgrade after the upgrade is the identity on tables where no seeded key and no seeded name was in use |
| AuthzSeed.DowngradeKeepsValid | migrations/versions/0004_seed_authz.py:471-501 | keys and unique constraints survive |
| AuthzDatabase.Database.UpgradeSeed | migrations/versions/0004_seed_authz.py:389-468 | no existing row is altered, only rows of the seed are added, the seed is complete, and a second upgrade changes nothing |
| AuthzDatabase.Database.GrantRows | migrations/versions/0004_seed_authz.py:453-463 | the rows to insert give each bundle its keys and nothing else |
| AuthzTables.InsertAll | migrations/versions/0004_seed_authz.py:418-422 | ON CONFLICT DO NOTHING: existing rows stay, every row has a match afterwards, the constraint holds |
| AuthzDatabase.Database.UpgradeSteward | migrations/versions/0062_register_steward_role.py:61-121 | every organization gets the role with every key that exists; only roles of that name and their grants of those keys are added |
| AuthzDatabase.Database.DowngradeSteward | migrations/versions/0062_register_steward_role.py:124-138 | assignments and grants go before the role, so no key is violated |
| AuthzSteward.RoundTrip | migrations/versions/0062_register_steward_role.py:61-138 | up and down again is the identity if and only if the role name was unused |
| AuthzSteward.WhatTheDowngradeTakes | migrations/versions/0062_register_steward_role.py:124-138 | users lose what they had through that role and nothing else |
| PurgeAuthority.EveryRunTraces | migrations/versions/0081_pending_purge_authority.py:102-125 | for every run of statements with the narrow privileges, each marker is an untouched marker of the start under some id, or a new one bound to its authority |
| PurgeAuthority.UnboundOnlyShrinks | migrations/versions/0081_pending_purge_authority.py:102-125 | unbound markers are only ever ones present at migration, and only get fewer |
| PurgeAuthority.BoundStaysBound | migrations/versions/0072_disposition_append_only.py:35-46 | a bound marker keeps its shape and its references, and no disposition event ever changes |
| PurgeAuthority.StepTraces | migrations/versions/0081_pending_purge_authority.py:102-125 | the same for one statement |
| PurgeAuthority.BroadInsertForges | migrations/versions/0073_pending_blob_purge.py:50-60 | with the earlier privileges one INSERT forges an unbound marker |
| PurgeAuthority.BroadUpdateRewritesEvents | migrations/versions/0072_disposition_append_only.py:1-22 | with the earlier privileges the event behind a marker can be rewritten, and an event that no marker refers to deleted |
| PurgeAuthority.ServiceInsertGoesThrough | migrations/versions/0081_pending_purge_authority.py:109-119 | the narrow privileges still let the service insert a marker with its authority, and it is bound |
| PurgeAuthority.NarrowInsert | migrations/versions/0081_pending_purge_authority.py:109-119 | an INSERT under them cannot name the discriminator and stores the target and authority that it names |
| PurgeAuthority.NarrowUpdate | migrations/versions/0081_pending_purge_authority.py:120-121 | an UPDATE under them changes no column but the id |
| PurgeAuthority.NewCell | migrations/versions/0081_pending_purge_authority.py:34-64 | column by column: an INSERT stores what it names, a marker is bound unless it says otherwise, and has no authority that is not named |
| PurgeAuthority.ChangedCell | migrations/versions/0073_pending_blob_purge.py:50-60 | column by column: an UPDATE takes over what it names and keeps the rest |
| PurgeMigration.PurgeTable.Upgrade | migrations/versions/0081_pending_purge_authority.py:34-125 | every old marker becomes an unbound one with its target unchanged, and the constraints hold when they are added |
| PurgeMigration.PurgeTable.Downgrade | migrations/versions/0081_pending_purge_authority.py:128-167 | what the markers ask for stays, what authorizes them goes |
| PurgeMigration.PurgeTable.ClassifyAsLegacy | migrations/versions/0081_pending_purge_authority.py:53-57 | rows without a classification become legacy, others stay |
| PurgeMigration.UpAndDown | migrations/versions/0081_pending_purge_authority.py:34-167 | both upgrades leave the narrow privileges, and an untouched table comes back |
| PurgeMigration.OnlyOldMarkersAreUnbound | migrations/versions/0081_pending_purge_authority.py:48-57 | after the migration, every unbound marker of every run is an old marker with its old target |
| PathSelection.DocsLane | scripts/ci-changed-paths.py:124-140 | the docs lane is taken exactly when something changed, all of it is documentation under names that git does not quote, and none of it is listed as code |
| PathSelection.QuotedIsNoDocs | scripts/ci-changed-paths.py:77-96 | a path that git quotes is never documentation, any other is reported as it is |
| PathSelection.QuotedDocsAreCode | scripts/ci-changed-paths.py:77-96 | documentation under a quoted name takes the code lane |
| PathSelection.DecidePullRequest | scripts/ci-changed-paths.py:99-140 | the same from the trees of a pull request alone, which needs exactly two parents |
| PathSelection.TreePatternsSelectWholeComponents | scripts/ci-changed-paths.py:64-74 | `<dir>/**` selects exactly the paths whose components have those of the directory as a proper prefix |
| PathSelection.TreePatternSelects | scripts/ci-changed-paths.py:64-70 | a directory with the tree marker selects exactly what starts with the directory and a slash |
| PathSelection.ExactPatternSelects | scripts/ci-changed-paths.py:71-74 | any other pattern selects itself alone, or is an error if it has an asterisk |
| PathSelection.Matches | scripts/ci-changed-paths.py:64-74 | the first selecting pattern decides; an unsupported pattern before it is an error |
| PathSelection.Decide | scripts/ci-changed-paths.py:124-146 | the flags of every event; an error is only ever about an unsupported pattern |
| PathSelection.OneLane | scripts/ci-changed-paths.py:131-137 | a non-empty change takes exactly one of the code and docs lanes; an empty one takes neither |
| PathSelection.FlagsAreMonotone | scripts/ci-changed-paths.py:127-136 | more paths never clear a suite flag; order and repetition do not matter |
| PathSelection.MovedCodeIsCode | scripts/ci-changed-paths.py:81-96 | a file moved out of the code into docs still sets the code flag |
| PathSelection.ChangedFiles | scripts/ci-changed-paths.py:99-121 | both sides of every change as git reports them, or an error without exactly two parents |
| PathSelection.ChangedAsListed | scripts/ci-changed-paths.py:81-96 | a path has changed if and only if the list has what git prints for it |
| PathSelection.ReportedIsInjective | scripts/ci-changed-paths.py:81-96 | two paths are never printed alike: what is printed in quotes can be read back byte by byte |
| PathSelection.PlainAre | scripts/ci-changed-paths.py:81-96 | git prints exactly the paths of printable ASCII without quotation marks and backslashes as they are |
| PathSelection.DocsByComponents | scripts/ci-changed-paths.py:77-78 | documentation is what lies below docs and the Markdown files at the root |
| PathLists.ReadLists | scripts/ci-changed-paths.py:35-61 | the reader stops at the first bad line and otherwise returns what the lines say |
| PathLists.ItemIs | scripts/ci-changed-paths.py:44-49 | an item is what follows a dash and a space, perhaps indented by two, stripped |
| PathLists.KeyIs | scripts/ci-changed-paths.py:50-54 | a key is what precedes the colon at the end of a line that is not indented, stripped |
| PathLists.RoundTrip | scripts/ci-changed-paths.py:35-61 | reading the rendered form of well-formed lists gives them back |
| PathLists.RenderingMeansTheSame | scripts/ci-changed-paths.py:35-61 | for every accepted file, rendering its lists and reading them again gives the same lists exactly when no key starts like an item |
| PathLists.AcceptedIsWellFormed | scripts/ci-changed-paths.py:42-61 | distinct keys, space-free items, non-empty required lists |
| PathLists.BlankLinesSayNothing | scripts/ci-changed-paths.py:41-43 | blank and comment lines can be added or removed anywhere |
| PathLists.CommentSaysNothing | scripts/ci-changed-paths.py:41 | a comment at the end of a line changes nothing |
| PathLists.OnlyMeaningCounts | scripts/ci-changed-paths.py:41 | files whose lines have the same meaning are read alike |
| CheckLogic.NeverNullIsSound | migrations/versions/0093_blob_object_version_binding.py:36-48 | an expression that the syntactic analysis passes is true or false on every row |
| CheckLogic.ExprCanBeNull | migrations/versions/0093_blob_object_version_binding.py:36-48 | for expressions the analysis is exact: where it does not pass, some row gives NULL |
| CheckBodies.VersionBindingIsExact | migrations/versions/0093_blob_object_version_binding.py:36-48 | admits exactly the intended rows for all nullable inputs, and is never NULL |
| CheckBodies.OrChainLetsOneThrough | migrations/versions/0093_blob_object_version_binding.py:37-39 | the OR-chain admits exactly one kind of row too many: an id with no source |
| CheckBodies.InvalidationShapeIsExact | migrations/versions/0082_pack_legal_erasure.py:71-88 | admits exactly the invalidated packs without files and the standing packs without marks |
| CheckBodies.AuthorityShapeIsExact | migrations/versions/0081_pending_purge_authority.py:89-100 | a bound marker has record, event and, for a bypass, its request |
| CheckBodies.UnclassifiedRowsPass | migrations/versions/0081_pending_purge_authority.py:47-64 | with the discriminator still NULL the constraint would refuse nothing |
| CheckBodies.ReceiptHashIsExact | migrations/versions/0088_bootstrap_credential_receipt.py:32-37 | admits NULL and 64 lower-case hexadecimal digits |
| TemplateSeeds.Database.Upgrade | migrations/versions/0074_operator_alarms.py:104-146 | goes through exactly when every event without an effective template finds its seed id free; adds only those seeds and alters nothing |
| TemplateSeeds.Database.InsertSeed | migrations/versions/0074_operator_alarms.py:127-135 | the partial unique index absorbs a conflict on the event, a taken id is an error |
| TemplateSeeds.Database.Downgrade | migrations/versions/0074_operator_alarms.py:149-162 | removes exactly the unreferenced rows with a seed id |
| TemplateSeeds.RoundTrip | migrations/versions/0074_operator_alarms.py:104-162 | up and down again is the identity where no seed id was used |
| TemplateSeeds.OtherTemplatesStay | migrations/versions/0074_operator_alarms.py:104-162 | operator-authored and historical templates survive both directions unchanged |
| TemplateSeeds.OneEffectivePerEvent | migrations/versions/0063_notifications.py:66-72 | each seeded event has exactly one effective template afterwards |
| TemplateSeeds.UnservedSeedIsPlanted | migrations/versions/0074_operator_alarms.py:126-146 | a seed whose event nothing served is there afterwards, under its id, in English, as effective version 1 with its texts |
| TemplateSeeds.ServedSeedIsNotPlanted | migrations/versions/0074_operator_alarms.py:126-146 | where an effective English template serves an event nothing is added for it |
| TemplateSeeds.UpgradeAfterDowngrade | migrations/versions/0074_operator_alarms.py:104-162 | after a downgrade the next upgrade fails exactly on a seed that was kept for a notification and no longer serves, without a successor |
| TemplateSeeds.RetiredSeedBlocksTheUpgrade | migrations/versions/0074_operator_alarms.py:127-135 | such a database |
| TemplateRuns.EveryRun | migrations/versions/0074_operator_alarms.py:104-162 | over any run of upgrades, downgrades, operator edits and sent notifications: the index and the references hold, and each row is an untouched seed or as an operator last wrote it |
| TemplateRuns.OwnTemplatesSurvive | migrations/versions/0074_operator_alarms.py:1-30 | an operator's template stays as it is through every run in which no operator touches it |
| TemplateRuns.UpAlwaysCommits | migrations/versions/0074_operator_alarms.py:104-146 | as long as no operator writes over a seed, the upgrade goes through at every point of every run |
| TemplateRuns.UpgradeIsAFunction | migrations/versions/0074_operator_alarms.py:104-146 | an upgrade that commits has one result |

## Left out

- AcceptanceHost.Host.InterfereElsewhere: that nobody re-uses the run's tag, a listed container id or the directory's path between inspection and removal is a hypothesis; the source checks nothing in that window.
- AcceptanceRunner.Runner.ReadSession: several looks at resources.json are two looks at its directory.
- RetentionUse.StepEdit: names that carry a marker are outside the runs (they are what makes the downgrade abort), and so is giving a reserved name to a managed row that was retired; the ratchet that refuses some edits is not modelled, so more edits are allowed than the source allows.
- RetentionUse.StepOrganization: an organization comes in without policies; the repository itself inserts only the first one.
- RetentionSweep.Sweep: the calendar arithmetic of durations is a parameter, the purge of bytes after a disposal is not part of this model, and neither are the transitions by hand before a disposal and its separation of duties.
- RetentionUse.StepProduce: while the migration is down, a pack or report is pinned to any live policy.
- ObjectiveTable.StepFollowsTheTable: transitions act on any version in the state that the table asks for, where the source takes the latest one; so more histories are covered.
- GradingBackfill.RecoversExactly: that releases are stamped in order is a hypothesis; `OrderIsKept` says which release breaks it.
- ObjectiveCutover.ReleaseKeepsInv: all moves of pointers happen at distinct times of one clock.
- AcceptanceHost.Host.Harness: containers that the harness starts under its session but that nobody recorded are seen only through the record, as in the source.
- HistoryPhases.GateIsExact: the names of phases and subcases are parameters with the properties of the actual ones; JSON texts with white space, escapes, fractions, arrays or literals are refused by the reader, where the source parses them and then refuses them for not being canonical.
- JunitReports.Validate: which characters are decimal zeros is a parameter; the checks of the report's directory are left out.
- JunitReports.ReadersAgree: size, encoding and declarations of a report file are flags of `ReportFile`, and one tree stands for both parsers' results: a file whose own declaration names another encoding than UTF-8, or that changes between the two reads, is not modelled.
- HistoryDiagnostics.FailureSource: the regular expression of a stack frame is a parameter; splitting output into lines is taken as done.
- ProviderReceipts.ReadReceipt: the words for outcomes, statuses and fields are parameters.
- ManifestInputs.InputManifest: the tree does not change during one manifest, and paths are hashed as characters; UTF-8 is injective.
- ConstraintRuns.EveryRunIsGood: constraints on the same tables that other migrations add are part of what stays untouched; the guard of 0078 is an arbitrary refusal.
- PurgeAuthority.EveryRunTraces: the other columns of records, events and requests are one value each.
- CheckBodies.OrChainLetsOneThrough: the chain is a formulation of the warning in 0093, not code of the repository.
- PathLists.ReadLists: the lines of the file are given; decoding is not part of this model.
- The first half of 0079, which inserts grants for two retention permissions, has the shape of 0062 and adds nothing to it.
- The monthly audit partitions of 0010 are month arithmetic on fixed arguments.
- The refusing downgrade of 0082 and the row guard of 0078 are one EXISTS each.
- The catalogues of permissions, role bundles and template texts are data.
- Subprocesses, Docker, Git, XML and JSON libraries are abstract worlds, trees and printers.
- The chain linker, workflow engine, policy decision point, ingestion and notification sweep, and all of the web client, are not part of this model.
