# Verified models of the archive simulator, the architecture auditor and their neighbours

These Dafny modules model parts of the repository whose correctness lies in a protocol, a state machine or an
analysis rather than in a single function, and prove what each of them keeps, over every run and every input.

- **Fixture cleanup** (`FixtureCleanup.dfy`, `CleanupRuns.dfy`, `MediaNames.dfy`). The cleanup of a local fixture dataset is a
  two-phase commit built by hand between a database transaction and a directory of media files. `Host` performs it one
  rename, remove, query and commit at a time; an arbitrary `fate` decides whether each step works, fails, crashes the
  process, or takes effect without saying so, and an arbitrary `cut` ends the iteration over a query's rows early.
  `CleanupRuns` puts the runs of any number of datasets that share one archive into histories with ingestion between them.
- **Simulator command** (`SimulatorCommand.dfy`, `BridgeRequests.dfy`, `Activation.dfy`). The order in which seed and
  cleanup write the dataset ledger, the bridge and the downstream rows, with a failure possible at every step; what the
  commands assume of the bridge is proved of the fixture manager; and the activation of the integration rows.
- **Fixture manager** (`FixtureManager.dfy`, `SendJournal.dfy`). The bridge's datasets in memory, the append-only logs
  behind them, the drivers of the store, and the state file, through any sequence of calls, failed saves and restarts; a
  journal of acknowledged sends, failed cleanups, saves and restarts says which sends are still held.
- **Architecture auditor** (`ArchitecturePaths.dfy`, `ArchitecturePolicy.dfy`, `ArchitectureAudit.dfy`,
  `ArchitectureResults.dfy`). Path normalisation, policy validation, the three classifiers, the rule for one import, the
  exceptions, and what follows for whole import paths.
- **Provider status checker** (`StatusChecker.dfy`, `StatusOrder.dfy`, `StatusEvidence.dfy`). The analyser, and a small
  statement language with branches, loops, closures, and assignments to variables and their fields, against whose
  executions it is judged; the verdict under reordered declarations; and the evidence collected about a status.
- **Credentials** (`Credentials.dfy`), **source fingerprint** (`Fingerprint.dfy`, `Sorting.dfy`) and **bridge process**
  (`BridgeLifecycle.dfy`).

`Text.dfy` holds the string operations the programs share. `dafny verify dfyconfig.toml` checks everything.

## What the proofs found

Where a natural statement turned out false, the model keeps the code's behaviour, and a lemma says exactly when it holds.

- A commit that takes effect but reports an error makes the cleanup put the media files back although their rows are
  gone. Leftovers stay findable exactly when the run had collected every file and the rename that restores it took
  effect for none (`LostReplyKeepsTrackedExactlyWhenNothingWentBack`); if nothing else fails, exactly when there was no
  file to begin with (`LostReplyOtherwiseSmooth`). Those that went back stay for ever (`OrphansStayForever`).
- The loops over message ids and media ids do not notice an iteration that ends early. A run that overlooks media ids
  succeeds and leaves their files behind; it is clean, and what remains is findable, exactly when it found every file (`SuccessIsCleanExactlyWhenCollected`, `CommittedRunKeepsTrackedExactlyWhenCollected`,
  `OverlookedFileAfterSuccess`). Live files are safe whatever media ids and whatever part of the message ids are
  overlooked; but a run that reads no message id at all throws the quarantine away, which is safe exactly when no row
  owns a file there (`NonemptyReadingKeepsLiveFiles`, `EmptyReadingKeepsLiveFilesExactlyWhen`). Without a storage root
  the harm comes with the next run (`RootlessRunKeepsInvExactlyWhen`).
- A message registered between a crash and the next cleanup makes that cleanup restore dead files: they stay findable
  exactly when nothing was left (`ReseedKeepsTrackedExactlyWhenNothingWasLeft`). A cleanup without a storage root is
  acknowledged while the quarantine still holds files (`SuccessIsCleanExactlyWhenTracked`).
- The bridge acknowledges a cleanup under a different enterprise id without deleting the dataset, and the command then
  deletes the ledger row (`Command.CleanUp`, `DeletingTheRow`); `Command.CleanUpUnderAnotherId` is such a run. A refused
  claim resets the status of another owner's row, because the table's primary key is the dataset alone (`ClaimOutcome`).
- A send whose save fails leaves the message in memory (`Manager.Send`). A cleanup whose save fails has the dataset
  gone from memory but not from the state file: an acknowledged send is lost without an acknowledged cleanup exactly when
  a save that is no cleanup of its dataset follows such a failed cleanup before a restart (`Manager.Session`,
  `HeldCleanedOrLost`). `Manager.CleanUpInVainAndSeedAgain` is such a run.
- `normalizePortablePath` is idempotent on a path exactly when, after slashes and trimming, the segments that
  cleaning keeps neither end in white space nor, for a relative path, begin with it
  (`NormalizeTwiceExactlyWhenEndsStaySolid`); on paths without white space it always is.
- The verdict of the status checker depends on the order of declarations in two ways: a `Fetch` of the bridge before its
  `Kind` is an objection, and of several `Fetch` methods of one receiver the last decides. Any reordering of a passing
  source passes exactly when neither makes a difference (`ReorderedSourcePassesExactlyWhen`).
- The evidence collector ignores branches and fields set after a literal. A variable set again on one branch, or its kind
  field set again, leaves evidence that is right in every execution exactly when the kinds agree
  (`BranchEvidenceIsRightExactlyWhenKindsAgree`, `FieldEvidenceIsRightExactlyWhenKindStays`); evidence is sound for every
  body whose returned variables are only ever set to literals of that kind and source (`EvidenceIsSound`).
- Activating a fixture binding again changes nothing exactly when the binding names an enterprise
  (`ActivatingAgainChangesNothingExactlyWhenNamed`); a resolved binding always does.
- The key ring depends on the iteration order of a map exactly when two key ids differ in white space only and hold
  different keys (`RingIsOrderFreeExactlyWhenIdsAgree`).
- The resolver's reason is the validator's exactly for the cases listed in `ReasonsAgreeExactly`, by shape, status and
  window of the stored row; an inverted validity window is never reported as invalid
  (`InvertedWindowIsNeverReportedInvalid`).

## Model

| member | source | states |
|---|---|---|
| MediaNames.CanonicalMeansDashedForm | cmd/mochat-archive-simulator/cleanup.go:188-189 | of the four spellings the UUID parser takes, the comparison with the canonical form lets through exactly the dashed one |
| MediaNames.OwnerIsUnique | cmd/mochat-archive-simulator/cleanup.go:193-199 | an archive file belongs to at most one media object, so staging for one row never takes another row's file |
| MediaNames.StagedNamesAreAccepted | cmd/mochat-archive-simulator/cleanup.go:290-297 | every name staging can put into the quarantine passes the safety check of the next run's listing |
| FixtureCleanup.FilesDetermineDirectories | cmd/mochat-archive-simulator/cleanup.go:207-212 | the set of all files and the quarantined names determine both directories, so a move can be undone |
| FixtureCleanup.CollectedIdsOwnTheDoomed | cmd/mochat-archive-simulator/cleanup.go:71-87 | the media ids collected while deleting rows own only files of the rows that are deleted, and all of them if no iteration ended early |
| FixtureCleanup.UncommittedStep | cmd/mochat-archive-simulator/cleanup.go:65-129 | whatever a run does before its commit loses no file, unless it read no message id and threw leftovers away |
| FixtureCleanup.CommittedStep | cmd/mochat-archive-simulator/cleanup.go:130-136 | after the commit only files of media ids that were read disappear |
| FixtureCleanup.WholeRun | cmd/mochat-archive-simulator/cleanup.go:31-137 | a run that gets through all phases leaves exactly the cleaned state for what it read: rows purged, those files gone, the rest untouched |
| FixtureCleanup.RemovedFilesAreCounted | cmd/mochat-archive-simulator/cleanup.go:134-136 | the reported number of files is the number that is gone, leftovers of earlier runs aside |
| FixtureCleanup.CleanableMeans | cmd/mochat-archive-simulator/cleanup.go:54-76 | overlooking rows never gets a cleanable dataset refused, and a run that read everything is refused exactly when the dataset is not cleanable |
| FixtureCleanup.Host.ReadRows | cmd/mochat-archive-simulator/cleanup.go:53-64 | the loop yields all rows, or silently the first so many when the iteration ends early |
| FixtureCleanup.Host.Restore | cmd/mochat-archive-simulator/cleanup.go:218-234 | restoring loses no file wherever it fails or crashes, empties the listed names when nothing fails, and a listed file goes back exactly when the process lives to see its rename and the rename takes effect |
| FixtureCleanup.Host.Purge | cmd/mochat-archive-simulator/cleanup.go:236-252 | purging touches only listed files, counts exactly those removed, and success means an empty quarantine |
| FixtureCleanup.Host.ListQuarantine | cmd/mochat-archive-simulator/cleanup.go:264-277 | the list rebuilt from directory names is the list of what is quarantined; it is refused exactly when a name is unsafe |
| FixtureCleanup.Host.Reconcile | cmd/mochat-archive-simulator/cleanup.go:254-283 | leftovers are put back if any message id was read and thrown away otherwise; success leaves an empty quarantine |
| FixtureCleanup.Host.Stage | cmd/mochat-archive-simulator/cleanup.go:170-216 | all or nothing: with one failing step both directories are as before, and success leaves no doomed file in the archive |
| FixtureCleanup.Host.StageAndRestore | cmd/mochat-archive-simulator/cleanup.go:170-234 | restoring after staging gives back both directories exactly, also with ids listed twice |
| FixtureCleanup.Host.DeleteMessageRows | cmd/mochat-archive-simulator/cleanup.go:71-106 | the loops over messages and message tables delete every dependent row of the messages read and nothing else, and count them; the media ids collected are all of theirs if no iteration ended early |
| FixtureCleanup.Host.DeleteRows | cmd/mochat-archive-simulator/cleanup.go:71-125 | the transaction deletes the rows of the messages read, all source rows, runs and participants, keeps all other rows, and its counts account for every deleted row |
| FixtureCleanup.Host.Commit | cmd/mochat-archive-simulator/cleanup.go:130-133 | the ledger changes exactly when the commit took effect, reported or not, no file is lost either way, and after a lost reply the fates of the renames say which files go back |
| FixtureCleanup.Host.Cleanup | cmd/mochat-archive-simulator/cleanup.go:31-137 | every run, however it ends, is one allowed step for what it read, which is everything if no iteration ended early; with no failing step it succeeds exactly when what it read may be cleaned, and then leaves the cleaned state; after a lost reply the fates say where each file is |
| CleanupRuns.StepKeepsInv | cmd/mochat-archive-simulator/cleanup.go:31-137 | every cleanup of any dataset and every ingestion step keeps live files in exactly one place with their content, unless a cleanup overlooks message ids to harm |
| CleanupRuns.FilesAreSafeInEveryHistory | cmd/mochat-archive-simulator/cleanup.go:31-137 | over every history of cleanups of any number of datasets and ingestion, with failures, crashes and cut media iterations anywhere, no media file of a committed row is lost, changed or duplicated if each cleanup read all its message ids, or with a storage root at least one |
| CleanupRuns.NonemptyReadingKeepsLiveFiles | cmd/mochat-archive-simulator/cleanup.go:53-68 | a run that read at least one message id keeps the live files safe, whatever else it overlooked |
| CleanupRuns.EmptyReadingKeepsLiveFilesExactlyWhen | cmd/mochat-archive-simulator/cleanup.go:68 | a successful run that read no message id keeps the live files safe exactly when no row owns a quarantined file |
| CleanupRuns.RootlessRunKeepsInvExactlyWhen | cmd/mochat-archive-simulator/cleanup.go:254-258 | a successful run without a storage root keeps the invariant exactly when it overlooked no message whose file waits in the quarantine |
| CleanupRuns.SuccessIsCleanExactlyWhenCollected | cmd/mochat-archive-simulator/cleanup.go:77-136 | a successful cleanup leaves none of the dataset's files exactly when it had a storage root and found each, by its media id or, if it read no message id, in the quarantine |
| CleanupRuns.CommittedRunKeepsTrackedExactlyWhenCollected | cmd/mochat-archive-simulator/cleanup.go:77-136 | after a commit with a storage root leftovers stay findable exactly when the run had found every file, by its media id or, if it read no message id, in the quarantine |
| CleanupRuns.OverlookedFileAfterSuccess | cmd/mochat-archive-simulator/cleanup.go:77-107 | a successful run leaves the file of an overlooked media id in the archive, without a row, or with a row whose message no source names |
| CleanupRuns.SuccessIsCleanExactlyWhenTracked | cmd/mochat-archive-simulator/cleanup.go:44-136 | a successful cleanup that read everything leaves none of the dataset's files exactly when each was findable and a storage root was given |
| CleanupRuns.InterruptedRunKeepsTracked | cmd/mochat-archive-simulator/cleanup.go:68-136 | a run that fails or crashes anywhere keeps every leftover findable unless its commit reply was lost, or it committed after an iteration ended early |
| CleanupRuns.OneUninterruptedRunFinishesTheJob | cmd/mochat-archive-simulator/cleanup.go:44-136 | after any series of interrupted runs an uninterrupted run that reads everything is accepted, deletes every row of every message and leaves no file |
| CleanupRuns.FinishAfterInterruptions | cmd/mochat-archive-simulator/cleanup.go:31-137 | the same for runs on one host, each in a new process and failing anywhere: the last, in which nothing fails, finishes the job, unless an earlier commit reply was lost or an iteration ended early |
| CleanupRuns.LostReplyKeepsTrackedExactlyWhenNothingWentBack | cmd/mochat-archive-simulator/cleanup.go:130-132 | after a lost commit reply leftovers stay findable exactly when every file had been collected and, by the fates of the restoring renames, none went back |
| CleanupRuns.LostReplyOtherwiseSmooth | cmd/mochat-archive-simulator/cleanup.go:130-132 | if nothing fails after the lost reply, exactly when the dataset had no file before the run |
| CleanupRuns.CleanUpWithLostReply | cmd/mochat-archive-simulator/cleanup.go:31-137 | the same for a run: condition on the state before the call |
| CleanupRuns.OrphansStayForever | cmd/mochat-archive-simulator/cleanup.go:130-132 | an archive file without a row survives every later history |
| CleanupRuns.ReseedKeepsTrackedExactlyWhenNothingWasLeft | cmd/mochat-archive-simulator/cleanup.go:68 | registering a message over leftovers keeps them findable exactly when there were none |
| FixtureManager.NormalizedIsNormal | internal/archivebridge/fixture.go:190-191 | normalising a binding gives a trimmed binding with positive ids, and leaves such a binding alone |
| FixtureManager.DatasetKeyInjective | internal/archivebridge/fixture.go:464-466 | the key determines tenant, enterprise, mode and trimmed dataset |
| FixtureManager.MessageIdsDiffer | internal/archivebridge/fixture.go:205 | different sequence numbers never give the same message id |
| FixtureManager.NextSequence | internal/archivebridge/fixture.go:468-483 | the next number is above ten and above every recorded one, and is the least such number |
| FixtureManager.SeedZone | internal/archivebridge/fixture.go:370-425 | the five built-in messages of a delegated dataset are all accepted by its zone, in order |
| FixtureManager.AcknowledgingKeepsOrder | internal/archivebridge/fixture.go:204-229 | a send above everything recorded keeps the acknowledged sends in order with distinct ids |
| FixtureManager.LoadingKeepsTheInvariants | internal/archivebridge/fixture.go:299-334 | reloading a saved snapshot keeps the datasets well formed and every acknowledged send |
| FixtureManager.Manager.Persist | internal/archivebridge/fixture.go:427-449 | the file equals memory after a successful save and is unchanged after a failed one |
| FixtureManager.Manager.CreateRuntime | internal/archivebridge/fixture.go:370-425 | the logs are rebuilt from the entry, and the driver is registered only when the store accepts its binding |
| FixtureManager.Manager.Seed | internal/archivebridge/fixture.go:117-161 | a failed seed leaves memory, store and file as they were; with no failure it succeeds exactly when the place is free or already this dataset's |
| FixtureManager.Manager.Send | internal/archivebridge/fixture.go:187-230 | an acknowledged send adds exactly its message with the next number and is on disk; on failure memory has changed exactly when the save failed |
| FixtureManager.Manager.Cleanup | internal/archivebridge/fixture.go:232-252 | asks for confirmation exactly for an invalid binding or dataset or another text, and otherwise fails only with the state file; removes exactly the dataset of this binding with its driver from memory, leaves a foreign one alone while still succeeding, and success is on disk |
| FixtureManager.Manager.ExchangeAuthorization | internal/archivebridge/fixture.go:163-185 | sets the authorization of exactly the matching delegated datasets and changes nothing else |
| FixtureManager.Manager.Restart | internal/archivebridge/fixture.go:299-334 | a restart rebuilds exactly the saved datasets with their runtimes and drivers |
| FixtureManager.Manager.CleanUpInVainAndSeedAgain | internal/archivebridge/fixture.go:240-250 | a cleanup whose save fails, then a successful seed of the same dataset: every send acknowledged for it is lost, and the state file holds the built-in messages alone |
| SendJournal.HeldCleanedOrLost | internal/archivebridge/fixture.go:240-250 | after any events an acknowledged send is held, or a later cleanup of its dataset was saved, or a failed cleanup followed by another save lost it |
| FixtureManager.Manager.Session | internal/archivebridge/fixture.go:117-334 | over any sequence of calls, failed saves and restarts: acknowledged numbers increase above ten, the sends the journal holds are on disk and the lost ones are exactly those a failed cleanup and a later save dropped, runtimes match datasets, one dataset per place |
| SimulatorCommand.SourceIdentityInjective | cmd/mochat-archive-simulator/activation.go:89 | the source identity determines mode and enterprise id |
| SimulatorCommand.ClaimOutcome | cmd/mochat-archive-simulator/activation.go:84-106 | a claim wins exactly when the row is or becomes this source's; a refused claim changes the table exactly when it resets another owner's status |
| SimulatorCommand.Command.Claim | cmd/mochat-archive-simulator/activation.go:84-106 | success means that the dataset's row is this binding's, whatever fails in between |
| SimulatorCommand.Command.UpdateStatus | cmd/mochat-archive-simulator/activation.go:108-120 | sets the status of exactly the row in scope and fails when there is none |
| SimulatorCommand.Command.DeleteRow | cmd/mochat-archive-simulator/activation.go:122-131 | deletes at most the row in scope; a missing row is not an error |
| SimulatorCommand.Command.Seed | cmd/mochat-archive-simulator/main.go:118-197 | wherever a seed stops, the bridge holds no dataset without its ledger row; a completed seed leaves row and dataset |
| SimulatorCommand.Command.CleanUp | cmd/mochat-archive-simulator/main.go:198-222 | wherever a cleanup stops, ledger and bridge agree unless the bridge holds the dataset under another enterprise id; that exception is exact |
| SimulatorCommand.DeletingTheRow | cmd/mochat-archive-simulator/main.go:213-218 | deleting the row keeps the bridge covered exactly when the bridge no longer holds the dataset |
| SimulatorCommand.AuthoritativeIsNotForeign | cmd/mochat-archive-simulator/main.go:109-117 | with one enterprise id per tenant enterprise and mode the exception never arises |
| SimulatorCommand.Command.CleanUpTwice | cmd/mochat-archive-simulator/main.go:198-222 | a cleanup interrupted anywhere and run again, with the bridge perhaps starting anew in between, ends with neither bridge dataset nor ledger row |
| SimulatorCommand.Command.CleanUpUnderAnotherId | cmd/mochat-archive-simulator/main.go:198-222 | a dataset seeded under one enterprise id and cleaned up under another: every step succeeds and the bridge keeps the dataset without a row |
| SimulatorCommand.Command.RestartBridge | internal/archivebridge/fixture.go:299-334 | a new bridge process gets back what was not saved away, and the ledger still covers it |
| BridgeRequests.RequestSeed | internal/archivebridge/fixture.go:117-161 | the fixture manager answers a seed request as the commands assume, failed saves and lost replies included |
| BridgeRequests.RequestCleanup | internal/archivebridge/fixture.go:232-252 | so it does a cleanup request, also when the removal cannot be saved |
| BridgeRequests.RestartManager | internal/archivebridge/fixture.go:299-334 | and a restart of the manager is the restart the commands assume |
| SimulatorCommand.Command.RunAll | cmd/mochat-archive-simulator/main.go:118-222 | over any series of seed and cleanup commands and restarts of the bridge, each command cut short anywhere, the bridge never holds a dataset without its row, provided the enterprise id of a tenant, enterprise and mode stays the same |
| Activation.ResolvedBindingIsSimulated | cmd/mochat-archive-simulator/activation.go:19-49 | a resolved binding names an enterprise of the simulator's own family, never none and never a production one |
| Activation.NormalizedFixtureScope | cmd/mochat-archive-simulator/activation.go:313-329 | the result is the sorted, duplicate-free list of the trimmed, nonblank capabilities |
| Activation.NormalScopeIsUniqueAndFixed | cmd/mochat-archive-simulator/activation.go:313-329 | there is one such list and normalising it again gives it back |
| Activation.Tables.EnsureParticipants | cmd/mochat-archive-simulator/activation.go:242-276 | afterwards both participants are there, active and named after the dataset, and no other row has changed |
| Activation.Tables.Activate | cmd/mochat-archive-simulator/activation.go:162-240 | a refused activation changes nothing and reports the first reason; otherwise the rows change as a whole, exactly when the commit takes effect |
| Activation.NamedActivationIsActive | cmd/mochat-archive-simulator/activation.go:286-299 | after an activation the rows count as already active exactly when the binding names an enterprise |
| Activation.ActivatingAgainChangesNothingExactlyWhenNamed | cmd/mochat-archive-simulator/activation.go:209-229 | a second activation changes nothing exactly when the binding names an enterprise; otherwise versions rise each time |
| Activation.ActivateRepeatedly | cmd/mochat-archive-simulator/activation.go:162-240 | any number of activations of a named binding, with commits or replies lost, changes the rows like one |
| Activation.ResolvedBindingIsStable | cmd/mochat-archive-simulator/activation.go:19-49 | resolving after an activation gives the binding that was activated |
| ArchitecturePaths.CleanIdempotent | internal/architecture/rules.go:336-344 | cleaning a path twice is cleaning it once, for every path |
| ArchitecturePaths.NormalizeTwiceExactlyWhenEndsStaySolid | internal/architecture/rules.go:336-344 | normalising is idempotent on a path exactly when the last segment that cleaning keeps does not end in white space, nor the first of a relative path begin with it |
| ArchitecturePaths.NormalizingTwiceWithoutSpaces | internal/architecture/rules.go:336-344 | normalising is idempotent on every path without white space |
| ArchitecturePaths.NormalizingDotSlashBlankTwice | internal/architecture/rules.go:336-344 | for every plain name, dot-slash-blank-name is normalised differently the second time |
| ArchitecturePaths.PlainPathIsNormal | internal/architecture/rules.go:336-344 | a path of ordinary names is its own normal form and splits into those names |
| ArchitecturePaths.DirOfPlainPath | internal/architecture/audit.go:479-487 | the directory of such a path is what stands before its last name |
| ArchitecturePolicy.FileClass | internal/architecture/audit.go:362-394 | the layer of a module file depends on the directories below the module only |
| ArchitecturePolicy.ImportClass | internal/architecture/audit.go:400-429 | the layer of a module import depends on the same directories in the same way |
| ArchitecturePolicy.PolicyLayerOfDirs | internal/architecture/rules.go:265-283 | so does the layer that validation gives a package |
| ArchitecturePolicy.PackagePathOfFile | internal/architecture/audit.go:479-487 | the package path of a module file is its directories below the module |
| ArchitecturePolicy.ClassifiersAgree | internal/architecture/audit.go:362-438 | file, import and policy classifier give the same module and layer for every file below a module, declared packages and unknown included |
| ArchitecturePolicy.NormalizeModuleList | internal/architecture/rules.go:313-326 | accepts exactly the lists of allowed, distinct, not yet registered names, and returns them trimmed |
| ArchitecturePolicy.NormalizePackages | internal/architecture/rules.go:182-196 | accepts exactly the declared packages of registered modules with allowed layers and distinct keys |
| ArchitecturePolicy.PolicyDocument.NormalizeAndValidate | internal/architecture/rules.go:153-245 | rewrites the policy into normal form and accepts it exactly when that form meets every rule |
| ArchitectureAudit.SortFindings | internal/architecture/audit.go:140-148 | the sort keeps every violation and orders them by rule, path and detail |
| ArchitectureAudit.SortedListIsUnique | internal/architecture/audit.go:140-148 | the sort key is the whole violation, so an unstable sort has one result |
| ArchitectureAudit.ApplyExceptions | internal/architecture/audit.go:533-557 | the two passes treat findings one by one: kept, suppressed, or reported together with the expiry |
| ArchitectureAudit.MatchExpired | internal/architecture/audit.go:559-566 | looks at the first valid exception for the finding, and only at that one |
| ArchitectureAudit.ReconcileModules | internal/architecture/audit.go:310-356 | reports each unregistered directory and each missing module once, whatever the map order |
| ArchitectureAudit.OtherFindingsAreNeverSuppressed | internal/architecture/rules.go:131-151 | no valid exception suppresses a finding that is not about an import |
| ArchitectureAudit.Audit | internal/architecture/audit.go:37-155 | the violations are sorted and are exactly those that tree, policy and day call for |
| ArchitectureResults.AuditIsAFunction | internal/architecture/audit.go:139-154 | two audits of the same tree, policy and day return the same list, whatever map order and sort |
| ArchitectureResults.ViolationsOnlyAccumulate | internal/architecture/audit.go:502-575 | for a fixed tree and policy no violation disappears as days go by |
| ArchitectureResults.SuppressedExactlyWhileExcepted | internal/architecture/audit.go:533-575 | a finding is suppressed exactly while the first valid exception for it has not expired |
| ArchitectureResults.EverythingIsReportedAfterTheLastExpiry | internal/architecture/audit.go:568-575 | once every exception has expired each raw finding is reported |
| ArchitectureResults.AuditIsCleanExactlyWhen | internal/architecture/audit.go:37-155 | nothing is reported exactly when every protected file is within its limit and debt, the module directories are the registered modules, and every file has a known place, no forbidden name, and only suppressed findings |
| ArchitectureResults.PassingImport | internal/architecture/audit.go:166-256 | after a clean audit an import without exception is neither legacy nor private to another module, and is allowed by its layer |
| ArchitectureResults.NextFileIsWhereTheImportPoints | internal/architecture/audit.go:362-429 | the file an import leads to is in the module and layer the import was judged by |
| ArchitectureResults.InnerLayersStayInside | internal/architecture/audit.go:166-273 | after a clean audit every import path from an inner layer, up to the first edge listed in the policy, stays in the inner layers of its module and off database/sql and net/http |
| ArchitectureResults.WithoutGrantsEveryPathIsConfined | internal/architecture/audit.go:213-256 | with empty grant and exception lists this holds for every import path of any length |
| ArchitectureResults.PrivateLayersStayPrivate | internal/architecture/rules.go:247-263 | no validated policy without exceptions lets a file outside the tests import another module's adapters or transport |
| StatusChecker.RunReturnsAnOwnReturn | scripts/provider_completion_ast.go:507-514 | through any branches and loops an execution returns what one of the function's own return statements yields |
| StatusChecker.ReturnedSource | scripts/provider_completion_ast.go:501-548 | the flags of the traversal answer a source exactly for a body whose one return statement names it |
| StatusChecker.ExternalKindIsExternal | scripts/provider_completion_ast.go:501-548 | answered external, every execution that returns yields SourceExternal; likewise simulated |
| StatusChecker.LiteralTextIsFront | scripts/provider_completion_ast.go:586-596 | the text compared is the front of the literal; only escaped quotes are cut off |
| StatusChecker.AcceptedStatusIsHonest | scripts/provider_completion_ast.go:139-169 | a body whose return statements are all accepted returns one status, limited or unavailable, with an archive code, in every execution |
| StatusChecker.CheckBody | scripts/provider_completion_ast.go:137-174 | the inspection reports, in order, each objectionable return statement and the missing code |
| StatusChecker.BodyFindingsEmpty | scripts/provider_completion_ast.go:137-174 | nothing is reported exactly when every return statement is accepted and the expected code occurs |
| StatusChecker.KeysTellReceiversApart | scripts/provider_completion_ast.go:93 | two methods share a key exactly when directory, package and receiver are the same |
| StatusChecker.CollectMethods | scripts/provider_completion_ast.go:71-118 | the loop over declarations fills the maps as the declarations call for, one by one |
| StatusChecker.CollectedKeys | scripts/provider_completion_ast.go:94-116 | an entry exists exactly for receivers with a Kind or with the bridge's Fetch |
| StatusChecker.CollectionIsClean | scripts/provider_completion_ast.go:86-111 | no objection exactly when every declaration fits after the ones before it |
| StatusOrder.OrderlyMeans | scripts/provider_completion_ast.go:86-116 | no objection exactly when receivers are supported, each has one Kind and one Status at most in whatever order, and no bridge Fetch precedes its Kind |
| StatusOrder.VerdictMeans | scripts/provider_completion_ast.go:61-180 | nothing is reported exactly when the list is orderly and every Status is accepted under its own Kind and the last Fetch |
| StatusOrder.ReorderedSourcePassesExactlyWhen | scripts/provider_completion_ast.go:94-116 | any reordering of a passing source passes exactly when each Kind still precedes its Fetch and a Fetch that becomes the last makes no difference to its Status |
| StatusOrder.ReorderingKeepsTheVerdict | scripts/provider_completion_ast.go:94-116 | two orders in which Kind precedes Fetch and the last Fetch of each bridge says the same have the same verdict |
| StatusOrder.SwappingNeighboursKeepsTheVerdict | scripts/provider_completion_ast.go:94-116 | exchanging neighbours of an orderly list keeps the verdict unless they are the Kind and a Fetch of one bridge source, or its last two Fetches and these differ |
| StatusOrder.LastOfTwoFetchesDecides | scripts/provider_completion_ast.go:112-116 | with two Fetches that differ, the verdict is what the last of them makes of the Status |
| StatusChecker.UniqueKeepsEachOnce | scripts/provider_completion_ast.go:598-608 | each error is kept once and none is invented |
| StatusChecker.CheckArchiveStatuses | scripts/provider_completion_ast.go:61-180 | the loop reports exactly what the declarations call for, duplicates dropped |
| StatusChecker.ReportIsEmptyExactlyWhenAllIsAccepted | scripts/provider_completion_ast.go:119-179 | nothing is reported exactly when declarations fit, every Status is accepted, and a Kind is not alone |
| StatusChecker.PlainSourcePasses | scripts/provider_completion_ast.go:119-179 | a receiver that returns SourceExternal and the limited state with the code of an unimplemented source passes, whatever its name and package |
| StatusChecker.PassingStatusHasItsKind | scripts/provider_completion_ast.go:120-131 | with nothing reported every Status has a Kind on its own receiver |
| StatusChecker.PassingStatusIsHonest | scripts/provider_completion_ast.go:119-175 | with nothing reported, a Status outside the bridge whose Kind can return anything but SourceSimulated returns an honest status in every execution that returns |
| StatusEvidence.DirectStatusEvidence | scripts/provider_completion_ast.go:359-448 | evidence of a kind is given exactly when there is a return statement and all of them, each through its own literal or the one last bound to the variable it names, name that kind and at most one source |
| StatusEvidence.EvidenceIsSound | scripts/provider_completion_ast.go:363-447 | if the returned variables, closures included, are only ever set to literals of the evidence's kind and source and are set on every path, each execution that returns yields a status of that kind, and of that source if it carries one |
| StatusEvidence.DirectEvidenceIsSound | scripts/provider_completion_ast.go:389-425 | in particular whenever every return statement gives a literal |
| StatusEvidence.TwoKindsRefuteAnyEvidence | scripts/provider_completion_ast.go:363-447 | if two executions return statuses of different kinds, evidence of any kind is wrong about one of them |
| StatusEvidence.BranchEvidenceIsRightExactlyWhenKindsAgree | scripts/provider_completion_ast.go:371-403 | for a variable set again on one branch the evidence names the last kind in the text, and is right in every execution exactly when both kinds are the same |
| StatusEvidence.FieldEvidenceIsRightExactlyWhenKindStays | scripts/provider_completion_ast.go:371-403 | for a variable whose kind field is set after the literal the evidence is right in every execution exactly when the kind stays the same |
| Credentials.ParseKeyRing | internal/saasbackup/artifact.go:48-76 | accepts exactly blank text and nonempty objects of valid ids and keys; of two ids equal after trimming the one visited later stays |
| Credentials.RingIsOrderFreeExactlyWhenIdsAgree | internal/saasbackup/artifact.go:61-74 | the ring is independent of the map's iteration order exactly when no two ids equal after trimming hold different keys |
| Credentials.NewManager | internal/aiproviderconfig/manager.go:39-70 | the exact conditions for a manager, which then holds ring and single key and is ready to encrypt or holds no key |
| Credentials.AdditionalDataIsInjective | internal/aiproviderconfig/manager.go:214-216 | for well-formed key ids the associated data is equal exactly when key id, tenant and trimmed provider are |
| Credentials.DecryptUndoesEncrypt | internal/aiproviderconfig/manager.go:72-153 | a credential opens, under this or any later manager, exactly for its tenant, provider and key id with the same key bytes, and yields the trimmed API key |
| Credentials.ReasonsAgreeExactly | internal/aiproviderconfig/resolver.go:154-165 | a stored row is refused exactly when it is not usable, and the resolver gives the reason validation failed for exactly in the listed cases of its shape, status and window |
| Credentials.InvertedWindowIsNeverReportedInvalid | internal/aiproviderconfig/manager.go:187-189 | an inverted window is invalid to the validator and never so to the resolver |
| Credentials.ResolvedKeyWasEncryptedForItsRow | internal/aiproviderconfig/resolver.go:74-115 | a provider is resolved exactly inside its window from a credential encrypted for its own tenant and provider under a key still held |
| Sorting.SortBy | scripts/source_fingerprint.py:99 | sorting keeps the items and orders them by key |
| Sorting.AscendingIsUnique | scripts/source_fingerprint.py:99 | there is one ascending list of the same items |
| Fingerprint.IterFiles | scripts/source_fingerprint.py:52-81 | each included, not ignored file is yielded once, whatever order and repetition the directory listings have |
| Fingerprint.BuildFingerprint | scripts/source_fingerprint.py:84-106 | the manifest is the covered files with size and digest in path order, and the stream is its serialisation |
| Fingerprint.RecordCancels | scripts/source_fingerprint.py:100-106 | a record can be split off the front of the stream in one way only |
| Fingerprint.StreamIsUniquelyDecodable | scripts/source_fingerprint.py:100-106 | for paths without NUL the stream determines the list it came from |
| Fingerprint.ManifestIsUnique | scripts/source_fingerprint.py:99-106 | the manifest does not depend on the order in which directories are listed |
| Fingerprint.SameStreamExactlyWhenSameFiles | scripts/source_fingerprint.py:52-106 | two trees give the same stream exactly when they have the same covered paths, sizes and digests |
| BridgeLifecycle.Registrar.Close | cmd/mochat-archive-bridge/main.go:56-74 | closes driver and database once however often it is called, and reports the same each time |
| BridgeLifecycle.Registrar.CloseTwice | cmd/mochat-archive-bridge/main.go:56-74 | closing again closes nothing and reports the same |
| BridgeLifecycle.NewProductionRegistrar | cmd/mochat-archive-bridge/main.go:98-149 | a database handle is either handed on or closed once, on every failing path |
| BridgeLifecycle.Serve | cmd/mochat-archive-bridge/main.go:258-289 | under every interleaving with the listening goroutine, listening returns once and only then is the registrar closed; the errors reported are exact |
| BridgeLifecycle.ServedRunLeavesNothing | cmd/mochat-archive-bridge/main.go:258-289 | such a run closes each resource once, after it was obtained and not while listening |
| BridgeLifecycle.Run | cmd/mochat-archive-bridge/main.go:186-238 | on every path through start-up failures, listen failure, shutdown timeout and normal stop each resource obtained is closed exactly once and listening has ended |

## Left out

- SQL text, locking and isolation: a transaction is an atomic change of the rows; comparisons of SQL strings are exact.
- Ingest workers writing files or rows while a cleanup runs; the code does not coordinate with them. A download that
  publishes an object whose file still waits in a quarantine, and two datasets on one source identity.
- Directories inside the quarantine, the parent `.fixture-cleanup` directory, the order of directory listings, and the
  SHA-256 name that separates the quarantines of different datasets.
- The remove-then-rename fallback of the state file: a save replaces the file or leaves it.
- Key generation, RSA and AES, the suite provider, zone revocation and expiry in the fixture manager: outcomes are
  parameters (`Luck`). The status counts and `StatusFor` are not modelled, nor is the overflow of 64-bit sequence numbers.
- `archivesource`, `archivefixture` and the bridge `Store` appear as append-only logs and as a map of drivers.
- The send and status commands, flags, environment, HTTP and JSON of the simulator, and the delivery of callbacks.
- prepareDelegatedFixtureAuthorization and the operation log's content; activation timestamps and the scope digest.
- Lower-casing and upper-casing beyond ASCII.
- `filepath.Match`, `time.Parse` and the standard-library lookup of the auditor: parameters of the audit. Unreadable files,
  parse errors, the skipping of `testdata`, quoting escapes in details, and Windows paths are not modelled.
- Hexadecimal and base64 decoding of keys, JSON, AES-GCM and HMAC in the credentials: ideal, or parameters.
- The outbound guard, the database and the provider's constructor in the resolver: their answers are parameters.
- In the analysed language: defer, recover, goto, switch, named results, a `:=` in an inner block that hides a variable,
  and a local name that hides `providers`. The scan for production files, a `Fetch` without a body, and the wording of findings.
- UTF-8 encoding of paths in the fingerprint: a path is the text that is encoded, and symbolic links are not modelled.
- Concurrent calls of the registrar's `Close`: the once-only guard is modelled for calls one after another.
- A `ListenAndServe` that never returns: `Serve` waits for it for ever, as the code does.
- Callback inbox, legacy cutover, identity migration and maintenance commands: their protocol lives in packages that are
  not part of this model.
