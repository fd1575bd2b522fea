# Baron: what its transactional core keeps

Baron installs a managed runtime, keeps credentials and project state, and talks to
coding agents through hooks. This project models the parts of it that must stay
consistent when any step fails, is cancelled, or races with another process, and the
small algorithms those parts rest on. The code changes state step by step, and so does
the model: disks, launcher directories, queues and engines are classes whose methods
may fail at any call, each proved against a relation or function of the old state;
what Baron promises is then proved about those relations, over every input, run or
interleaving.

| file | part of Baron |
|---|---|
| Text, JsonValues, FileSystem | strings as Go treats them, decoded JSON, durable files with the contract of an atomic write |
| RuntimeTypes, RuntimeState, ComponentOrder, Launchers, LauncherScripts, RuntimeStaging, RuntimeManager, RuntimeApply, RuntimeRuns, RuntimeVerify, RuntimeRecords | the managed runtime: ordering, staging, activation, launchers, rollback, resumption, verification |
| Credentials | rotating one key across several credential files |
| CheckpointLock, Continuity, SyncQueue, ResumeGate, Fingerprints | project continuity: the lock protocol, merged work states, the retry queue, the resume decision and its fingerprint |
| Compaction, StoredPayloads, PayloadSizes | bounding hook payloads, what is stored of them, and their length as JSON |
| Catalog, VersionTexts, ClauseTexts, Discovery, CodexHooks, ManagedAgents, EnvFile | release selection, bounded fan-out, hook files, AGENTS.md, .env files |

Every disk call may fail without effect. A failed atomic write leaves the old file; the
gap after the rename (internal/config/config.go:62-68) is assumed away. `Disk.history`
records every state the files pass through, so a claim about every entry of it covers a
process that stops at any instant. What the code asks the outside (contexts, downloads,
hashes, probes, encoders, handlers, bridges) goes through a `World` whose `log` keeps every
question with its answer, so contracts say which answer led where. Calls may always fail, so
contracts also say when they must not: a `healthy` disk or store refuses nothing by accident
(`Disk.refused` counts what failed), and with every question granted an operation succeeds
whenever its inputs allow it.

## What the proofs found

The code is modelled as it is. Where a promise does not hold the model has a lemma with
the exact condition or a concrete run:

- If the last status write of `Apply` is lost, its deferred clean-up deletes the
  generation `current.json` already names (`LostStatusOrphansPointer`); so does a failed
  restore write (`LostRestoreOrphansPointer`). A crash between activation and that write, an
  instant every completing `Apply` passes through, leaves the generation in use resumable
  (`WindowIsResumable`) and lets the next failing `Apply` delete it (`CrashThenFailureOrphans`).
  A failure after staging that could be neither recorded nor cleaned up leaves a generation
  that a rollback may select and the next failing `Apply` of its plan deletes, with every
  pointer write and last status write successful (`UnrecordedFailureOrphans`).
  `ApplyKeepsInvExactly` says which endings are safe.
- A cancellation noticed while a staged receipt is re-read is not kept for resumption
  (`BrokenIsNotResumable`).
- After a failed launcher transaction the caller's own `Rollback` has nothing left to
  undo (`RuntimeApply.Manager.WriteLaunchers`).
- A launcher moved to its alias, one whose target contains a single quote, or a marked
  launcher left from before makes `Verify` reject what `Apply` just produced
  (`VerifyAfterApplyExactly`); so does a later plan whose ID extends this one
  (`PrefixClash`). A plan ID that makes the generation name longer than 128 characters
  is staged completely and then fails (`LongPlanIdNeverApplies`).
- A credential file named like another target's render file is not restored
  (`UndoneExactly`).
- Two waiters can both remove a stale lock, the second one the first one's new file
  (`TwoWaitersStealTwice`).
- Two flushers can try a queue item more often than its policy allows
  (`TwoFlushersOverrun`, exact condition in `StaleSnapshotExactly`).
- Every flush starts a capture that was buried for its size over at attempt zero, so one
  the provider keeps refusing is tried without bound (`OversizedIsTriedForever`, exact
  condition in `OverrunExactly`).
- Twelve strings, each within its own limit, make a payload that loses one of them and is
  stored without the flag that says so (`CutWithoutFlag`, exact condition in
  `FlagIsStoredExactly`).
- Text bounding is a projection for limits up to 1 and from 15 on, not between
  (`BoundedTextIdempotentExactly`).
- Merging hooks for a blank binary name is not idempotent
  (`CanonicalIsIdempotentExactly`, `BlankBinaryIsNotRecognised`); an entry that carries
  Baron's command and nested Baron hooks keeps both (`CanonicalRunsBaronOnceExactly`).
- A stable release with a hyphen in its build metadata is read as a pre-release, or
  refused when the hyphen ends it (`BuildIsRead`, exact condition in `BuildIsIgnoredExactly`).
- A raw `.env` value with a line break or a vertical tab at its end does not survive
  (`RoundTripExactly`).
- Different scopes can share a recovery fingerprint when a separator is inside a field
  (`CommaInNameIsAmbiguous`, `BarShiftsFields`, `NulShiftsFields`); without one they cannot
  unless the hash collides (`FingerprintSeparates`).

## Model

| member | source | states |
|---|---|---|
| FileSystem.Disk.AtomicWriteFile | internal/config/config.go:25-70 | the new file is there in full, or the old one is untouched; the history shows no state in between |
| FileSystem.Disk.RemoveAll | internal/managedruntime/manager.go:133-137 | deletes within the tree only, entry by entry, at every instant |
| ComponentOrder.OrderComponents | internal/managedruntime/manager.go:1236-1273 | the closure over `visiting`, `visited` and `ordered` computes the recursive specification |
| ComponentOrder.Orderer.VisitOne | internal/managedruntime/manager.go:1242-1265 | one visit, with its in-place marks, equals the specification and terminates on the IDs not yet met |
| ComponentOrder.OrderIsGood | internal/managedruntime/manager.go:1236-1273 | the result holds exactly the planned components, each once and after everything it depends on |
| ComponentOrder.OrderSucceedsExactly | internal/managedruntime/manager.go:1236-1273 | ordering succeeds if and only if every dependency is planned and no dependency path is a cycle; the reported error is true of the graph |
| ComponentOrder.OrderIsPermutation | internal/managedruntime/manager.go:1236-1273 | with distinct IDs the order is a permutation of the plan |
| ComponentOrder.PathDescends | internal/managedruntime/manager.go:1236-1273 | along any dependency path positions in the order go strictly down |
| Launchers.RenderedTargetIsVisible | internal/managedruntime/launchers.go:372-400 | a target without a single quote appears verbatim in its launcher |
| LauncherScripts.QuotedIsRead | internal/managedruntime/launchers.go:388-394 | a POSIX shell reads every quoted text back as it was, single quotes included |
| LauncherScripts.ScriptRunsTarget | internal/managedruntime/launchers.go:372-400 | a launcher is a script that stops at errors, says who calls, and ends by executing the word that reads as its target, with all arguments |
| LauncherScripts.ScriptSetsPath | internal/managedruntime/launchers.go:393-398 | before that it puts the managed directories, joined by colons, in front of the PATH there is, or makes them the PATH |
| Launchers.AfterAt | internal/managedruntime/launchers.go:134-156 | after n writes the first n launchers hold their content and every other path is as before |
| Launchers.UndoOne | internal/managedruntime/launchers.go:213-244 | putting back the last original undoes exactly the last write |
| Launchers.UndoTurnKeepsStep | internal/managedruntime/launchers.go:213-244 | a turn of the rollback loop, failing or not, alters no unmarked file and steps back by one when it succeeds |
| Launchers.LauncherTransaction.Apply | internal/managedruntime/launchers.go:134-156 | only its own paths change; from the directory as prepared all launchers are written, or, failing at any index with successful undo writes, it is as prepared, unmarked files never change, and on a healthy disk it succeeds |
| Launchers.LauncherTransaction.Rollback | internal/managedruntime/launchers.go:158-163 | after Apply it restores the prepared directory; with nothing applied it changes nothing |
| Launchers.LauncherTransaction.RollbackApplied | internal/managedruntime/launchers.go:213-244 | from any step of the transaction back to its start, carrying on after errors; on a healthy disk it gets there; a file that carries no marker is never changed, whoever put it there |
| Launchers.RestoreOne | internal/managedruntime/launchers.go:213-244 | touches its own path only and leaves what is no longer a marked regular file alone |
| Launchers.SelectPath | internal/managedruntime/launchers.go:246-263 | the bare name, or the alias when something unmarked has it; no path only when both are taken |
| Launchers.PrepareLaunchers | internal/managedruntime/launchers.go:67-132 | one launcher a request on pairwise different paths that hold nothing or a marked file, with the originals recorded; a refusal for a duplicate name, a duplicate path or taken names is justified; on a healthy disk it is ready if and only if names differ, each has a path and the paths differ |
| Launchers.InstallLaunchers | internal/managedruntime/launchers.go:55-65 | installed means every launcher holds its rendering and nothing else changed; otherwise the directory is as found when the undo succeeds |
| Launchers.InstalledEverywhere | internal/managedruntime/launchers.go:134-156 | the written directory holds every planned launcher and is otherwise the one prepared |
| Launchers.VerifyLaunchers | internal/managedruntime/manager.go:861-937 | acceptance and rejection are both right (every launcher bound under its own name, no unlisted marked file), and a healthy disk always gives one of them |
| Launchers.VerificationAfterInstall | internal/managedruntime/manager.go:861-937 | right after an installation verification accepts exactly when no launcher uses its alias, every target shows through the quoting and no marked launcher is left over |
| RuntimeState.ReceiptNameInjective | internal/managedruntime/manager.go:492 | within a generation different components have different receipt files |
| RuntimeState.NamedForExactly | internal/managedruntime/manager.go:765-769 | the listing of a generation takes exactly the receipt files of its components |
| RuntimeStaging.CachedArchive | internal/managedruntime/manager.go:947-973 | a hit is an archive whose bytes hash to its name; after a miss nothing is cached under it |
| RuntimeStaging.StageComponent | internal/managedruntime/manager.go:381-500 | a staged component has its directory, its archive and the receipt that says so; only these three paths change, and a failure leaves the receipt as it was |
| RuntimeStaging.ReadStagedReceipt | internal/managedruntime/manager.go:663-715 | a component is reused only with a matching receipt, its content, its archive and a probe that succeeded last; it is staged again only for a stated reason that holds on disk or because that probe failed; on a healthy disk with all that in place and the probe granted it is reused |
| RuntimeStaging.ResumableGeneration | internal/managedruntime/manager.go:625-661 | offers the generation of a staging or interrupted record of the same plan whose directory exists, and starts fresh only when there is none |
| RuntimeStaging.StageStep | internal/managedruntime/manager.go:144-169 | one turn of the staging loop: what it may touch, what it leaves in the status record, and a receipt that matches the plan; a component in place whose probe succeeds keeps its directory, archive and receipt, time included, and on a healthy disk the turn ends as the answers say |
| RuntimeStaging.StageAll | internal/managedruntime/manager.go:139-169 | after the loop every component is in place with its receipt, in order; a stopped loop leaves manifest and directory alone and only planned receipts; on a healthy disk what was already in place and probed well is left as it was |
| RuntimeStaging.AgreementThroughStep | internal/managedruntime/manager.go:139-169 | receipts that agree with the plan still do after any step of staging |
| RuntimeManager.Activate | internal/managedruntime/manager.go:1162-1179 | current names the new generation and previous holds the old current; on failure current is as found, and every instant on the way is live |
| RuntimeManager.RestorePointers | internal/managedruntime/manager.go:1143-1160 | success puts both pointer files back, absence included; every instant stays live |
| RuntimeManager.ApplyKeepsInvExactly | internal/managedruntime/manager.go:90-238 | an Apply keeps the run invariant (pointers name generations with their manifest, no resumable generation has one, no two plans share a generation) if and only if it ends soundly: a failure is recorded or its generation lost directory or manifest, current.json was put back or its generation survived, the last status was not lost |
| RuntimeManager.LostRestoreOrphansPointer | internal/managedruntime/manager.go:214-228 | a cleaned-up failure whose restore write was lost leaves current.json naming a deleted generation |
| RuntimeManager.FailureKeepsPointerExactly | internal/managedruntime/manager.go:90-238 | a failing Apply leaves current.json as found, and it stays live if and only if the generation cleaned up was not the active one |
| RuntimeManager.LostStatusOrphansPointer | internal/managedruntime/manager.go:229-232 | losing the last status write leaves current.json naming a deleted generation |
| RuntimeManager.ChosenIsUnclaimed | internal/managedruntime/manager.go:109-120 | the generation an Apply builds has no manifest and is named by no pointer and no other plan's record |
| RuntimeManager.QuietIsLive | internal/managedruntime/manager.go:109-190 | while another generation is being built current.json is live at every instant |
| RuntimeApply.Manager.BuildGeneration | internal/managedruntime/manager.go:139-200 | order, stage, prepare, write the manifest: nothing outside the generation, its receipts, the cache and the record changes at any instant |
| RuntimeApply.Manager.WriteManifest | internal/managedruntime/manager.go:824-837 | a manifest is written only when it validates, and then it is the one for these receipts and launchers |
| RuntimeApply.Manager.WriteLaunchers | internal/managedruntime/manager.go:214-228 | either the launchers are in place or, when the transaction's own undo succeeded, the directory is as before |
| RuntimeApply.Manager.SwitchGeneration | internal/managedruntime/manager.go:196-228 | the switch happens, or current is back as found (previous too unless activation stopped half way) whenever the restore writes succeed; live at every instant |
| RuntimeApply.Manager.ApplyInto | internal/managedruntime/manager.go:129-238 | every way an Apply can end from an existing generation directory, with the files and launchers it leaves |
| RuntimeApply.Manager.Apply | internal/managedruntime/manager.go:90-238 | meets the relation of its outcome; it is suspended if and only if the last answer was a cancellation staging is kept for, and then nothing is removed; any other failure on a healthy disk removes the whole generation, and without a healthy disk what a failure leaves behind was refused call by call; unmarked launcher files never change; from the run invariant current.json is live at every instant unless a status or restore write is lost; at every instant at which the record still offers the generation the plan can be taken up again; when nothing fails by accident an applicable plan (acyclic, complete, stageable, its launchers preparable) is applied; one that is applied passed through an instant with everything staged and one with current.json switched but the record still staging |
| RuntimeApply.Manager.Assemble | internal/managedruntime/manager.go:170-200 | launchers prepared and the manifest written, or the failure recorded; staged receipts of a complete plan always make a valid manifest |
| RuntimeApply.Manager.Cleanup | internal/managedruntime/manager.go:133-137 | the deferred removal touches the generation's tree only, and on a healthy disk nothing of it is left |
| RuntimeApply.Manager.RemoveFailed | internal/managedruntime/manager.go:133-137 | a failed Apply ends with the removal tried, the outcome saying whether it finished |
| RuntimeApply.ManifestWillBeValid | internal/managedruntime/types.go:292-346 | the receipts staged for an ordered plan and launchers with different names pass the manifest's validation |
| RuntimeApply.AppliedNeeds | internal/managedruntime/manager.go:90-238 | whatever was applied had every dependency planned, no cycle and a generation name within the limit |
| RuntimeApply.AppliedAssembles | internal/managedruntime/manager.go:190-237 | what staging established survives the switch and the last status write |
| RuntimeRuns.Rollback | internal/managedruntime/manager.go:312-364 | swaps the pointer files, or selects a complete target and keeps the old current; a refusal is justified by the files or the answers; current is live at every instant; when nothing fails it succeeds exactly if there is a usable previous pointer or target |
| RuntimeRuns.RollbackKeepsInv | internal/managedruntime/manager.go:312-364 | every rollback, half done or refused, keeps the run invariant |
| RuntimeRuns.EmptyRootIsGood | internal/managedruntime/manager.go:90-108 | a root without files satisfies the run invariant |
| RuntimeRuns.RunsKeepPointersGood | internal/managedruntime/manager.go:90-364 | in every run of Apply and Rollback, as long as the Applies end soundly, both pointers are absent or name an existing generation whose manifest carries the pointer's plan |
| RuntimeRuns.RunsAreGoodExactly | internal/managedruntime/manager.go:90-364 | the invariant holds all through a run if and only if all its Applies end soundly |
| RuntimeRuns.UnrecordedFailureOrphans | internal/managedruntime/manager.go:133-137 | from every good root with a current generation and whatever a completed staging of any valid plan left there: a run with new names and all pointer and last status writes successful after which current.json names nothing |
| RuntimeRuns.ApplyThenRollbackRestores | internal/managedruntime/manager.go:312-341 | Apply and then Rollback("") gives back the bytes current.json had |
| RuntimeRuns.RollbackTwiceIsIdentity | internal/managedruntime/manager.go:312-341 | Rollback("") twice changes nothing |
| RuntimeRuns.SuspendedIsStopped | internal/managedruntime/manager.go:139-160 | a cancelled Apply can be resumed in the same generation, with only planned receipts added |
| RuntimeRuns.StopsKeepGeneration | internal/managedruntime/manager.go:109-160 | through any number of cancellations and kills the generation stays, its receipts agree with the plan and none is foreign |
| RuntimeRuns.ResumedEqualsUninterrupted | internal/managedruntime/manager.go:109-237 | however often it was cancelled or killed, at whatever instant, the Apply that completes has the manifest components of an uninterrupted one, timestamps aside |
| RuntimeRuns.BrokenIsNotResumable | internal/managedruntime/manager.go:133-137 | any other failure whose clean-up ran leaves nothing to resume |
| RuntimeRuns.WindowIsResumable | internal/managedruntime/manager.go:211-232 | between activation and the last status write the new generation is in use, whole, and still offered for resumption |
| RuntimeRuns.CrashThenFailureOrphans | internal/managedruntime/manager.go:109-137 | after a crash at that instant an Apply that resumes and fails is possible, and every one that cleans up deletes the generation in use |
| RuntimeVerify.ReceiptsForGeneration | internal/managedruntime/manager.go:744-822 | succeeds only when receipt files and manifest components are in bijection and every receipt file agrees with its component on version, path, hash, method, package, entry point, platform and architecture; on a healthy disk it succeeds exactly then, and a file that differs in one of them is a mismatch |
| RuntimeVerify.MatchReceipts | internal/managedruntime/manager.go:754-822 | the listing loop with its shrinking map of expected components decides the bijection |
| RuntimeVerify.CheckEntry | internal/managedruntime/manager.go:765-814 | one receipt file fits, is wrong for a stated reason, or could not be read |
| RuntimeVerify.ListedIsVouched | internal/managedruntime/manager.go:801-814 | a receipt file passes exactly when the manifest has a component with its ID whose receipt differs from it in nothing that is compared |
| RuntimeVerify.MatchIsVouched | internal/managedruntime/manager.go:744-822 | so does a whole generation: every file vouched for, no component twice, none without a file |
| RuntimeVerify.ProbeAll | internal/managedruntime/manager.go:277-304 | every receipt is probed in order up to the first failure |
| RuntimeVerify.Verify | internal/managedruntime/manager.go:240-310 | a verdict, given at all, is right about pointer, manifest, receipts, host and launchers; acceptance means that every receipt file was vouched for and its component probed, in order; a receipt file the manifest does not vouch for is never accepted; when nothing fails it is acceptance exactly when all of them are good |
| RuntimeVerify.AppliedReceiptsMatchExactly | internal/managedruntime/manager.go:744-822 | the receipts of an applied plan pass exactly when no foreign receipt file starts with the generation's name |
| RuntimeVerify.VerifyAfterApplyExactly | internal/managedruntime/manager.go:190-310 | after a successful Apply on its own platform Verify accepts if and only if there is no foreign receipt, aliased or hidden launcher, or left-over marked launcher |
| RuntimeVerify.ResumedApplyVerifiesExactly | internal/managedruntime/manager.go:90-310 | a plan cancelled, killed and resumed any number of times ends in a generation Verify accepts if and only if its launchers allow it |
| RuntimeVerify.PrefixClash | internal/managedruntime/manager.go:765-769 | a receipt of a plan whose ID extends another's makes the other's generation fail verification |
| RuntimeVerify.LongPlanIdNeverApplies | internal/managedruntime/types.go:292-346 | a plan whose generation name passes the manifest's limit never applies from scratch |
| RuntimeRecords.AppliedIsRecorded | internal/managedruntime/manager.go:381-500 | after a successful Apply every component of the plan has a receipt on disk that says its version, digest, method, package and entry point, about content that is there, and the manifest lists these receipts only |
| RuntimeRecords.AppliedIsProbed | internal/managedruntime/manager.go:139-169 | every component of an applied plan was probed during that Apply, and its probe succeeded |
| RuntimeRecords.MatchesExactly | internal/managedruntime/manager.go:676-728 | a staged receipt is taken for a component's exactly when it is, in everything compared, the one staging it would write |
| RuntimeRecords.ResumableExactly | internal/managedruntime/manager.go:625-661 | a plan is taken up again exactly when its own record says staging or interrupted of a generation that has its directory |
| RuntimeRecords.PlanIsValidExactly | internal/managedruntime/types.go:117-142 | accepted plans: names and lists within their limits, as many IDs as components |
| RuntimeRecords.ManifestIsValidExactly | internal/managedruntime/types.go:292-346 | accepted manifests: receipts owned, named and of this generation, as many components as receipts, as many launcher names and paths as launchers |
| RuntimeRecords.GenerationNameInjective | internal/managedruntime/manager.go:113-115 | different plans and different times give different generation names |
| RuntimeRecords.ScratchExactly | internal/managedruntime/manager.go:109-190 | besides the pointers an Apply touches its record, its generation's tree and receipts, and the cache |
| RuntimeRecords.GoneExactly | internal/managedruntime/manager.go:133-137 | a finished clean-up leaves no directory, manifest or component directory of the generation |
| Credentials.TargetsOf | internal/install/strix_credentials.go:179-199 | the targets are the configured paths without blanks and repetitions |
| Credentials.KindsByName | internal/install/strix_credentials.go:201-210 | which store a target is, by the last part of its path |
| Credentials.Targets | internal/install/strix_credentials.go:179-199 | the loop over the configured paths computes them, in order |
| Credentials.Stage | internal/install/strix_credentials.go:109-153 | every stage file holds its target's rendering and nothing else but render files changed; a failure sweeps what it staged |
| Credentials.StagingStep | internal/install/strix_credentials.go:109-153 | staging one more target keeps the earlier stage files and the live targets |
| Credentials.RenderTarget | internal/install/strix_credentials.go:201-287 | rendering reads the target and changes at most its render file, which it removes again |
| Credentials.UndoStep | internal/install/strix_credentials.go:352-377 | restoring the last committed backup undoes exactly the last commit |
| Credentials.Commit | internal/install/strix_credentials.go:83-97 | a prefix of the targets holds its staged bytes, nothing else changed |
| Credentials.Rollback | internal/install/strix_credentials.go:352-377 | walking back over the committed targets, errors notwithstanding, only targets change; without errors the state before the commits is back, and the parents of each target were found safe, the last one first; a target whose parents are not is left alone |
| Credentials.RotateDeepSeek | internal/install/strix_credentials.go:64-105 | meets the relation of its outcome: refused, unstaged, not committed, rolled back or rotated, bridge included, each for the answer that led there; the key is trimmed and an empty one refused; on a healthy disk with every question granted and every target rendering it rotates, and no stage file is left |
| Credentials.AllOrNothing | internal/install/strix_credentials.go:64-105 | every target holds its rendering on success and its old content after a failure whose undo writes succeeded |
| Credentials.UndoneExactly | internal/install/strix_credentials.go:257-287 | a failed rotation gives back every target if and only if no existing target has the name of another's render file |
| Credentials.FailureIsIdentity | internal/install/strix_credentials.go:64-105 | without a Strix target a failed rotation leaves the whole tree as it was |
| Credentials.NoStageSurvives | internal/install/strix_credentials.go:379-383 | no stage file outlives the call |
| CheckpointLock.StepKeepsOwnershipExactly | internal/continuity/lock.go:36-76 | a step keeps "whoever is inside owns the lock file" if and only if it does not remove the file of someone inside |
| CheckpointLock.StepKeepsMutex | internal/continuity/lock.go:25-31 | at most one goroutine of a process is past the process mutex |
| CheckpointLock.StepKeepsCheckpoint | internal/continuity/continuity.go:113-147 | a pending commit is newer than everything shown, so checkpoints follow commit order |
| CheckpointLock.RunsAreSafe | internal/continuity/lock.go:21-77 | in every interleaving with crashes but no live steal: mutual exclusion, and checkpoint.json shows a committed state, in commit order |
| CheckpointLock.NothingStaleNothingStolen | internal/continuity/lock.go:61-65 | when no lock file is seen older than five minutes nothing is stolen |
| CheckpointLock.CheckpointNeverGoesBack | internal/continuity/continuity.go:100-151 | what has been shown and committed stays a prefix of what will be |
| CheckpointLock.TwoWaitersStealTwice | internal/continuity/lock.go:61-65 | a concrete run in which two waiters steal one abandoned lock, both are inside and the checkpoint ends behind the store |
| Continuity.UnionStrings | internal/continuity/continuity.go:226-242 | first occurrences of the non-empty values of both lists, in order, up to the limit (at least one) |
| Continuity.MergeErrors | internal/continuity/continuity.go:244-261 | first occurrences by class and summary, in order, up to the limit |
| Continuity.CutRight | internal/continuity/continuity.go:226-261 | cutting the right operand to the limit first loses nothing |
| Continuity.MergedIsAssociative | internal/continuity/continuity.go:226-261 | bounded merging is associative at every limit |
| Continuity.MergedExtends | internal/continuity/continuity.go:226-261 | a merge keeps a stored list as a prefix and a full one as it is |
| Continuity.MergeWorkState | internal/continuity/continuity.go:153-224 | the field by field assignments compute the merge |
| Continuity.NewerTextWins | internal/continuity/continuity.go:153-224 | every text field of a merge is the new one when that is not empty, and the stored one when it is |
| Continuity.NewerFactsWin | internal/continuity/continuity.go:153-224 | flags, versions, evidence and the latest test follow the newer state; a completed status stays only as the rule says |
| Continuity.MergedFiles | internal/continuity/continuity.go:226-242 | a merge lists files of either side, at most 500, and all of them while there is room |
| Continuity.MergedErrors | internal/continuity/continuity.go:244-261 | and errors, by class and summary, at most 20 |
| Continuity.ErrorKeySeparates | internal/continuity/continuity.go:248 | the key separates errors whose class holds no NUL |
| Continuity.ReplayedSaveIsHarmless | internal/continuity/continuity.go:153-224 | merging the same state twice is merging it once |
| Continuity.MergedListsAreAssociative | internal/continuity/continuity.go:206-207 | files and errors of three saves do not depend on grouping |
| Continuity.StatusIsNotAssociative | internal/continuity/continuity.go:176-181 | the status of three saves does |
| Continuity.CompletedStaysExactly | internal/continuity/continuity.go:176-178 | which saves reopen a completed task, and which do not |
| Continuity.Engine.Save | internal/continuity/continuity.go:100-151 | the store gets the merge or stays, the checkpoint gets what the store got or stays, in this order and as the answers say |
| Continuity.Engine.SavedMeans | internal/continuity/continuity.go:113-147 | what a successful save stores: each new text, or the stored one where the new is empty |
| Continuity.ListsOnlyExtend | internal/continuity/continuity.go:113-147 | over any run of saves the lists only grow at the end up to 500 and 20 and then freeze, and a verified completion is never taken back |
| Continuity.OneMergeNormalises | internal/continuity/continuity.go:206-207 | any stored state is normal after one merge |
| SyncQueue.BaseDelayIsCappedDoubling | internal/continuity/sync.go:261-271 | the clamp at ten attempts is never felt: the base is the doubled delay or the cap |
| SyncQueue.BaseDelayMonotone | internal/continuity/sync.go:261-271 | later attempts never wait on a smaller base |
| SyncQueue.RetryDelayBounds | internal/continuity/sync.go:261-279 | each delay lies within a fifth of the capped base, not below it for clocks after 1970, without overflow |
| SyncQueue.JitterSpreads | internal/continuity/sync.go:261-279 | every delay within a fifth of the base is reached by some clock |
| SyncQueue.WaitsExactly | internal/continuity/sync.go:219-232 | what each operation waits in all before its last attempt, never at the cap, and where the cap would hold it |
| SyncQueue.AttemptsAreBounded | internal/continuity/sync.go:245-259 | over its whole life a row is tried at most as often as its policy allows, as many times again for each requeue, and once for each lost claim; it is buried on exactly the last allowed attempt |
| SyncQueue.WithinPolicyExactly | internal/storage/storage.go:970-990 | the tries that were not lost stay within one policy if and only if the row was never requeued, or once and not tried since |
| SyncQueue.OverrunExactly | internal/storage/storage.go:970-990 | over any run of flushes a row that lost no claim is tried more often than its policy allows if and only if it is tried after a requeue |
| SyncQueue.OnlyOversizedStartOver | internal/storage/storage.go:964-990 | without an operator only a memory capture that was buried for its size is requeued |
| SyncQueue.OversizedIsTriedForever | internal/continuity/sync.go:140-142 | for every number of requeues, a life without operator, second flusher or lost claim in which a capture with five allowed attempts is tried five times more for each |
| SyncQueue.Store.ClaimQueue | internal/storage/storage.go:912-921 | only a pending row is claimed |
| SyncQueue.Store.DueQueue | internal/storage/storage.go:808-840 | takes back exactly the claims a minute old, then lists distinct due rows up to the limit, the oldest first and none younger than one left out; all of them when fewer |
| SyncQueue.TriedWhen | internal/storage/storage.go:808-990 | when a row can be listed: new at once, failed from its time on, claimed only after a minute, buried only after a requeue, delivered never |
| SyncQueue.RetryQueueItem | internal/continuity/sync.go:245-259 | the attempt is recorded as a retry or, on the last attempt, as a dead letter, in this row only |
| SyncQueue.FlushItem | internal/continuity/sync.go:151-208 | one item ends delivered, retried, buried, unclaimed, or claimed after a failed store call; it is delivered only by the component its operation needs, a backend for captures and a handler for the rest, after the answer that says so; on a healthy store a pending good item is delivered exactly when that component is there and succeeds |
| SyncQueue.Flush | internal/continuity/sync.go:128-211 | only listed due rows change, each to one ending; without an error everything listed was delivered, and below the limit that is everything due; the row invariant is kept; the log tells what was asked for which item, and on a healthy store with one component missing everything the other one serves is still delivered |
| SyncQueue.CountIsDeliveries | internal/continuity/sync.go:128-211 | the returned count is the number of rows that became delivered |
| SyncQueue.LifeIsGood | internal/continuity/sync.go:128-259 | over any run a row keeps claims = failures, forgiven ones included, + losses + (delivered or in flight), forgiven failures = allowed attempts times requeues, and delivered or buried rows stay unless requeued |
| SyncQueue.StaleSnapshotExactly | internal/continuity/sync.go:245-259 | with an old snapshot a failure keeps the row in its policy if and only if snapshot and row agree on which attempt is the last |
| SyncQueue.TwoFlushersOverrun | internal/storage/storage.go:912-921 | a concrete life of an item that is still pending after its last allowed attempt |
| Compaction.BoundedTextShape | internal/hooks/hooks.go:1253-1266 | a cut text is a head and a tail of the original around the mark, the tail at most one longer, and exactly as long as the limit |
| Compaction.BoundedTextIdempotentExactly | internal/hooks/hooks.go:1253-1266 | bounding text is a projection if and only if the limit is at most 1 or longer than the cut mark |
| Compaction.KeptWholeExactly | internal/hooks/hooks.go:1236-1251 | a text without edge blanks is kept whole if and only if it is within the room of its key: 512, 2048, 4096 or 8192 bytes |
| Compaction.LifecycleMapKeys | internal/hooks/hooks.go:1171-1205 | the three loops keep the first keys of the ranking: priority first, then alphabetical |
| Compaction.PriorityKeysAreKept | internal/hooks/hooks.go:1171-1205 | at a limit of 38 or more, so at 64, every priority key present is kept |
| Compaction.OthersKeptAlphabetically | internal/hooks/hooks.go:1171-1205 | a kept ordinary key sorts before every dropped one |
| Compaction.MapIsWithin | internal/hooks/hooks.go:1160-1234 | depth, map size, array length and string length are bounded at every node |
| Compaction.CompactionIsProjection | internal/hooks/hooks.go:1160-1234 | compacting twice is compacting once with the flag down; a payload is left as it is if and only if it is within all bounds |
| Compaction.PayloadIsBounded | internal/hooks/hooks.go:1156-1205 | compactLifecyclePayload: its result is within the standard bounds, stays as it is when compacted again and has every priority key that was sent |
| Compaction.MapFlagIsExact | internal/hooks/hooks.go:1160-1169 | the flag of a map is raised if and only if more than edge white space was lost |
| Compaction.ValueFlagIsExact | internal/hooks/hooks.go:1207-1234 | so is the flag of a value |
| Compaction.MarshalMinimal | internal/hooks/hooks.go:1301-1320 | the greedy loop keeps what the specification keeps |
| Compaction.GreedyIsMaximal | internal/hooks/hooks.go:1301-1320 | no priority key the greedy loop dropped would still fit |
| Compaction.MarshalPayload | internal/hooks/hooks.go:1279-1299 | the result never exceeds 65536 bytes and each fallback is taken only when the richer form does not fit |
| StoredPayloads.PreparedKeepsPriority | internal/hooks/hooks.go:1109-1148 | after compaction, filling in and flagging every priority key that was sent is there, at most six keys were added, and a cut is flagged |
| StoredPayloads.PreparedCompletes | internal/hooks/hooks.go:1109-1148 | which canonical names are added to a compacted payload and with what: command, tool output, response, summary and error; what was sent under such a name stays; the flag is set exactly if compaction lost something or it was sent |
| StoredPayloads.TightKeepsExactly | internal/hooks/hooks.go:1287-1299 | the first fallback keeps a priority key if and only if it is the flag, or at most sixteen keys are there, or fewer than sixteen priority keys that are there come before it |
| StoredPayloads.GreedyKeepsExactly | internal/hooks/hooks.go:1301-1320 | the second fallback keeps a key if and only if it fits on its turn |
| StoredPayloads.StorePayload | internal/hooks/hooks.go:1109-1154 | what is stored is the first of the three forms that fits |
| StoredPayloads.StoredKeysExactly | internal/hooks/hooks.go:1109-1154 | which priority keys of those sent are stored, stage by stage |
| StoredPayloads.FlagIsStoredExactly | internal/hooks/hooks.go:1145-1154 | a stored payload that lost data carries the flag if and only if the second fallback was not needed or the flag still fitted behind the rest |
| PayloadSizes.JsonSizeIsMonotone | internal/hooks/hooks.go:1279-1285 | the length of compact JSON never shrinks when an object gets more keys, and nothing at all fits |
| PayloadSizes.CutWithoutFlag | internal/hooks/hooks.go:1279-1320 | twelve strings, none of which either compaction cuts, take 73714 bytes of JSON: all but the last are stored, in 65506 bytes, and the flag for the lost one no longer fits |
| Discovery.StepKeepsInv | internal/app/bootstrap_plan.go:46-71 | every step keeps slots equal to the tasks holding one, at most six, and one result for each task past its send |
| Discovery.InvBounds | internal/app/bootstrap_plan.go:44-71 | at most six tasks run, and no send can block |
| Discovery.SomeTaskCanStep | internal/app/bootstrap_plan.go:46-72 | while a task is unfinished some task can step |
| Discovery.RunsKeepInv | internal/app/bootstrap_plan.go:35-72 | in every schedule the invariant holds and the tasks take at most four steps each |
| Discovery.EveryTaskAnswers | internal/app/bootstrap_plan.go:72-76 | when all are done each task has sent exactly one result |
| Discovery.Conclude | internal/app/bootstrap_plan.go:74-96 | no error if and only if every task succeeded and the caller was not stopped; the first real error by name is reported; the map is name to the state that arrived last under it |
| Discovery.PlanIsScheduleIndependent | internal/app/bootstrap_plan.go:35-97 | two schedules with the same answers give the same map |
| CodexHooks.OwnCommandIsRecognised | internal/install/install.go:195-207 | a binary without edge blanks is recognised in its own commands |
| CodexHooks.BlankBinaryIsNotRecognised | internal/install/install.go:195-219 | a blank binary is not |
| CodexHooks.RecognisedByName | internal/install/install.go:209-219 | a command is Baron's by its binary's name, baron or baron.exe in any case, in any directory, slashes and quotes |
| CodexHooks.IsBaronExactly | internal/install/install.go:195-207 | or by beginning as the configured binary's commands do, and in no other way |
| CodexHooks.CanonicalizeItems | internal/install/install.go:221-288 | the loops with `found` and `changed` compute the specification |
| CodexHooks.AddsOneCommand | internal/install/install.go:270-288 | an event without the command gets one group with that one command, its time limit and its message |
| CodexHooks.CanonicalIsIdempotentExactly | internal/install/install.go:221-288 | a second pass changes and reports nothing if and only if the command is recognised as Baron's |
| CodexHooks.CanonicalRunsBaronOnceExactly | internal/install/install.go:221-288 | afterwards the event holds exactly one Baron command, the right one with the right timeout, if and only if the command is recognised as Baron's and the first entry that has it has no Baron hooks nested below it |
| CodexHooks.MergeKeepsTheRest | internal/install/install.go:221-288 | everything that is not Baron's survives the merge in order, nested entries included |
| CodexHooks.RemoveEntry | internal/install/install.go:155-193 | what is left of an entry, and whether it changed |
| CodexHooks.DroppedExactly | internal/install/install.go:155-193 | an entry goes away exactly when it is Baron's own or a group of Baron's commands only, with nothing but a status message and a timeout beside them |
| CodexHooks.RemovalIsIdentityExactly | internal/install/install.go:155-193 | removal leaves a list alone if and only if no Baron command is in it |
| CodexHooks.MergeRoot | internal/install/install.go:38-66 | merges every event of a file and keeps the rest |
| CodexHooks.RemoveRoot | internal/install/install.go:85-153 | removes from every event; an emptied table or file goes away |
| CodexHooks.RemoveAfterMergeExactly | internal/install/install.go:38-153 | removing right after merging gives back a Baron-free file if and only if it has no empty file, table or list and no list-less event that Baron uses |
| ManagedAgents.CountOne | internal/project/agents.go:62-91 | a marker is counted once if and only if it occurs at one place |
| ManagedAgents.MarkerInContext | internal/project/agents.go:62-91 | a block set between marker-free texts is found there and nowhere else |
| ManagedAgents.RefusedExactly | internal/project/agents.go:62-91 | a merge is refused exactly for a marker that occurs twice, a start without an end or the reverse, or an end before the start |
| ManagedAgents.AppendedExactly | internal/project/agents.go:73-80 | a text without markers gets the block behind a blank line |
| ManagedAgents.ReplacedExactly | internal/project/agents.go:81-90 | a text with one block gets it replaced and reports a change only if there is one |
| ManagedAgents.MergeIsIdempotent | internal/project/agents.go:62-91 | a merge applied to its own output reports no change |
| ManagedAgents.MergeIsIdempotentExactly | internal/project/agents.go:62-91 | it does so for every project if and only if the template is one block |
| ManagedAgents.MergeKeepsTheRest | internal/project/agents.go:62-91 | the text around the managed block is kept verbatim |
| ResumeGate.CollectFiles | internal/continuity/resume_gate.go:186-196 | the maps filled file by file are the strong and the weak paths |
| ResumeGate.TaskScopeOverlap | internal/continuity/resume_gate.go:143-184 | strong if and only if a strong file, module, dependency or diff is shared; weak if and only if it is not strong and a file is shared that is weak on both sides and not strong in the task |
| ResumeGate.EvaluateResumeGate | internal/continuity/resume_gate.go:55-104 | the early returns compute the order-free decision, and a match is a real overlap |
| ResumeGate.DecisionExactly | internal/continuity/resume_gate.go:55-104 | which outcome is given when, in terms of readable state, recall, scope and the overlaps of unresolved tasks |
| ResumeGate.OverlapExactly | internal/continuity/resume_gate.go:143-184 | a task overlaps strongly if and only if both sides list the same path as strong evidence, share a module or dependency up to case and edge blanks, or have the same head and diff |
| ResumeGate.WeakPathExactly | internal/storage/task_ledger.go:883-899 | which paths are weak evidence: four folders, generated files, readmes, lock files, documents and settings by their endings |
| ResumeGate.NormalizePathMeans | internal/continuity/resume_gate.go:214-217 | paths compare up to edge white space, the kind of slashes and one leading ./ |
| ResumeGate.DecisionForgetsOrder | internal/continuity/resume_gate.go:55-104 | the outcome does not depend on the order of tasks or of the lists inside them |
| ResumeGate.FingerprintForgetsOrder | internal/continuity/resume_gate.go:106-131 | neither does the fingerprint, for any hash |
| ResumeGate.UnrelatedExactly | internal/continuity/resume_gate.go:55-104 | unrelated work is allowed if and only if the state is readable, no recall was asked for, the scope is structured and no unresolved task overlaps |
| ResumeGate.MoreTasksAreNoLessCautious | internal/continuity/resume_gate.go:55-104 | one more unresolved task never turns a blocking outcome into an allowing one |
| Fingerprints.LineSeparates | internal/continuity/resume_gate.go:118-127 | without separators inside, two tasks have the same line if and only if they compare equal |
| Fingerprints.TasksSeparate | internal/continuity/resume_gate.go:118-129 | and two task lists the same sorted lines if and only if they hold the same tasks as often |
| Fingerprints.HashedSeparates | internal/continuity/resume_gate.go:106-131 | for all inputs without NUL, bar or comma inside what is compared, the hashed texts are equal if and only if the request, its normalised names and the tasks are |
| Fingerprints.FingerprintSeparates | internal/continuity/resume_gate.go:106-131 | so are the fingerprints where the hash does not collide |
| Fingerprints.NulShiftsFields | internal/continuity/resume_gate.go:107-130 | with a NUL inside, for any texts around it, different commits and diffs are hashed alike |
| Fingerprints.BarShiftsFields | internal/continuity/resume_gate.go:120-126 | with a bar inside, for any texts around it, different tasks are |
| Fingerprints.CommaInNameIsAmbiguous | internal/continuity/resume_gate.go:114-116 | with a comma inside, for any two plain names in order, one file and two files are |
| Catalog.EarlierIsStrictWeakOrder | internal/managedruntime/catalog.go:673-687 | irreflexive, asymmetric, transitive, and ties are an equivalence |
| Catalog.EarlierIsPrecedence | internal/managedruntime/catalog.go:673-687 | section 11 of SemVer 2.0.0, except that pre-releases of one version tie |
| Catalog.ParsePrinted | internal/managedruntime/catalog.go:638-671 | parsing what a version prints as gives it back |
| VersionTexts.ParseVersionExactly | internal/managedruntime/catalog.go:638-671 | a text is read as a version if and only if it is that version written, an optional v in front, build metadata behind |
| Catalog.BuildIsRead | internal/managedruntime/catalog.go:638-671 | what every version with build metadata is read as |
| Catalog.BuildIsIgnoredExactly | internal/managedruntime/catalog.go:638-671 | build metadata is ignored if and only if the version is no pre-release and the metadata has no hyphen |
| Catalog.ParsePythonConstraint | internal/managedruntime/catalog.go:726-752 | the loop reads the parts of the declaration, or refuses an empty one |
| ClauseTexts.ClausesArePartwise | internal/managedruntime/catalog.go:732-750 | every part is read on its own and in order, or the whole declaration is refused because one cannot be |
| ClauseTexts.ClauseRoundTrip | internal/managedruntime/catalog.go:733-749 | every clause, written with any blanks, with or without the sign of equality, in full or without a zero patch, is read as that clause |
| ClauseTexts.TrimmingFirstIsIdle | internal/managedruntime/catalog.go:727-733 | trimming the whole declaration before splitting it changes nothing |
| ClauseTexts.ClausesRoundTrip | internal/managedruntime/catalog.go:726-752 | every list of clauses, each written in any of these ways and joined by commas, is read back |
| Catalog.Matches | internal/managedruntime/catalog.go:754-782 | a version matches if and only if it satisfies every clause |
| Catalog.SatisfiesIsNumeric | internal/managedruntime/catalog.go:754-782 | between releases proper the operators compare the three numbers |
| Catalog.SelectRelease | internal/managedruntime/catalog.go:541-566 | the choice is a candidate that no other one precedes, the first of those that tie; none only when no release is a candidate |
| Catalog.SelectPythonRelease | internal/managedruntime/catalog.go:568-593 | the same among Python releases within the matrix that satisfy every clause |
| Catalog.CandidateExactly | internal/managedruntime/catalog.go:541-566 | which releases are candidates: component, asset, readable version, channel and stability |
| Catalog.PythonCandidateExactly | internal/managedruntime/catalog.go:568-593 | and which Python releases, with the matrix and the clauses |
| Catalog.ChoiceIgnoresOrder | internal/managedruntime/catalog.go:541-593 | however a catalog is ordered the chosen versions tie |
| Catalog.ResolveStrixAndPython | internal/managedruntime/catalog.go:201-241 | a plan with both holds the first best Strix release and the first best Python release that satisfies every clause of its requires-python and the tested matrix; Strix alone is resolved only when it requires no Python; it fails only when one of these does not exist |
| EnvFile.QuoteBodyRoundTrip | internal/config/config.go:134-152 | unquoting a quoted string gives it back, and no line break is printed |
| EnvFile.ValueRoundTripExactly | internal/config/config.go:134-152 | one value survives if and only if it is quoted or has no edge blanks |
| EnvFile.WriteEnv | internal/config/config.go:89-106 | refuses an invalid key, otherwise renders the sorted records |
| EnvFile.ReadEnvFile | internal/config/config.go:108-132 | the scanning loop computes the fold over lines |
| EnvFile.ReadLineExactly | internal/config/config.go:108-132 | which lines are records, of which key and value, and which are skipped or refused |
| EnvFile.PlainExactly | internal/config/config.go:134-139 | which values are written without quotes |
| EnvFile.RoundTripExactly | internal/config/config.go:89-152 | a map is written and read back the same if and only if every key is valid, every value is quoted or free of line breaks and edge blanks and every line is below the scanner's limit |

## Left out

- Foreign processes, downloads and installers: their results are arbitrary choices; an archive is its digest, a probe an answer.
- HTTP, JSON and YAML codecs, gzip, tar and zip: documents are values that may also be undecodable; `json.Marshal` is any size function, in PayloadSizes the length of compact JSON without characters to escape; SHA-256 is a function parameter.
- Path cleaning, symbolic links, ownership and permission checks: paths are distinct keys; what is not a regular file is one extra kind of entry.
- Windows: launcher rendering, slashes and sharing errors follow the POSIX branches; the lock protocol has the extra Windows step.
- Which executables of a component become launchers: a function of the receipts, with validated names, targets and identities.
- Case-insensitive comparison of platforms and hashes in receipts and manifests: the model compares them as given, lower-cased.
- Text beyond ASCII: trimming, lower-casing and quoting treat other characters as ordinary printable ones; octal and `\u` escapes of a hand-written .env file are not read.
- Crash atomicity of credential rotation: the source promises nothing about it; the runtime's pointers have it.
- RuntimeRuns.RunsKeepPointersGood: asks for sound endings and new generation names; RunsAreGoodExactly says that sound endings are needed, and the lemmas named above what each unsound one can cost.
- Launchers.LauncherTransaction.Apply: a file that another process puts under a planned path between preparation and writing is overwritten, marked or not, as in the source.
- StoredPayloads.StorePayload: starts with the compaction; reading an exit code or a failure out of tool text (internal/hooks/hooks.go:1086-1108) only adds keys to what was sent before it.
- Credentials.RotateDeepSeek: takes the stage names, a time stamp with 48 random bits, to be new.
- Credentials.Stage: what a store says once the key is in it is a function of its kind, its old content and the key; editing YAML and environment lines is not modelled.
- Credentials.SecretBridge.Write: a failing bridge may have received the key, and nothing takes it back.
- CodexHooks.MergeRoot: works on values; the in-place updates of shared maps are not visible separately.
- SyncQueue.Flush: is one flusher at a time; between flushers only the single-row step is modelled.
- ResumeGate.EvaluateResumeGate: the rendering of local context and conversations is not modelled, nor the reason texts.
- The SQLite store, the task ledger and the recovery builder: only the queue calls, with the contracts of their SQL.
- Command line, doctor, status, progress, prompts and the JavaScript and TypeScript adapters.
- App-level bundle orchestration (internal/app/managed_runtime.go): sequencing of foreign steps.
- The embedded template of AGENTS.md is not part of this model: the lemmas speak of every template.
- Resolver.ResolveStrixPython (internal/managedruntime/catalog.go:298-327): the same loop as SelectPythonRelease without the component filter.
