# Cinba: a verified model

This project models the parts of Cinba whose correctness is hardest to see from reading the code,
and proves what they promise. It is written in Dafny 4.11; `dafny verify dfyconfig.toml` checks all
of it. Every claim is about the model, for all inputs, states or runs.

## The parts

- **Installation.** `InstallDisk` is the disk: the transaction record, the current-release pointer,
  the release directories, the protected data and its snapshots. Each file operation is one method
  that may succeed, fail, or be the last thing its process does; removals and copies may stop
  half-way, temp-and-rename writes are atomic. `InstallTransaction` holds the installer's operations
  in the order of the source. `InstallSpec` states phase by phase what they keep, and
  `InstallHistory` draws from it what a user is promised over any history of operations, failures
  and crashes, also crashes inside recovery. `StableFiles` replaces launcher and Desktop application
  over `FileStore`, and `BundleInstallation` composes all of it. `DataSnapshot`, `DataRestore` and
  `DataRoundTrip` open up the snapshot and its restoration over `DataTree`, a disk of nested paths.
  `Inventory` and `InventoryCreation` are the exact description of a release.
- **Protocols between processes.** `InstallationLock`, `UpdateLease` and `UpdateHandoff` are
  transition systems in which any number of processes interleave and die: the installation lock with
  its acquisition directory, the update lease as it moves from launcher to helper, and the handoff
  file with its claims, removals and reaping. `UpdateProgress` shows that hand-overs get done.
- **Transcripts.** `Session` is the ledger (specification and mutable object), `EventFolder` folds
  live events, `StoredEntries` folds stored entries, `ActiveBranch` selects the branch. `Transcript`
  defines what a transcript says, `Conversations` what a well-formed conversation is in both of its
  forms; `StoredRoute` and `LiveRoute` follow the two routes, and `Reconciliation` proves that they
  agree, exactly but for one exception, and runs both routes on the mutable objects. `CutOffReply`
  adds the reply that was cut off while its tools were running, and `LedgerStatus` what the ledger
  shows besides the transcript.
- **Smaller pieces.** `UpdateDownload` (resumable download), `ShellPath` and `ShellText` (the managed
  block in a shell profile, and the text around it), `CoreConnection` (the reconnecting client), `PiConnection` and `LineSplitter` (the
  child process client), `Uninstall` (targets, plan and execution).

Code that changes things step by step is imperative here too: classes for the disk, the files, the
ledger, the folder, the clients and the caches, methods with loops where the source loops. Protocols
are pure step functions over a shared state, one operation a step.

## Main results

These are the theorems; the other rows of the table below lead up to them.

- Installation: `InstallHistory.Run` (any history with failures and crashes keeps the promise of each
  transaction), `InstallTransaction.Activate`, `InstallTransaction.Recover` (which end a transaction
  gets, from the disk as found),
  `BundleInstallation.InstallReleaseBundle` (all old or all new),
  `StableFiles.PreparedFiles.Rollback`, `Inventory.VerifyArtifactInventory`,
  `InventoryCreation.CreateArtifactInventory`.
- Data: `DataSnapshot.CreateDataSnapshot`, `DataRestore.RestoreDataSnapshot`,
  `DataRoundTrip.RestoresExactlyWhenNoneSetAsideOver`, `DataRoundTrip.SnapshotThenRestore`.
- Protocols: `InstallationLock.MutualExclusion`, `InstallationLock.UndisturbedAcquisition`,
  `UpdateLease.HoldersOwnExactlyInSafeRuns`, `UpdateLease.GuaranteesExactlyWhenTerminationIsSure`,
  `UpdateLease.LeaseOnlyMovesForward`, `UpdateProgress.UndisturbedHandOver`,
  `UpdateProgress.HelperInstalls`, `UpdateProgress.NoCancellationWithoutFailure`,
  `UpdateHandoff.AtMostOnceExactlyWhenSound`.
- Transcripts: `Reconciliation.LiveAndStoredAgree`, `Reconciliation.Reconcile`,
  `CutOffReply.CutOffAgrees`, `LedgerStatus.StatusIsAsReported`, `Session.Mirror`,
  `ActiveBranch.BranchOfTreeIsTheRootPath`.
- Smaller pieces: `UpdateDownload.Download`, `UpdateDownload.Attempts`, `ShellPath.RefreshKeepsOutside`,
  `ShellPath.ConfigureThenRemove`, `ShellText.RemovingKeepsTheText`, `CoreConnection.RunTraceIsGood`,
  `CoreConnection.EffectsHaveReasons`, `CoreConnection.LostClientComesBack`,
  `PiConnection.EachRequestHasItsFate`, `LineSplitter.FeedAll`,
  `Uninstall.KeepsDataExactlyInSafeHomes`, `Uninstall.UninstallNormally`,
  `Uninstall.UninstallEverything`.
- Exact limits: `InstallHistory.ActivationOverwriteIsHarmless`,
  `InstallHistory.DefaultCheckIsExactUnlessReinstalled`, `StableFiles.RecoveryNeedsTheMode`.

## What came out

- Asking for activation when no candidate is ready overwrites the record with `failed`. That is
  harmless exactly in the phases in which nothing has been moved or everything is moved back
  (`InstallHistory.ActivationOverwriteIsHarmless`).
- A discard of the ready candidate that is cut short leaves a record that is still `ready` and a part
  of the candidate, or nothing. Verification before activation is the exact remedy
  (`InstallHistory.ReadyCandidateIsWholeExactlyWhenVerified`). Without it, activation can commit
  something else than the verified candidate in two ways: with a check that does not look at the
  files, a part of it (`InstallHistory.TornCandidateCanCommit`); with the default check, the directory
  that was current before, when that very release is installed again
  (`InstallHistory.ReinstallationCanCommitTheOldDirectory`). The default check is exact if and only if
  the release is another one (`InstallHistory.DefaultCheckIsExactUnlessReinstalled`).
- Staging under an id whose candidate directory already exists is refused, and the error handler then
  removes that directory (`InstallTransaction.UndoStage`).
- Restoring a snapshot deletes restored data when a root is, or lies in, the place where an earlier
  root is set aside; root validation does not exclude this (`DataRoundTrip.NestedRootIsLost`). For all
  other roots a restoration that goes through is exact
  (`DataRoundTrip.RestoresExactlyWhenNoneSetAsideOver`).
- Taking stable files back after the process died is right exactly when the mode (create or replace)
  tells whether the destination existed (`StableFiles.RecoveryNeedsTheMode`).
- A handoff is claimed at most once exactly when records are not reaped before claims expire, a
  removal unlinks `handoff.json` first, and a claimer reads and links in one go
  (`UpdateHandoff.AtMostOnceExactlyWhenSound`). The program meets the first two; the third is an
  assumption about timing.
- The lease's guarantees hold over all runs exactly when terminating the helper is sure to end it
  (`UpdateLease.GuaranteesExactlyWhenTerminationIsSure`). It is not sure in the source: what
  `child.terminate()` throws is swallowed, and `terminate` returns at once when `kill()` answers false
  (scripts/product-update.ts:231-243, 251-263). Run by run, a surviving helper does harm exactly when
  the cancellation removes a lease that it has claimed and still works under
  (`UpdateLease.HoldersOwnExactlyInSafeRuns`).
- The live and the stored transcript agree exactly when no normally finished reply consists of
  thinking only (`Reconciliation.LiveAndStoredAgree`); after a reply that was cut off in its tools,
  exactly when in addition its calls have all started and each has its result stored and shown, or
  waits for the user with nothing shown (`CutOffReply.CutOffAgrees`).
- With overridden XDG homes, a normal uninstall removes no data or configuration directory exactly when
  the homes are apart (`Uninstall.LinuxSparesExactlyWhenHomesApart`), and touches no file in them
  exactly when the homes are disjoint (`Uninstall.KeepsDataExactlyInSafeHomes`). With state and data in
  one home the data goes (`Uninstall.SharedHomeLosesData`); with the state kept inside the
  configuration the homes are apart but not disjoint (`Uninstall.StateInsideConfiguration`).

## Assumptions

Transaction ids, tokens, handoff ids and process ids are fresh and not reused. The recorded pid is
the acting process. Digests are an arbitrary function of the bytes. JSON records are datatypes; a
malformed record is the absent one. The clock does not go back. Operations on the releases directory
run under the installation lock and so one at a time. An installer operation that ends because an
undo operation itself failed (`rollback-failed`) ends a history. The product does not change its data
while an activation is under way or interrupted (`InstallHistory.Quiet`): nothing in the installer
enforces this, and data written then would be lost by the rollback.

## Model

| member | source | states |
|---|---|---|
| InstallDisk.VerifiedPartIsWhole | packages/installer/src/transaction.ts:175-184 | of a directory whose removal stopped half-way, verification accepts only the whole |
| InstallDisk.Disk.WriteRecord | packages/installer/src/installation-store.ts:249-294 | the record is replaced as a whole or not at all, also when the process dies |
| InstallDisk.Disk.PointTo | packages/installer/src/installation-store.ts:268-281 | the pointer is written or cleared as a whole or not at all |
| InstallTransaction.SwitchDirectory | packages/installer/src/transaction.ts:317-339 | a rename is retried until it works or about five seconds have passed; it moves the directory or changes nothing |
| InstallTransaction.PlaceCandidate | packages/installer/src/transaction.ts:190-210 | the payload is moved or copied to the candidate directory; no other directory changes |
| InstallTransaction.StageTry | packages/installer/src/transaction.ts:286-296 | wherever it stops, the installation is the old one or a staging one, and ready means the verified payload is in place |
| InstallTransaction.UndoStage | packages/installer/src/transaction.ts:297-305 | the error handler removes the candidate directory, also one that was there before, and records the failure of a begun transaction; nothing else changes |
| InstallTransaction.Stage | packages/installer/src/transaction.ts:212-309 | refused by the checks of record and payload without any change, by a later check with at most a leftover candidate directory removed, or staged: pointer, data and the other directories stay; the invariant holds under an id that no earlier backup or snapshot carries; without faults an accepted payload ends ready |
| InstallTransaction.Discard | packages/installer/src/transaction.ts:68-85 | only a ready candidate is discarded; finished, the candidate is gone and the record failed; cut short, nothing but the candidate suffered |
| InstallTransaction.BeginSwitch | packages/installer/src/transaction.ts:358-381 | up to the decision to switch only the snapshot and the record change |
| InstallTransaction.MoveIntoPlace | packages/installer/src/transaction.ts:382-390 | a same-named release is set aside and the candidate takes its final name, and whatever happened can be undone |
| InstallTransaction.PointAndMigrate | packages/installer/src/transaction.ts:391-404 | afterwards the target is current and the data is in its format, or the error handler can still undo everything |
| InstallTransaction.CommitKeepsInv | packages/installer/src/transaction.ts:406-414 | committing a switch that passed verification keeps the invariant; what the default check accepted is exactly the candidate, unless the release was reinstalled |
| InstallTransaction.VerifyAndCommit | packages/installer/src/transaction.ts:406-414 | commits only a target that passed verification |
| InstallTransaction.ActivateTry | packages/installer/src/transaction.ts:353-414 | the whole try block: committed, undoable, or dead with the invariant kept |
| InstallTransaction.UndoMoves | packages/installer/src/transaction.ts:435-445 | pointer and directories are put back as they were before activation |
| InstallTransaction.UndoActivation | packages/installer/src/transaction.ts:426-459 | a failed activation ends rolled back, unless an undo operation fails |
| InstallTransaction.FinishRollback | packages/installer/src/transaction.ts:446-459 | the data before activation is back when the record says rolled back |
| InstallTransaction.Activate | packages/installer/src/transaction.ts:341-475 | committed means the staged release is current and, with the default check, verified; an error means the previous release and data are back, and the record says rolled back or failed unless writing it failed; if undoing cannot go on, nothing is lost; no ready record means at most an overwritten record |
| InstallTransaction.RollbackMoves | packages/installer/src/transaction.ts:501-517 | what a dead process moved is inferred from the directories and undone |
| InstallTransaction.PutPreviousBack | packages/installer/src/transaction.ts:508-516 | whichever of target, backup and candidate exist, the previous release's files end in its directory |
| InstallTransaction.LooksSwitchedIsSwitched | packages/installer/src/transaction.ts:543-561 | what recovery takes for a finished switch is one, or the previous release under the same name, and nothing is lost |
| InstallTransaction.Rollback | packages/installer/src/transaction.ts:497-532 | recovery's rollback ends rolled back with the old pointer, directory and data, and keeps the invariant wherever it stops |
| InstallTransaction.Complete | packages/installer/src/transaction.ts:552-561 | a switch that looks finished is committed if it passes the check once more, unless an operation fails, and only then; otherwise it is undone |
| InstallTransaction.CompleteOrRollback | packages/installer/src/transaction.ts:543-561 | committed only where the disk shows a finished switch that passes the check, and always there unless an operation fails; a switching record with a snapshot, or anything else, is undone |
| InstallTransaction.Recover | packages/installer/src/transaction.ts:477-573 | recovery keeps the invariant wherever it stops; which end a transaction gets follows from the record and the disk as found: committed exactly where a finished switch stands, rolled back everywhere else, unless an operation fails; without faults it always returns; if it cannot go on, the previous release and the data can still be put back |
| InstallTransaction.Cleanup | packages/installer/src/cleanup.ts:20-72 | removes only what is not the current release and, without faults, all of it and the transaction's snapshot; reports what it could not remove; refused during a transaction |
| InstallHistory.InvPromises | packages/installer/src/transaction.ts:341-573 | the invariant gives the promise: committed means target and migrated data, and a directory that is the verified candidate but for two cases after a torn discard; rolled back or failed means previous release and old data |
| InstallHistory.Perform | packages/installer/src/transaction.ts:212-573 | one operation stages a new transaction or continues the one there is, and keeps the invariant, or ends the history with nothing lost; without faults it has the effect it is for |
| InstallHistory.HistoryExtends | packages/installer/src/transaction.ts:212-573 | one more operation keeps every promise of the history so far |
| InstallHistory.MarksExplained | packages/installer/src/transaction.ts:212-573 | which operation staged the transaction of a state, and which state has the data its activation finds, follows from the history |
| InstallHistory.HistoryPromises | packages/installer/src/transaction.ts:341-573 | the promise of an ended transaction, in terms of the payload, the operations and the earlier states alone |
| InstallHistory.InstallationSucceeds | packages/installer/src/transaction.ts:212-414 | in any history without faults, an acceptable payload that is staged under a fresh id and then activated is current, is exactly the payload, with the data in its format |
| InstallHistory.Run | packages/installer/src/transaction.ts:212-573 | over any history of operations, failures and crashes: each ended transaction goes back to the operation that staged it; committed, that payload is current, verified with the default check, exact without discards or when it is another release than before, with the data migrated from where the product left it; rolled back or failed, release and data are as at that operation; a history that ends early has lost nothing; without faults every operation of the history that applies has its effect |
| InstallHistory.ActivationOverwriteIsHarmless | packages/installer/src/transaction.ts:415-424 | overwriting the record with failed keeps the invariant exactly in five phases |
| InstallHistory.TornCandidateCanCommit | packages/installer/src/transaction.ts:68-414 | a discard that dies in the removal, then an activation with a check that ignores the files, operation by operation: a part of the candidate is committed |
| InstallHistory.ReinstallationCanCommitTheOldDirectory | packages/installer/src/transaction.ts:68-561 | a discard that dies before its record, an activation that dies after its record, and recovery with the default check, operation by operation: the old directory of the same release is committed |
| InstallHistory.ReadyCandidateIsWholeExactlyWhenVerified | packages/installer/src/transaction.ts:175-184 | a ready candidate is whole if and only if it is there and verifies |
| InstallHistory.DefaultCheckIsExactUnlessReinstalled | packages/installer/src/transaction.ts:341-561 | with the default check, whatever discards were torn, a committed directory is exactly the candidate if and only if the release is not the one that was current |
| InstallationLock.OtherEventsKeepInv | packages/installer/src/installation-lock.ts:46-127 | starting, releasing and dying keep the lock's invariant |
| InstallationLock.StepKeepsDirInv | packages/installer/src/installation-lock.ts:55-78 | the acquisition directory always belongs to the one live acquisition inside it |
| InstallationLock.InsideKeepsLockInv | packages/installer/src/installation-lock.ts:91-121 | inside the directory, a lock is created only where none is and removed only when its owner is dead |
| InstallationLock.OutsideKeepsLockInv | packages/installer/src/installation-lock.ts:122-126 | a release touches only its own lock |
| InstallationLock.RunKeepsInv | packages/installer/src/installation-lock.ts:46-127 | every interleaving of any number of processes keeps the invariant |
| InstallationLock.MutualExclusion | packages/installer/src/installation-lock.ts:82-127 | at most one live acquisition holds the lock |
| InstallationLock.OnlyOwnLockReleased | packages/installer/src/installation-lock.ts:105-126 | a lock disappears only by its owner's hand or after its owner died |
| InstallationLock.StepsAreOperations | packages/installer/src/installation-lock.ts:46-127 | undisturbed steps of one acquisition depend on the two paths and on who is alive only |
| InstallationLock.UndisturbedAcquisition | packages/installer/src/installation-lock.ts:46-127 | with nobody inside the acquisition directory, an undisturbed acquisition wins exactly when the lock is absent or its owner dead, and otherwise changes nothing |
| InstallationLock.DeadDirectoryIsRemoved | packages/installer/src/installation-lock.ts:55-78 | a dead process's acquisition directory is removed and entered on the second attempt |
| InstallationLock.BusyDirectoryIsLeftAlone | packages/installer/src/installation-lock.ts:70-74 | an acquisition that finds another one inside gives up and changes nothing |
| InstallationLock.UndisturbedRelease | packages/installer/src/installation-lock.ts:122-126 | a release gives the lock back |
| UpdateLease.AcquireKeeps | packages/installer/src/update-lock.ts:118-158 | acquiring never takes the lease of a live owner |
| UpdateLease.TransferKeepsGlobals | packages/installer/src/update-lock.ts:68-83 | a transfer hands the lease to the transferring process's own helper |
| UpdateLease.LauncherKeepsOwn | scripts/product-update.ts:201-281 | what the launcher knows of its lease stays true at each of its steps; where its steps lead is in UpdateProgress |
| UpdateLease.HelperKeepsOwn | scripts/product-update.ts:383-426 | what the helper knows of its lease stays true at each of its steps |
| UpdateLease.OthersLeaseStays | packages/installer/src/update-lock.ts:95-114 | a step of one process does not touch another live process's lease |
| UpdateLease.RunKeepsInv | packages/installer/src/update-lock.ts:57-192 | every run of launchers, helpers and other updaters keeps the invariant, unless a cancellation removes a claimed lease under a surviving helper |
| UpdateLease.AtMostOneHolder | packages/installer/src/update-lock.ts:57-192 | in those runs at most one live process acts under the lease |
| UpdateLease.InstallsOnlyUnderTheClaimedLease | scripts/product-update.ts:383-390 | in those runs install runs only in a helper holding the claimed lease, after the launcher and the blocking surface have exited |
| UpdateLease.StepMovesForward | packages/installer/src/update-lock.ts:68-114 | one step leaves the token alone and moves the phase forward, or removes the lease |
| UpdateLease.LeaseOnlyMovesForward | packages/installer/src/update-lock.ts:57-192 | over every such run the token never changes and the phase goes owned, transferred, claimed, gone |
| UpdateLease.LiveOwnerKeepsItsLease | packages/installer/src/update-lock.ts:105-114 | where termination ends the helper, a live owner's lease changes only by its own step; the launcher's release after a transfer does not remove the helper's |
| UpdateLease.SurvivingHelperInstallsWithoutLease | scripts/product-update.ts:251-263 | a run: the helper survives its termination, loses the lease to the cancellation, and installs |
| UpdateLease.SurvivingHelperSharesTheLease | scripts/product-update.ts:251-263 | a run: the helper survives, and another updater acquires the cancelled lease beside it |
| UpdateLease.HoldersOwnExactlyInSafeRuns | scripts/product-update.ts:231-263 | for every run: whoever acts under the lease owns it at every moment, if and only if no cancellation removes a lease that a surviving helper has claimed and works under |
| UpdateLease.TerminationMakesSafe | scripts/product-update.ts:231-263 | a run in which termination ends the helper has no such cancellation |
| UpdateLease.GuaranteesOfSafeRuns | scripts/product-update.ts:201-426 | both guarantees hold in every run without such a cancellation |
| UpdateLease.GuaranteesExactlyWhenTerminationIsSure | scripts/product-update.ts:201-426 | one holder at most, over all runs, if and only if termination is sure; and safe installation, over all runs, if and only if termination is sure |
| UpdateProgress.UndisturbedAcquisition | packages/installer/src/update-lock.ts:118-158 | a process acquires the lease exactly when nobody has it or its owner is dead, and otherwise changes nothing |
| UpdateProgress.UndisturbedUpdate | packages/installer/src/update-lock.ts:194-229 | an update of its own ends with the lease given back |
| UpdateProgress.LauncherAcquires | scripts/product-update.ts:303-353 | from an idle launcher and a vacant lease to the acquired lease and the written handoff |
| UpdateProgress.HelperClaims | scripts/product-update.ts:383-387 | from the spawned helper to its claims of handoff and lease |
| UpdateProgress.LauncherLetsGo | scripts/product-update.ts:248-250 | once the helper has claimed, the launcher lets go without touching the lease |
| UpdateProgress.UndisturbedHandOver | scripts/product-update.ts:201-361 | for any state with a vacant lease, any processes and tokens: the whole hand-over ends with the launcher idle and its helper alive, owning the lease as claimed |
| UpdateProgress.HelperInstalls | scripts/product-update.ts:383-426 | a helper that has claimed its lease and has nobody left to wait for gets as far as its own steps take it, into the installation and to the release, whatever all other processes do in between |
| UpdateProgress.UndisturbedInstallation | scripts/product-update.ts:383-426 | after the hand-over, when launcher and surface have exited, the helper installs under its lease, exits, and lease and handoff are gone |
| UpdateProgress.FailureBeforeTheHelper | scripts/product-update.ts:251-281 | a failure before there is a helper leaves neither lease nor handoff |
| UpdateProgress.FailureEndsTheHelper | scripts/product-update.ts:251-281 | a failure from the transfer on ends the helper and leaves neither lease nor handoff |
| UpdateProgress.FailingHelperReleases | scripts/product-update.ts:388-416 | a helper whose wait fails gives lease and handoff back |
| UpdateProgress.HelperOfAnotherLeaseGoes | packages/installer/src/update-lock.ts:180-190 | a helper that finds the lease under another token leaves it alone and exits |
| UpdateProgress.NoCancellationWithoutFailure | scripts/product-update.ts:248-281 | over every run without failures and expired waits, however processes interleave and die: no launcher ends its helper or takes back lease or handoff |
| UpdateHandoff.StepKeepsInv | packages/installer/src/update-handoff.ts:189-290 | writes, claims, removals and reaps keep a claimed handoff recorded until it is too old to claim |
| UpdateHandoff.RemoverStepKeepsInv | packages/installer/src/update-handoff.ts:275-290 | a remover that is about to unlink the record knows its handoff.json is gone |
| UpdateHandoff.RunKeepsInv | packages/installer/src/update-handoff.ts:189-369 | every interleaving keeps the invariant |
| UpdateHandoff.EarlyReapClaimsTwice | packages/installer/src/update-handoff.ts:361-366 | reaping earlier than claims expire lets a handoff be claimed twice |
| UpdateHandoff.RecordFirstClaimsTwice | packages/installer/src/update-handoff.ts:275-290 | unlinking the record before handoff.json lets it be claimed twice |
| UpdateHandoff.SlowClaimerClaimsTwice | packages/installer/src/update-handoff.ts:223-250 | a pause between reading and linking lets it be claimed twice |
| UpdateHandoff.AtMostOnceExactlyWhenSound | packages/installer/src/update-handoff.ts:90-369 | at most one claim of each handoff over all runs, if and only if the three rules hold |
| UpdateHandoff.ProgramClaimsAtMostOnce | packages/installer/src/update-handoff.ts:6-369 | with the program's one age for claiming and reaping and its order of removal, a handoff is claimed at most once, provided nothing comes between a claimer's reading and its linking |
| UpdateHandoff.UndisturbedHandoff | packages/installer/src/update-handoff.ts:189-290 | from any state with no handoff waiting: written, claimed once, removed, and nothing of it is left |
| UpdateHandoff.ReapingWaits | packages/installer/src/update-handoff.ts:361-366 | a claimed record is reaped exactly when it is too old, and is gone then |
| Session.ApplyEntriesKeepsCards | packages/contract/src/session.ts:163-213 | an action keeps one card for each call and confirmations on pending cards only |
| Session.ReachableCards | packages/contract/src/session.ts:134-279 | from the empty ledger no tool call ever has two cards, and only a pending card awaits an answer |
| Session.Ledger.constructor | packages/contract/src/session.ts:90-111 | a ledger starts as the snapshot, on entry objects of its own |
| Session.Ledger.FindLast | packages/contract/src/session.ts:113-131 | the search from the end finds the most recent entry, or there is none |
| Session.Ledger.Perform | packages/contract/src/session.ts:134-279 | the mutable ledger does what the specification of the action says, and keeps its entries apart |
| Session.PerformOnBoth | packages/contract/src/session.ts:134-279 | the same action on two ledgers without common entries keeps them equal and apart |
| Session.Mirror | packages/contract/src/session.ts:85-111 | a mirror made from a snapshot at any moment and fed the later actions always equals the server's ledger and shares no entry |
| EventFolder.Folder.Fold | packages/agent/src/events.ts:106-293 | the folder object folds one event as specified, branch by branch, with its own message ids and running usage |
| EventFolder.DigitsInjective | packages/agent/src/events.ts:116-130 | different message counts give different ids |
| StoredEntries.FoldAllSnoc | packages/agent/src/entries.ts:97-215 | folding one more entry continues the fold with the totals so far |
| StoredEntries.FoldSessionEntries | packages/agent/src/entries.ts:97-215 | the loop over stored entries yields the specified actions, in order |
| StoredEntries.MessageActions | packages/agent/src/entries.ts:154-200 | one stored message yields its parts in stored order |
| ActiveBranch.ActiveBranchEntries | packages/agent/src/entries.ts:56-85 | for any entries, cyclic or dangling, the walk ends and yields a chain without repeats that ends at the leaf and cannot be extended |
| ActiveBranch.LastOneCounts | packages/agent/src/entries.ts:60-71 | of several entries with one id the last one counts |
| ActiveBranch.RootPathIsUnique | packages/agent/src/entries.ts:72-84 | there is at most one chain from a root to a leaf |
| ActiveBranch.DepthGrows | packages/agent/src/entries.ts:74-83 | in a tree a chain goes down at least one level with each entry |
| ActiveBranch.BranchOfTreeIsTheRootPath | packages/agent/src/entries.ts:56-85 | when the parent links form a tree the branch is the one root-to-leaf path |
| Transcript.SameTranscriptSaysTheSame | packages/contract/src/session.ts:309-348 | the comparison holds exactly when both transcripts say the same things in the same order |
| Transcript.LastWithoutNotices | packages/contract/src/session.ts:113-131 | the most recent message, card or active card is the same one with notices left out |
| Transcript.ApplyWithoutNotices | packages/contract/src/session.ts:134-225 | applying an action and leaving notices out can be done in either order |
| Conversations.FinalCardsSay | packages/contract/src/session.ts:332-340 | the cards of finished calls say their names, outcomes and results |
| StoredRoute.BlockStep | packages/agent/src/entries.ts:168-200 | one stored part changes the message or adds a pending card |
| StoredRoute.StoredParts | packages/agent/src/entries.ts:168-200 | all stored parts together give the message its text and thinking and the calls their cards |
| StoredRoute.StoredTextIs | packages/agent/src/entries.ts:159-184 | thinking counts as text exactly when the reply finished normally and has none |
| StoredRoute.StoredResultsSettle | packages/agent/src/entries.ts:133-145 | the stored results settle the cards they are for, in whatever order they were written, and no others |
| StoredRoute.StoredReply | packages/agent/src/entries.ts:147-211 | a stored reply with its results adds one message and one settled card for each call |
| StoredRoute.StoredReplyDrawn | packages/agent/src/entries.ts:147-211 | a stored reply adds its message and a card for each call, settled if a result is stored, else pending |
| StoredRoute.StoredConversationSays | packages/agent/src/entries.ts:97-215 | the ledger rebuilt from storage says the conversation, with thinking-only replies recovered |
| LiveRoute.TextDeltas | packages/agent/src/events.ts:86-98 | however text is cut into deltas, the message ends with all of it |
| LiveRoute.Deltas | packages/agent/src/events.ts:86-98 | however a reply is streamed, its message ends with its text and its thinking |
| LiveRoute.AskedCards | packages/contract/src/session.ts:193-213 | a question marks an active card of the running turn and no settled one |
| LiveRoute.Schedule | packages/agent/src/events.ts:168-216 | however tools interleave, ask and report, and wherever their run is cut off, each ended call shows its outcome and every other started one runs or waits |
| LiveRoute.LiveReply | packages/agent/src/events.ts:116-216 | a streamed reply adds one message and one settled card for each call |
| LiveRoute.DrawnReply | packages/agent/src/events.ts:116-216 | a streamed reply, whole or cut off, adds its message and a card for each started call |
| LiveRoute.LiveConversationSays | packages/agent/src/events.ts:106-293 | the live ledger says the conversation, thinking kept as thinking |
| LiveRoute.AsidesDoNotMatter | packages/contract/src/session.ts:305-316 | notices, usage and status reports in between change nothing that is said |
| LiveRoute.EachMessageHasItsOwnId | packages/agent/src/events.ts:106-293 | over any run of events no two messages get the same id |
| LiveRoute.TokensAddUp | packages/agent/src/events.ts:106-293 | the running total is the sum of the reported usage |
| Reconciliation.LedgerIs | packages/contract/src/session.ts:134-279 | the ledger after some actions, entry by entry |
| Reconciliation.LiveLedgerSays | packages/agent/src/events.ts:106-293 | the live ledger says the conversation whatever came in between |
| Reconciliation.StoredLedgerSays | packages/agent/src/entries.ts:97-215 | the rebuilt ledger says the conversation |
| Reconciliation.RecoveryShows | packages/agent/src/entries.ts:159-184 | recovering thinking changes what is said exactly when some reply consists of thinking only |
| Reconciliation.LiveAndStoredAgree | packages/contract/src/session.ts:297-348 | for every conversation, streaming and interleaving: both ledgers say the same if and only if no normally finished reply is thinking only |
| Reconciliation.PerformAll | packages/contract/src/session.ts:134-279 | the ledger object performs a list of actions as specified |
| Reconciliation.LiveTotals | packages/contract/src/session.ts:134-279 | the total the live ledger shows is the sum of the reported usage |
| Reconciliation.FeedLive | packages/agent/src/events.ts:106-293 | a run fed through the folder object into a ledger object gives the live ledger and its total |
| Reconciliation.FeedStored | packages/agent/src/entries.ts:97-215 | stored entries folded by the loop into a ledger object give the rebuilt ledger |
| Reconciliation.Reconcile | packages/contract/src/session.ts:297-348 | both routes run on the objects: they say the same if and only if no normally finished reply is thinking only |
| LedgerStatus.StatusIsAsReported | packages/agent/src/events.ts:106-293 | after any run the ledger shows busy, compacting, retry, queue and thinking level as last reported, every notice in order, and the reported tokens and cost added up |
| LedgerStatus.NoticesAfter | packages/contract/src/session.ts:134-279 | an action adds its notice or leaves the notices alone |
| LedgerStatus.StoredTotals | packages/agent/src/entries.ts:202-211 | the rebuilt ledger shows the sum of the usage stored with its messages |
| LedgerStatus.CardShowsTheChange | packages/contract/src/session.ts:163-191 | a reported change is on the call's card: new status, arguments and result as given or else as before; other cards stay |
| LedgerStatus.ToolStartShows | packages/agent/src/events.ts:168-183 | a tool's card runs from its start on, with its arguments |
| LedgerStatus.ToolUpdateShows | packages/agent/src/events.ts:185-201 | output so far replaces what the card showed before |
| LedgerStatus.ToolEndShows | packages/agent/src/events.ts:203-217 | an ended tool shows its outcome |
| LedgerStatus.QuestionIsAsked | packages/contract/src/session.ts:193-213 | a question is on the most recent active card, whole, and on no other |
| LedgerStatus.ReportsAreShown | packages/contract/src/session.ts:236-245 | a reported context or thinking level is shown, and a level that comes alone keeps the levels there are |
| LedgerStatus.CompactionEstimates | packages/contract/src/session.ts:247-261 | a finished compaction's estimate stands as the context where the window is known |
| CutOffReply.LiveCutSays | packages/agent/src/events.ts:106-293 | what the live ledger says of a conversation whose last reply was cut off in its tools |
| CutOffReply.StoredCutSays | packages/agent/src/entries.ts:97-215 | what the rebuilt ledger says of it |
| CutOffReply.CutOffAgrees | packages/agent/src/entries.ts:187-200 | both ledgers say the same if and only if no normally finished reply is thinking only, every call has started, each call with a stored result has ended, and each other one waits for the user with nothing shown |
| FileStore.Files.RenameStable | packages/installer/src/stable-files.ts:19-37 | a rename moves the file or changes nothing; refused for a passing reason on Windows it is tried fifty times, elsewhere once |
| StableFiles.SpotsDiffer | packages/installer/src/stable-files.ts:84-87 | destination, staged copy and backup are three paths |
| StableFiles.Swap | packages/installer/src/stable-files.ts:93-113 | wherever it stops, the previous content is in its place or in the backup |
| StableFiles.PrepareReplacement | packages/installer/src/stable-files.ts:61-118 | without faults, replaced with the previous content beside it exactly when suitable, and unchanged otherwise; an unfinished earlier replacement is refused |
| StableFiles.UndoneIsBefore | packages/installer/src/stable-files.ts:120-130 | taking a replacement back gives the disk before it |
| StableFiles.RollbackReplacement | packages/installer/src/stable-files.ts:120-130 | finished, the destination is as before with nothing beside it; cut short, it can be repeated |
| StableFiles.CommitReplacement | packages/installer/src/stable-files.ts:132-138 | only recovery material is removed |
| StableFiles.RollbackAll | packages/installer/src/stable-files.ts:226-234 | all replacements are taken back, last first |
| StableFiles.UndoneAllIsBefore | packages/installer/src/stable-files.ts:190-236 | taking all replacements back gives the whole disk before them |
| StableFiles.PrepareStableFiles | packages/installer/src/stable-files.ts:190-213 | all destinations are prepared, or the whole disk is as it was; without faults, prepared exactly when all are suitable |
| StableFiles.PreparedIsNew | packages/installer/src/stable-files.ts:190-213 | prepared destinations all hold their new content |
| StableFiles.PreparedFiles.Commit | packages/installer/src/stable-files.ts:217-225 | a commit, finished or not, leaves every new content in place; finished, nothing is left beside it; a second one does nothing |
| StableFiles.PreparedFiles.Rollback | packages/installer/src/stable-files.ts:226-234 | a finished rollback restores the whole disk; a second one does nothing |
| StableFiles.RecoverByRollback | packages/installer/src/stable-files.ts:238-256 | another process restores every destination when the mode tells which ones existed |
| StableFiles.RecoveryNeedsTheMode | packages/installer/src/stable-files.ts:178-188 | and exactly then |
| BundleInstallation.StageFresh | packages/installer/src/transaction.ts:212-309 | staging under a fresh id leaves the candidate ready, or everything as before |
| BundleInstallation.RecoverFirst | packages/installer/src/bundle-installation.ts:44-75 | a settled installation is left alone; an unsettled one ends as the same transaction, committed exactly where a finished switch stands and else rolled back, under its own baseline; if it cannot, nothing is lost |
| BundleInstallation.ActivateStaged | packages/installer/src/bundle-installation.ts:76-99 | the staged candidate becomes current, or pointer, release and data are as before |
| BundleInstallation.DiscardRefused | packages/installer/src/bundle-installation.ts:77-83 | after refused stable files the installation is as before and, without faults, the candidate is gone and the record says why |
| BundleInstallation.SwitchOver | packages/installer/src/bundle-installation.ts:76-99 | from the ready candidate on: all new, or all as before; refused stable files leave no candidate and a record of the refusal; after an error without faults the next installation is free to begin |
| BundleInstallation.StageAndSwitch | packages/installer/src/bundle-installation.ts:66-99 | after recovery: without faults a stageable payload is installed exactly when the stable files are suitable, and otherwise its candidate is discarded |
| BundleInstallation.InstallReleaseBundle | packages/installer/src/bundle-installation.ts:44-100 | stable files, pointer, release and data end all old or all new, where old is the installation as recovery left it: unchanged if it was settled, else its transaction committed or rolled back; a failed final commit leaves all new; a ready record changes nothing; an acceptable bundle is installed unless an operation fails; refused stable files leave a failed record and no candidate; an error never leaves a record that blocks the next installation, unless an operation fails |
| DataSnapshot.ValidateRoots | packages/installer/src/data-snapshot.ts:43-87 | accepts exactly roots with different safe names, none the filesystem root, that overlap neither each other nor installer-owned storage |
| DataSnapshot.CopyRoots | packages/installer/src/data-snapshot.ts:187-203 | the temporary directory comes to hold what each root held, and the entries say which roots existed |
| DataSnapshot.RenameIntoPlace | packages/installer/src/data-snapshot.ts:210-211 | one rename makes the finished snapshot, and nothing else changes |
| DataSnapshot.RemoveTemporary | packages/installer/src/data-snapshot.ts:213-216 | the error handler gives back the disk before the attempt |
| DataSnapshot.CreateDataSnapshot | packages/installer/src/data-snapshot.ts:167-217 | a snapshot is made whole under its final name, or not at all: an error leaves the disk as it was, a failed clean-up or a crash nothing but the temporary directory; it is made unless an operation fails or a check refuses |
| DataRestore.UndoneIsBefore | packages/installer/src/data-snapshot.ts:259-266 | undoing a root's turn gives the disk before it, also after a half-done copy |
| DataRestore.ValidAreLaid | packages/installer/src/data-snapshot.ts:43-87 | how accepted roots, set-aside places and the snapshot can lie to each other |
| DataRestore.ChainKeepsPlace | packages/installer/src/data-snapshot.ts:235-258 | the snapshot itself stays readable during the restoration |
| DataRestore.RestoreRoot | packages/installer/src/data-snapshot.ts:235-257 | one root is set aside with all that lies under it and replaced; its old content is never lost |
| DataRestore.RestoreRoots | packages/installer/src/data-snapshot.ts:235-258 | root by root, every turn as specified; it stops only at a root that cannot be set aside or whose saved content is missing, unless an operation fails |
| DataRestore.UndoRoots | packages/installer/src/data-snapshot.ts:259-279 | if every undo works the whole disk is as it was; otherwise, with roots clear of set-aside places, every root's old content is in place or set aside |
| DataRestore.RestoreDataSnapshot | packages/installer/src/data-snapshot.ts:219-285 | returned, every root has had its turn and only what was set aside is gone; failed, the disk is as before the call; with roots clear of set-aside places every root is its saved content, or nothing is lost; it returns unless an operation fails or a check refuses |
| DataRoundTrip.RestoredIsSaved | packages/installer/src/data-snapshot.ts:219-285 | what a finished restoration leaves at each root is what the snapshot holds, if no root is or lies in the place where an earlier one goes |
| DataRoundTrip.StaysThere | packages/installer/src/data-snapshot.ts:240-256 | what was set aside in a later root's place is there until that root's turn |
| DataRoundTrip.HadMayLeave | packages/installer/src/data-snapshot.ts:245-256 | a root that was set aside did not go over the snapshot, nor over a later root that could not be set aside |
| DataRoundTrip.RestoresExactlyWhenNoneSetAsideOver | packages/installer/src/data-snapshot.ts:240-284 | restorations that go through are always exact if and only if no root is or lies in the place where an earlier root, one that can be set aside, goes |
| DataRoundTrip.EndangeredIsLost | packages/installer/src/data-snapshot.ts:240-284 | for any accepted roots that break the condition there is a restoration that returns and has lost a root |
| DataRoundTrip.NestedRootIsLost | packages/installer/src/data-snapshot.ts:43-87 | the root checks accept a root below a set-aside place, and a restoration loses it |
| DataRoundTrip.SnapshotThenRestore | packages/installer/src/data-snapshot.ts:167-285 | snapshot, any changes that leave it alone, restore: under that condition every root is as at the snapshot |
| Inventory.LeavesAre | packages/installer/src/inventory.ts:179-200 | the walk finds exactly the files, links and special entries of the tree |
| Inventory.CollectEntries | packages/installer/src/inventory.ts:179-200 | the recursive walk collects every file and link and reports everything else |
| Inventory.ResolvesUpThenDown | packages/installer/src/inventory.ts:202-206 | a link target resolves by going up, at most to the filesystem root, and then down |
| Inventory.DotsDoNotMatter | packages/installer/src/inventory.ts:202-206 | empty parts and single dots make no difference |
| Inventory.CheckEntry | packages/installer/src/inventory.ts:287-317 | no problem exactly when the entry agrees in kind, size, digest, executable bit or inside-pointing target |
| Inventory.VerifyArtifactInventory | packages/installer/src/inventory.ts:262-326 | valid exactly when the tree holds the listed paths and no others and every entry agrees |
| InventoryCreation.TextInjective | packages/installer/src/inventory.ts:188-188 | different paths have different text |
| InventoryCreation.SortedIs | packages/installer/src/inventory.ts:208-231 | sorting keeps the entries and puts different paths in strictly ascending order |
| InventoryCreation.LeavesUnique | packages/installer/src/inventory.ts:179-200 | the walk finds no path twice |
| InventoryCreation.DescribeAll | packages/installer/src/inventory.ts:228-252 | an entry for every leaf, unless one cannot be described |
| InventoryCreation.CreateArtifactInventory | packages/installer/src/inventory.ts:215-260 | succeeds exactly on describable trees; the inventory is strictly sorted and exact for its tree |
| UpdateDownload.BodyContinues | packages/installer/src/update-download.ts:64-88 | what a fitting response carries continues the artifact where the partial file ends, or starts it over |
| UpdateDownload.WriteChunks | packages/installer/src/update-download.ts:90-114 | the partial file stays a beginning of the artifact and never grows past the manifest size, wherever the loop is cut |
| UpdateDownload.WriteResponse | packages/installer/src/update-download.ts:57-115 | a response that does not announce what is missing changes nothing; of one that does, all that was sent is on disk afterwards, also when the connection broke, unless an operation fails |
| UpdateDownload.PartialSize | packages/installer/src/update-download.ts:117-131 | a partial file that is too long is removed, a shorter one is continued |
| UpdateDownload.CompletesFits | packages/installer/src/update-download.ts:64-88 | a right answer (the missing bytes with their range and length, or the whole artifact) fits and completes the artifact |
| UpdateDownload.Fetch | packages/installer/src/update-download.ts:157-185 | moved into place exactly when whole and right; a whole but wrong file is removed, an unfinished one kept |
| UpdateDownload.Download | packages/installer/src/update-download.ts:133-194 | the final path only receives a file of the manifest's size and digest; a valid cached file is reused untouched; a right answer, partial or whole, with or without a declared length, completes the download; a misfit leaves the partial file; what a broken connection brought is kept for the next attempt |
| UpdateDownload.Attempts | packages/installer/src/update-download.ts:133-194 | after any number of attempts the partial file is a beginning of the artifact and a finished download is the artifact; whatever happened before, an attempt with a right answer and no failure finishes it |
| ShellPath.MarkerRangeIs | packages/installer/src/shell-path.ts:34-50 | no block exactly when no marker occurs; a block exactly when each marker occurs once, in order |
| ShellPath.NoMarkersAround | packages/installer/src/shell-path.ts:34-50 | what lies around a well-formed block has no markers |
| ShellPath.BlockInPlace | packages/installer/src/shell-path.ts:119-122 | a written block is a well-formed block |
| ShellPath.TrimFromIs | packages/installer/src/shell-path.ts:82-83 | what is cut from the end is the longest blank ending |
| ShellPath.ConfiguringTwice | packages/installer/src/shell-path.ts:119-123 | configuring twice equals configuring once |
| ShellPath.ConfigureThenRemove | packages/installer/src/shell-path.ts:82-144 | configuring and then removing gives the text with its blank ending made one line end; empty stays empty |
| ShellPath.RefreshKeepsOutside | packages/installer/src/shell-path.ts:119-123 | refreshing an existing block puts the new one in its place; the text before it and the text after it are unchanged |
| ShellPath.RefreshThenRemove | packages/installer/src/shell-path.ts:119-141 | refreshing a block makes no difference to what removing it leaves |
| ShellPath.RemovedForGood | packages/installer/src/shell-path.ts:127-144 | after removing no marker is left, and removing again does nothing |
| ShellText.ConfiguringKeepsTheText | packages/installer/src/shell-path.ts:82-123 | a first configuration drops nothing of the user's text but a blank ending |
| ShellText.OneLineEndIs | packages/installer/src/shell-path.ts:139-139 | what a removal cuts off before the block is a line end with the spaces in front |
| ShellText.RemovingKeepsTheText | packages/installer/src/shell-path.ts:127-144 | removing keeps the user's text before and after the block: at most one line end goes on each side, and the two texts stay on lines of their own |
| ShellText.RemovedFromBetween | packages/installer/src/shell-path.ts:127-144 | a block on lines of its own between two texts leaves exactly these texts |
| ShellPath.Profile.Configure | packages/installer/src/shell-path.ts:89-125 | the profile is rewritten as specified or left alone; links, other shells and damaged blocks are left alone |
| ShellPath.Profile.RemoveBlock | packages/installer/src/shell-path.ts:127-144 | the block is removed as specified or the profile left alone |
| CoreConnection.DelayDoubles | packages/core-client/src/core-client.ts:447-456 | the delay law min(1000 * 2^k, 30000) is what doubling with a cap computes |
| CoreConnection.ReceiveKeepsInv | packages/core-client/src/core-client.ts:291-334 | a received message keeps the invariant |
| CoreConnection.ConnectKeepsInv | packages/core-client/src/core-client.ts:402-445 | connecting opens one socket or schedules one retry |
| CoreConnection.StepKeepsInv | packages/core-client/src/core-client.ts:259-465 | every event keeps the invariant |
| CoreConnection.RunKeepsInv | packages/core-client/src/core-client.ts:116-465 | in every reachable state: one attached socket at most, never with a timer, and reconnection never given up without a reason |
| CoreConnection.RunTraceIsGood | packages/core-client/src/core-client.ts:259-456 | over every run: deliveries and sends only on the current socket after its hello, the k-th delay is min(1000 * 2^k, 30000), nothing opened after an end |
| CoreConnection.EffectsHaveReasons | packages/core-client/src/core-client.ts:259-456 | over every run, every effect happened at an event that explains it: greeted only on a compatible hello from the current socket, refused only on an incompatible one, delivered only what that socket sent, sent only what the user sent |
| CoreConnection.HelloDecides | packages/core-client/src/core-client.ts:314-330 | while connecting, a compatible hello from the current socket connects, an incompatible one ends the client |
| CoreConnection.ConnectedMeansBothWays | packages/core-client/src/core-client.ts:277-392 | while connected, each message from the current socket is delivered once and unchanged, and each of the user is sent |
| CoreConnection.OtherwiseNothing | packages/core-client/src/core-client.ts:291-444 | before the hello, after an end and from stale sockets nothing comes through |
| CoreConnection.ConstructionConnects | packages/core-client/src/core-client.ts:124-137 | a new client is connecting |
| CoreConnection.TimerReconnects | packages/core-client/src/core-client.ts:453-456 | a timer that fires opens a new socket |
| CoreConnection.LostConnectionIsRetried | packages/core-client/src/core-client.ts:434-456 | a lost connection is scheduled for another attempt after the delay of the law |
| CoreConnection.LostClientComesBack | packages/core-client/src/core-client.ts:402-456 | in every reachable state a reconnecting client without a socket, and not stopped, has its timer set; timer, hello and message lead to a connection that delivers |
| CoreConnection.CoreClient.Connect | packages/core-client/src/core-client.ts:402-445 | the object connects as specified |
| CoreConnection.CoreClient.Receive | packages/core-client/src/core-client.ts:291-392 | the object receives as specified |
| CoreConnection.CoreClient.Close | packages/core-client/src/core-client.ts:259-275 | the object closes as specified, once |
| CoreConnection.CoreClient.ScheduleReconnect | packages/core-client/src/core-client.ts:447-457 | the object schedules as specified |
| CoreConnection.CoreClient.Send | packages/core-client/src/core-client.ts:277-289 | sends only while connected, and says whether it did |
| CoreConnection.CoreClient.Handle | packages/core-client/src/core-client.ts:418-444 | each callback does what the specification of its event says |
| CoreConnection.Live | packages/core-client/src/core-client.ts:116-137 | the object over any events is in the specified state and keeps the invariant |
| LineSplitter.SplitInPieces | packages/agent/src/line-splitter.ts:17-28 | splitting what is left over with what follows is splitting the whole |
| LineSplitter.NothingLost | packages/agent/src/line-splitter.ts:17-28 | lines and rest are the text; exactly the blank lines are skipped |
| LineSplitter.LinesAreLines | packages/agent/src/line-splitter.ts:21-27 | no handled line is blank or holds a line end |
| LineSplitter.Splitter.Feed | packages/agent/src/line-splitter.ts:17-28 | a chunk is handled as specified, with the unfinished line kept |
| LineSplitter.FeedAll | packages/agent/src/line-splitter.ts:14-29 | however the output is cut, the same lines are handled in the same order and the same rest is kept |
| PiConnection.SendKeepsInv | packages/agent/src/pi-client.ts:213-237 | a request becomes pending, or is settled at once |
| PiConnection.SettleKeepsInv | packages/agent/src/pi-client.ts:255-271 | a response or a timer settles its own pending request, and takes it out of the table |
| PiConnection.FailPendingKeepsInv | packages/agent/src/pi-client.ts:333-343 | closing settles every pending request once |
| PiConnection.RunKeepsInv | packages/agent/src/pi-client.ts:213-343 | every call is pending or settled exactly once, never both; a response settles only the request it names |
| PiConnection.SettledForGood | packages/agent/src/pi-client.ts:213-343 | what is settled stays so, and a closed client stays closed and empty |
| PiConnection.ClosedSettlesAll | packages/agent/src/pi-client.ts:55-68 | once closed, every call ever made is settled exactly once |
| PiConnection.EachRequestHasItsFate | packages/agent/src/pi-client.ts:213-343 | for every run and request, from the events alone: it settles as the first event after its call that decides it says (its response, its timer, a close, or the call itself), once, and waits until then |
| PiConnection.PiClient.FailPending | packages/agent/src/pi-client.ts:333-343 | the loop rejects every pending request in order and clears the table |
| PiConnection.PiClient.Send | packages/agent/src/pi-client.ts:213-237 | the object sends as specified |
| PiConnection.PiClient.HandleLine | packages/agent/src/pi-client.ts:239-271 | the object handles a line as specified |
| PiConnection.Live | packages/agent/src/pi-client.ts:55-68 | the object over any events is in the specified state and keeps the invariant |
| Uninstall.CompactTargets | packages/installer/src/uninstall.ts:78-92 | no kept target lies inside another, and every target equals or lies inside a kept one |
| Uninstall.TopmostExists | packages/installer/src/uninstall.ts:86-91 | above every target there is one that lies in no other |
| Uninstall.ProductPathsAreChecked | packages/installer/src/paths.ts:74-224 | on every platform the product's own paths pass the plan's checks |
| Uninstall.CreateUninstallPlan | packages/installer/src/uninstall.ts:94-176 | the plan's targets are the compacted product targets; purge needs authorization |
| Uninstall.CompactedSpares | packages/installer/src/uninstall.ts:147-175 | compacting changes nothing about what is spared, what is disjoint, and which files go |
| Uninstall.KeepsExactlyWhenDisjoint | packages/installer/src/uninstall.ts:147-175 | no file under a preserved path goes if and only if targets and preserved paths are disjoint |
| Uninstall.DefaultPlansAreDisjoint | packages/installer/src/paths.ts:74-212 | with default homes, on all platforms, no target of a normal plan equals, contains or lies in a preserved path |
| Uninstall.LinuxSparesExactlyWhenHomesApart | packages/installer/src/paths.ts:156-212 | with any XDG homes: no target is or lies above a preserved path if and only if the homes are apart |
| Uninstall.LinuxDisjointExactlyWhenHomesDisjoint | packages/installer/src/paths.ts:156-212 | with any XDG homes: no target equals, contains or lies in a preserved path if and only if the homes are disjoint |
| Uninstall.StateInsideConfiguration | packages/installer/src/paths.ts:156-212 | with XDG_STATE_HOME at the configuration directory the homes are apart but not disjoint, and the state's removal reaches into the configuration |
| Uninstall.SharedHomeLosesData | packages/installer/src/paths.ts:166-192 | with XDG_DATA_HOME equal to XDG_STATE_HOME the state's removal takes the data |
| Uninstall.RemoveProgram | packages/installer/src/uninstall.ts:184-202 | retried for about thirty seconds; only the program's files go |
| Uninstall.OrderedIs | packages/installer/src/uninstall.ts:214-216 | runtime state goes after everything else but the launcher, the launcher last |
| Uninstall.ExecuteUninstallPlan | packages/installer/src/uninstall.ts:204-238 | for any plan: every target is tried; files under no target stay, so files under preserved paths do when these are disjoint from the targets; nothing stays under a removed target; without failures nothing is reported failed; runtime state and launcher are tried last |
| Uninstall.TargetsAreAll | packages/installer/src/uninstall.ts:147-161 | a normal plan covers every path of the product, a purge the data and the configuration too, and nothing else |
| Uninstall.Perform | packages/installer/src/uninstall.ts:94-238 | plan and execution in terms of the files, for both modes |
| Uninstall.UninstallEverything | packages/installer/src/uninstall.ts:94-238 | a purge needs its authorization; with it, without failures nothing of the product stays, data and configuration included, and nothing else goes |
| Uninstall.KeepsDataExactlyInSafeHomes | packages/installer/src/paths.ts:74-212 | for every platform and environment: no file of data or configuration goes if and only if the homes are disjoint |
| Uninstall.UninstallNormally | packages/installer/src/uninstall.ts:94-238 | plan and execution together: what is not the product's stays, without failures nothing of program, releases, state, cache, logs and launcher stays, and in safe homes all data and configuration stay |

## Left out

- Process spawning, PowerShell, hdiutil, tar, codesign, windows, tray and dialogs: input, output and user interface.
- JSON text, UUIDs, timestamps and SHA-256: records are datatypes, ids abstract values, the digest a parameter.
- The field-by-field validators of protocol, sync, manifest and payload records: one branch for each field.
- HTTP and WebSocket plumbing, release discovery, service adapters and services/*: services/* is not part of this model.
- `coordinateProductUpdate` and the service modes around an installation: a small finite set of modes, read off one body.
- The release payload's own migration: it is one step that turns data into data of the new format, or anything when cut short.
- The mode, timestamps and extended attributes of files, parent directories that are created on the way, and the empty-parent removal at the end of an uninstall.
- A bundle that lies inside the Desktop application it replaces: paths in FileStore do not nest.
- `recoverStableProductFiles` with the outcome commit: it repeats the commit that StableFiles.PreparedFiles.Commit models.
- Symbolic-link and malformed-file branches of the handoff directory (writeUpdateHandoffRecoveringStale, reaping of invalid records): they only remove what no claim can read.
- UI requests, event listeners and close listeners of PiClient: no promise about them spans several calls.
- Windows paths compare without regard to case; Uninstall compares names exactly.
- Strings compare by Unicode scalar values here, by UTF-16 code units in the source; InventoryCreation's order differs for astral characters only.
- Totals of tokens and cost are reals; floating-point rounding is not modelled, and the percentage after a compaction stays a quotient.
- InstallTransaction.Recover: a crash inside restoring the snapshot is not covered, because the source cannot restart it; restoring is one step there, and DataRestore says what a crash inside it leaves.
- InstallTransaction.Recover: a `ready` record left by a dead process is returned unchanged, as the source does; no progress is claimed for it.
- InstallHistory.Run: activation is only asked for when a candidate is ready; ActivationOverwriteIsHarmless says what the other calls do.
- InstallTransaction.Stage: under an id that an earlier backup or snapshot carries, staging goes through but the invariant is not promised; ids are fresh (Assumptions).
- InstallationLock.StepKeepsDirInv: the lock's file operations fail only because a path is there or is missing; other errors are not modelled.
- InstallationLock.RunKeepsInv: runs in which a process dies inside the acquisition directory, and finer interleavings of two processes reclaiming one dead owner, are excluded; the source gives no guarantee for them.
- UpdateLease.RunKeepsInv: every lease operation but acquiring is one step.
- UpdateLease.LiveOwnerKeepsItsLease: runs in which terminating the helper fails are excluded, because a cancellation may then take an unclaimed lease from a live helper.
- UpdateHandoff.ProgramClaimsAtMostOnce: reading and linking are one step; SlowClaimerClaimsTwice shows what can happen otherwise.
- Reconciliation.LiveAndStoredAgree: every tool call is executed and its result stored before the next turn; CutOffReply.CutOffAgrees covers a last reply that was cut off in its tools, and a reply cut off before its message was stored is not covered.
- DataRestore.RestoreDataSnapshot: parent directories that a copy creates on the way, and symbolic links above a root, are not modelled; the manifest is a file of its own kind, not JSON text.
- UpdateDownload.Download: a write that reports success but writes less than the chunk is not modelled.
- CoreConnection.CoreClient.Handle: handlers that call back into the client are not modelled.
