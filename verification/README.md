# Verified models of HyperCommander

HyperCommander is a Windows file manager. This project models the parts of it that must not
go wrong when a machine loses power, a file is held open or a helper process misbehaves, and
proves what those parts promise. Nothing here runs the original program.

To check the whole project, run `dafny verify dfyconfig.toml` in this directory.

## What is modelled

| modules | part of the program |
|---|---|
| UpdateJournal, UpdateTransaction, Updater | the journalled update of the product's own files: apply, roll back, recover, acknowledge, promote |
| UpdateRecovery, UpdateSafety, UpdatePromotion, UpdateRuns, UpdateGuarantees, UpdateSuccess, UpdateLimits, UpdateFull, RootPromotion | what that protocol guarantees, when an update goes through, and exactly where it does not |
| BatchRename, RenameLog, RenameText, RenameJournal, RenameExecute, RenameUndo, RenameWorker | renaming many files through temporary names, with a log and recovery by file identity |
| RenameSafety, RenamePhases, RenameRecovery, RenameRuns, RenameFolder, RenameLimits, RenameBudget, RenameFull | what that protocol guarantees, and exactly where it does not |
| Utf8, Json, JsonReader, JsonParser, JsonCorrect, JsonComplete, JsonSound, JsonQuote, JsonPrint | the bounded JSON reader and the string printer, against an independent grammar |
| JournalCodec, JournalStore, JournalFile | saving and loading the update journal, and which journals fit |
| DetectString, DetectGrammar | the compiler and the evaluator of plugin detect strings, against their grammar |
| CommandLine | quoting of process arguments |
| RefreshOrder | the paged merge join that keeps arrival order on a refresh |
| DocumentSearch, SearchProtocol, SearchCancel, SearchFinish, SearchWorker, SnapshotCache | the document search worker with credits and chunks, its client, and its cache |
| QuickFindSender, QuickFindText, QuickFindSession, QuickFindSystem, QuickFindFinish, QuickFindSuccess, QuickFindReader | the quick-find helper, its session, and the two over a pipe |
| NaturalOrder, SortRanks, ArchiveRows | natural name order, incremental ranks, and the archive rows behind the parent rows |
| IconService, IconLoader, IconDrift | the icon loader's queue guarded by serials, and its count of remote loads |
| ZipLayout, ZipRecords | the layout check of an update archive, against the records of the ZIP format |

## How it is modelled

- Code that changes things step by step is written twice: as a function on a state value, over
  which the theorems are stated, and as a class or a method with the original's fields and
  loops, whose contract says that it computes that function. In the table below, "partner"
  names the theorem about the function a method is tied to.
- The environment is a *script*: a list of events, one for each call into the system that can
  go wrong. An event lets the call through, refuses it, or takes the power away; a script that
  has run out lets everything through. A theorem for all scripts therefore covers a crash or a
  failure at every point, and a theorem about the empty script says that an undisturbed run
  succeeds.
- ROOT is a map from case-folded relative names to contents; the folder of a rename maps file
  identities to names. A durable write and a move within one volume are single steps.
- Nobody else changes the managed paths while the program works on them. Where the code checks
  for foreign changes, the theorems say that it stops and overwrites nothing.
- A hash stands for the content it was taken from; case folding is an arbitrary function.

## Where the code does less than its comments say

Each of these is proved, with the exact condition.

1. A name of the old inventory and one of the new that differ only in letter case, with neither
   file on disk (a present one is refused earlier), make the loader refuse the journal that an
   apply has just written. Neither a crash nor an apply that went through can then be settled,
   and the product may not start
   (`UpdateLimits.CrashedApplyRecoversExactly`).
2. The writer refuses a journal whose text is longer than 1 MiB, and the state "rollingBack" is
   three bytes longer than "prepared". A journal that fits as prepared but not as rolling back
   is activated and can never be rolled back; where it does not fit as installed either, even
   an undisturbed update locks the product out (`UpdateFull.FullJournalLocksOut`; the exact
   condition is part of `UpdateLimits.CrashedApplyRecoversExactly`).
3. Placing a root copy during the health check keeps the rollback guarantee only if there is
   such room before and after recording, and the copy is listed, absent from ROOT, or already
   recorded with that content (`UpdateLimits.PlacingKeepsRollbackExactly`). Otherwise the older
   copy stays, a file that was there is lost, or no rollback can begin.
4. On a redirected folder a rename may be reported as failed after it has happened. A logged
   run can then record, and a direct run report, that everything was restored while a file
   still has its temporary name (`RenameLimits.TrustedExactly`,
   `RenameExecute.ReportsTrulyExactly`). No file is lost or replaced even then
   (`RenameLimits.FilesKept`).
5. When the rename log was opened but could not be positioned, the final state line is written
   over its start (`RenameRuns.UnreadableExactly`).
6. A load that fails transiently after an invalidation caches the old picture again, as a
   fresh entry (`IconService.OldPictureServed`, `IconService.PictureNewExactly`).
7. The rename log never grows above 64 MiB. A first run always has room, but a plan of 100000
   rows that was interrupted twice can no longer be restored or resumed, even undisturbed, and
   files keep other names (`RenameFull.TwoRunsFillTheLog`; the exact condition is part of
   `RenameRuns.AnyRunCanBeRestored`, and `RenameFull.SmallPlansAreRestored` says for how many
   runs a plan is safe).
8. A document search that is cancelled again before the reply to the first cancellation gets two
   replies. The first makes the client free for the next search, the second does so while that
   search runs, and then parts of one file are taken for hits in another
   (`SearchCancel.HastyIsUnsafe`, `SearchCancel.SafeExactly`).
9. A drive that changes its kind while an icon of it is loaded leaves the count of remote loads
   wrong: two can run at a time, or none ever again (`IconDrift.OneRemoteExactly`,
   `IconDrift.BlockedExactly`).
10. A document search request that the worker refuses as it stands (a query of more than 65536
   units) is answered under the number of the request before it. The client takes no notice and
   stays busy until its watchdog ends the process (`SearchFinish.EverySearchEnds`,
   `SearchFinish.FirstRefusalIsMuted`).

## Model

| member | source | states |
|---|---|---|
| `UpdateGuarantees.RecoveryRestoresRoot` | HyperCommanderUpdater/updateTransaction.cpp:399-470 | After an apply that was stopped by any refusal or power loss at any step, followed by any number of recoveries that were stopped the same way, a recovery never meets a content conflict and never rejects its journal; if it runs to its end the record is gone and ROOT equals, path by path and content by content, what it was before the update. If the earlier attempts already removed the record, ROOT is already back. |
| `UpdateGuarantees.RecoveriesKeep` | HyperCommanderUpdater/updateTransaction.cpp:127-154 | Any sequence of interrupted rollbacks, from any consistent state of an update that is not completed, stays consistent: either the record is still active and a further recovery can go on, or ROOT is exactly as before the update. |
| `UpdateGuarantees.StartsOldOrNew` | HyperCommanderUpdater/updateTransaction.cpp:330-335 | In every state of every run of apply, recover, acknowledge and promote commands with arbitrary interruptions and whatever acceptable copies are placed: whenever the product may start under an active record, the listed ROOT files are all the old ones or all the new ones. |
| `UpdateGuarantees.StartsExactly` | HyperCommanderUpdater/updateTransaction.cpp:330-335 | In every state of every run the product may start if and only if no update is active or the journal says installed, completed or rolledBack; so also after a power loss between saving "completed" and removing the record. |
| `UpdateGuarantees.StepOfActiveUpdate` | HyperCommanderUpdater/updateTransaction.cpp:399-476 | One command on an active update, whatever copies were placed: the record goes away only by acknowledging an installed or completed update, with ROOT untouched and all new, or by a rollback of one that is not completed, after which every path but those of recorded copies is as before and each recorded copy is gone unless it was changed since; ROOT is exactly as before if the copies placed were fresh (listed, absent from ROOT, or recorded already). A completed update is never rolled back. |
| `UpdateGuarantees.CompletedIsKept` | HyperCommanderUpdater/updateTransaction.cpp:466-476 | Once the journal says completed, no run changes ROOT as long as the record is active. |
| `UpdateGuarantees.CanBeSettled` | HyperCommanderUpdater/updateTransaction.cpp:466-476 | For every active state of every run, whatever copies were placed: once the files are new, an undisturbed acknowledgement removes the record; before the update is completed, an undisturbed recovery removes it, if and only if the journal leaves room for the longer state a rollback saves first, and gives back the ROOT from before but for recorded copies, exactly so if all copies of the run were fresh; where neither applies, no command ever changes anything again. |
| `UpdateGuarantees.CommandsEndExactly` | HyperCommanderUpdater/updateTransaction.cpp:466-476 | Which undisturbed command ends an update, in every state of every run: an acknowledgement if and only if none is active or its files are new, a recovery if and only if one is active, not completed, and its record leaves room; any other is turned away, or refused for want of room, and changes nothing. |
| `UpdateGuarantees.RunsSaveLoadable` | HyperCommanderUpdater/updateTransaction.cpp:72-118 | In every active state of every run the journal that was saved is one its own loader accepts and reads back unchanged. |
| `UpdateSuccess.ApplySucceedsExactly` | HyperCommanderUpdater/updateTransaction.cpp:399-465 | When an undisturbed update goes through: if and only if no other is active, every present file is listed with the content it has, every replacement is staged with the content the new inventory gives, and the record fits the size limit as "installed". Then the record is active and says installed, the product may start, every name of the plan has its new content or is gone, every old content is in the backup, and every other name of ROOT is as before. |
| `UpdateSuccess.UpdateEndsNew` | HyperCommanderUpdater/updateTransaction.cpp:399-476 | An undisturbed update followed by its acknowledgement is over: no record is active, and ROOT holds exactly what the plan asks for. |
| `UpdateSuccess.FailuresHaveCauses` | HyperCommanderUpdater/updateTransaction.cpp:399-470 | Every failure of an apply, under any script, has its own cause: it is turned away if and only if another update is active; it reports a conflict only over a present file that is unlisted or changed, or a staged file of another content; it is refused only where the system refuses an attempt, a replacement is not staged, or the record does not fit with its longest state; it is cut off only by a power loss. |
| `UpdateSuccess.AcknowledgedIfHealthy` | HyperCommanderUpdater/updateTransaction.cpp:471-476 | Whatever becomes of ROOT after an update was applied: undisturbed, the acknowledgement goes through if and only if every file of the new inventory is still in place with its content; otherwise it changes nothing. |
| `UpdateSuccess.InstallGoesThrough` | HyperCommanderUpdater/updateTransaction.cpp:445-463 | Undisturbed, the guarded part of an apply goes through if and only if the journal can be saved as applying and as installed and every replacement is staged with its content, whether files are replaced, added or removed. |
| `UpdateSuccess.FilesGoThrough` | HyperCommanderUpdater/updateTransaction.cpp:447-460 | Undisturbed, the loop from any entry on goes through if and only if every replacement from there on is staged with its content. |
| `UpdateGuarantees.RollbackSparesForeignFiles` | HyperCommanderUpdater/updateTransaction.cpp:127-154 | A rollback of any journal on any disk, even one that is not consistent, leaves every present file alone unless it is under a listed or promoted name and holds a content the journal names for it. |
| `UpdateGuarantees.RollbackPutsBackOriginals` | HyperCommanderUpdater/updateTransaction.cpp:127-154 | A rollback of any journal on any disk writes nothing into ROOT but, at a listed path that existed, the very content the journal names as its original; a backup of any other content stops it. |
| `UpdateRuns.RollbackKeeps` | HyperCommanderUpdater/updateTransaction.cpp:127-154 | If the copies placed were fresh, the rollback removes the record only after ROOT is exactly as before. |
| `UpdateRuns.RollbackTracks` | HyperCommanderUpdater/updateTransaction.cpp:127-154 | A rollback stopped anywhere leaves a state the next one can start from, meets no conflict, and removes the record only when every path is as before but for recorded copies, which are gone unless changed since. |
| `UpdateRuns.InstallOrUndoKeeps` | HyperCommanderUpdater/updateTransaction.cpp:445-464 | Installing, and undoing on failure, ends installed with an active record, or without a record and with ROOT untouched, or in a recoverable state in between. When it ends installed says UpdateSuccess.InstallGoesThrough. |
| `UpdateRuns.ApplyKeeps` | HyperCommanderUpdater/updateTransaction.cpp:399-465 | Applying any valid plan, stopped anywhere, leaves a consistent story; without an active record ROOT is untouched. When it goes through says UpdateSuccess.ApplySucceedsExactly. |
| `UpdateRuns.AcknowledgeKeeps` | HyperCommanderUpdater/updateTransaction.cpp:471-476 | Acknowledging never changes ROOT, and changes the disk only for an installed or completed journal, which is then completed. |
| `UpdateRuns.PromoteKeeps` | HyperCommanderUpdater/updateTransaction.cpp:372-398 | Recording and placing any acceptable root copies during the health check keeps the update tracked and the state installed, wherever it is stopped; fresh ones also keep the promise to restore ROOT exactly. |
| `UpdateRuns.RunConsistent` | HyperCommanderUpdater/updateTransaction.cpp:399-476 | Every state of every run of the four commands, whatever acceptable copies are placed, is tracked: the journal still describes how to get every listed path back. If the copies were fresh, it describes how to get back all of ROOT. |
| `UpdateRuns.RecordCopiesAccepted` | HyperCommanderUpdater/updateTransaction.cpp:382-393 | Recording acceptable copies leaves only entries and copies the loader accepts. |
| `UpdateRecovery.RemovePromotedEffect` | HyperCommanderUpdater/updateTransaction.cpp:129-134 | Removing promoted copies deletes exactly those that still hold the recorded content, and nothing else. |
| `UpdateRecovery.RestoreEntryEffect` | HyperCommanderUpdater/updateTransaction.cpp:137-150 | Restoring one entry, stopped anywhere, keeps it restorable and touches only its name and its backup; finished, the original content or absence is back. |
| `UpdateRecovery.RestoreFirstEffect` | HyperCommanderUpdater/updateTransaction.cpp:135-151 | The reverse loop over the entries brings back every listed name and keeps every other name; each stop leaves a state the loop can start again from. |
| `UpdateRecovery.RollbackEffect` | HyperCommanderUpdater/updateTransaction.cpp:127-154 | A rollback from any recoverable state never conflicts; finished, the record is gone and ROOT differs from before at most where a user changed a promoted copy. |
| `UpdateSafety.InstallFromEffect` | HyperCommanderUpdater/updateTransaction.cpp:447-460 | From the first entry not yet installed, the install loop keeps every entry recoverable at every stop, and finished leaves every entry installed; it conflicts only with a staged file of the wrong content. Undisturbed it finishes as UpdateSuccess.FilesGoThrough says. |
| `UpdateSafety.InstallEffect` | HyperCommanderUpdater/updateTransaction.cpp:445-463 | The guarded install saves each state before what it promises; it is recorded as installed only when all entries hold the planned contents. Undisturbed it is recorded as UpdateSuccess.InstallGoesThrough says. |
| `UpdateSafety.PlanFilesFit` | HyperCommanderUpdater/updateTransaction.cpp:429-442 | The journal built from a valid plan is one the loader accepts in every state, describes ROOT as it is, and has a staged file for every replacement. |
| `UpdateSafety.PlanJournalAccepted` | HyperCommanderUpdater/updateTransaction.cpp:94-118 | The journal of a parsed plan is accepted by the loader if and only if no two of its names are equal after folding the letter case. |
| `UpdateJournal.ValidHashExactly` | HyperCommanderUpdater/updateTransaction.cpp:90-93 | The loader takes for hashes exactly the printed forms of 32 bytes, two small hexadecimal figures for each. |
| `UpdatePromotion.RecordCopyKeeps` | HyperCommanderUpdater/updateTransaction.cpp:382-393 | Recording one copy keeps the update recoverable and covers the copy; where the copy is fresh (listed, absent from ROOT or already recorded) the promise to restore ROOT stays. |
| `UpdatePromotion.RecordCopiesKeep` | HyperCommanderUpdater/updateTransaction.cpp:382-393 | The same for the whole list of copies, in order. |
| `UpdatePromotion.PlaceOneEffect` | HyperCommanderUpdater/updatePromotion.cpp:59-74 | Placing one copy changes ROOT in one step and at one name only: finished, the name holds the copy; stopped anywhere or refused, ROOT is as before. |
| `UpdatePromotion.PlaceOneCleansUp` | HyperCommanderUpdater/updatePromotion.cpp:59-74 | Placing a copy of which the system refuses at most one attempt leaves no temporary file of its own, unless nothing was done at all, or the copy was bad and deleting it was refused; and it fails only over the refusal or over a carrier of another content. |
| `UpdatePromotion.PlaceWithinKeeps` | HyperCommanderUpdater/updateTransaction.cpp:372-398 | Recording first and placing afterwards, stopped anywhere, keeps the update consistent, so every later rollback is still possible. |
| `UpdateLimits.CrashedApplyRecoversExactly` | HyperCommanderUpdater/updateTransaction.cpp:88-118 | However an apply ended that left its record active (any interruption, or none): an undisturbed recovery succeeds, and gives back ROOT, if and only if the names of the two inventories stay apart under letter-case folding and the journal of the plan leaves room for the state "rollingBack" within the size limit; otherwise every recovery fails and changes nothing. The product may start if and only if the names stay apart and the journal says installed or rolledBack. |
| `UpdateLimits.FoldingAlikeHappens` | HyperCommanderUpdater/updateTransaction.cpp:94-118 | Inventories for which that happens, with the files every inventory must list: for every rule of letter case that folds `Libs/A.dll` and `Libs/a.dll` alike, the first listed and missing on disk, the second in the next version. |
| `UpdateLimits.RerecordedCopyStays` | HyperCommanderUpdater/updateTransaction.cpp:389-391 | Recording another content for an unlisted copy that is already recorded and still present: after a power loss before placing, a rollback leaves the older copy in ROOT. |
| `UpdateLimits.OverwrittenFileIsLost` | HyperCommanderUpdater/updateTransaction.cpp:389-397 | Placing an unlisted copy over a file that was in ROOT: a rollback deletes the name instead of bringing the file back. |
| `UpdateLimits.FullJournalLost` | HyperCommanderUpdater/updateTransaction.cpp:127-128 | A journal without room for "rollingBack": losing power before copies are placed leaves a state no rollback can begin in. |
| `UpdateLimits.FilledJournalLost` | HyperCommanderUpdater/updateTransaction.cpp:382-396 | The same for a journal that is saved with the new copies but has no room left with them. |
| `UpdateLimits.PlacingKeepsRollbackExactly` | HyperCommanderUpdater/updateTransaction.cpp:372-398 | For all interruptions a rollback after placing restores ROOT, if and only if the journal leaves room for "rollingBack" before and after recording, and every copy is listed, or absent from ROOT, or recorded already with that content; a journal too long to be saved with the copies is left alone, and then only the first condition counts. |
| `UpdateFull.FullJournalLocksOut` | HyperCommanderUpdater/updateTransaction.cpp:88-88 | An update of a product with the files every inventory must list to a version with 3368 new ones, with names of 179 characters, whose journal takes exactly the limit: applied without any interference it fails, its record stays active, the product may not start, and no recovery changes that; nor after any interruption that leaves the record. So under every rule of ownership and letter case that admits the names. |
| `UpdateFull.FullSize` | HyperCommanderUpdater/updateTransaction.cpp:72-88 | The text of that journal, counted entry by entry, is exactly 1048576 bytes long. |
| `UpdateFull.FullPlanValid` | HyperCommanderUpdater/updateProtocol.cpp:38-54 | The two inventories of that update are ones the parser accepts: all names owned, hashes and sizes in range, and the four required files listed in both. |
| `JournalStore.StorableExactly` | HyperCommanderUpdater/updateTransaction.cpp:88-88 | A journal that meets the loader's rules passes the writer's own reading back if and only if its text is within the size limit and valid UTF-8. |
| `JournalStore.StateSize` | HyperCommanderUpdater/updateTransaction.cpp:72-88 | A change of state changes the length of the text by the difference of the two state names, and its validity not at all. |
| `JournalStore.RoomExactly` | HyperCommanderUpdater/updateTransaction.cpp:127-128 | A stored journal can be stored as rollingBack if and only if that longer name still fits, and as rolledBack then too. |
| `JournalStore.StoredLoads` | HyperCommanderUpdater/updateTransaction.cpp:72-118 | Every acceptable journal the writer saved is read back unchanged. |
| `RootPromotion.WorkersChangeFirst` | HyperCommanderUpdater/updatePromotion.cpp:105-138 | Wherever promotion stops, a file of the bundle is replaced by a current one only if every later file of the bundle, which it depends on, is current. |
| `RootPromotion.PlacedInTurn` | HyperCommanderUpdater/updatePromotion.cpp:126-138 | Stale copies are replaced strictly in the order of the list; a failure leaves all later ones as they were. |
| `RootPromotion.DoneExactly` | HyperCommanderUpdater/updatePromotion.cpp:85-140 | Promotion reports success if and only if every file of the bundle is current afterwards; however it ends, every ROOT name is as it was or holds its copy whole; stopped by a foreign file, a running program or elevation it has changed nothing. |
| `RootPromotion.PromotesExactly` | HyperCommanderUpdater/updatePromotion.cpp:113-140 | Undisturbed, promotion succeeds if and only if every file of the bundle is current already, or no program of it runs and every stale file has an intact carrier, is signed where one is present, and, while an update is active, is met by a process that is not elevated, by a journal that says installed, by no entry with another replacement, and by a record that fits with the copies. |
| `RootPromotion.WaitsExactly` | HyperCommanderUpdater/updatePromotion.cpp:113-134 | Undisturbed, promotion asks to be tried later if and only if a file is stale, no present one is unsigned, nothing runs, the carriers are intact, and an active update is met by an elevated process, does not say installed, or has an entry with another replacement. |
| `RootPromotion.RecordedExactly` | HyperCommanderUpdater/updateTransaction.cpp:382-393 | Copies of different names can all be recorded if and only if none of them has an entry with another replacement. |
| `Updater.Installation.Save` | HyperCommanderUpdater/updateTransaction.cpp:72-89 | Prints the journal, reads it back, refuses it without any change when the reader does, and otherwise writes it in one step or not at all. |
| `Updater.Installation.RemovePromoted` | HyperCommanderUpdater/updateTransaction.cpp:129-134 | The loop over promoted copies does what its specification says (partner: UpdateRecovery.RemovePromotedEffect). |
| `Updater.Installation.RestoreFiles` | HyperCommanderUpdater/updateTransaction.cpp:135-151 | The reverse loop with index arithmetic does what its specification says (partner: UpdateRecovery.RestoreFirstEffect). |
| `Updater.Installation.Rollback` | HyperCommanderUpdater/updateTransaction.cpp:127-154 | The imperative rollback ends in the state and with the outcome the guarantees are proved for (partner: UpdateRecovery.RollbackEffect). |
| `Updater.Installation.Prepare` | HyperCommanderUpdater/updateTransaction.cpp:429-442 | Builds the journal entries in name order with the inventory last, or refuses exactly when a file to add is present with foreign content or the plan is too long. |
| `Updater.Installation.InstallFiles` | HyperCommanderUpdater/updateTransaction.cpp:447-460 | The per-file loop does what its specification says (partners: UpdateSafety.InstallFromEffect, UpdateSuccess.FilesGoThrough). |
| `Updater.Installation.Guarded` | HyperCommanderUpdater/updateTransaction.cpp:445-462 | Applying state, install loop, verification and installed state, in this order (partner: UpdateSafety.InstallEffect). |
| `Updater.Installation.Apply` | HyperCommanderUpdater/updateTransaction.cpp:399-465 | The whole apply, including the rollback on failure (partners: UpdateGuarantees.RecoveryRestoresRoot, UpdateSuccess.ApplySucceedsExactly). |
| `Updater.Installation.Recover` | HyperCommanderUpdater/updateTransaction.cpp:466-470 | Recovery by load and rollback (partner: UpdateGuarantees.RecoveryRestoresRoot). |
| `Updater.Installation.Acknowledge` | HyperCommanderUpdater/updateTransaction.cpp:471-476 | Acknowledging by completing and then removing the record (partner: UpdateRuns.AcknowledgeKeeps). |
| `Updater.Installation.Record` | HyperCommanderUpdater/updateTransaction.cpp:382-393 | The recording loop over the copies, or a refusal (partner: UpdatePromotion.RecordCopiesKeep). |
| `Updater.Installation.Place` | HyperCommanderUpdater/updatePromotion.cpp:59-74 | One copy by a temporary file, a flush and a replacing move (partner: UpdatePromotion.PlaceOneEffect). |
| `Updater.Installation.PlaceWithin` | HyperCommanderUpdater/updateTransaction.cpp:372-398 | Load, record, save and place (partner: UpdateLimits.PlacingKeepsRollbackExactly). |
| `RenameSafety.MoveKeeps` | UniqueLibs/batchRenameJournal.cpp:238-248 | One logged move, with a partly written line, a failed flush or a failed repair at any point, leaves folder and log consistent; without a power cut the file is at its old name or at the new one and never lost or replaced. |
| `RenamePhases.TemporaryFree` | UniqueLibs/batchRenameJournal.cpp:46-64 | The temporary name of a row is never occupied by another file, in any reachable folder. |
| `RenamePhases.GoalFree` | UniqueLibs/batchRenameJournal.cpp:158-168 | In the second phase no target (or original name, when restoring) is occupied by another file when its turn comes. |
| `RenamePhases.SourceFree` | UniqueLibs/batchRenameJournal.cpp:180-206 | While a fresh run retreats, no original name is occupied by another file. |
| `RenamePhases.PhaseKeeps` | UniqueLibs/batchRenameJournal.cpp:158-168 | A phase, stopped anywhere, keeps folder and log consistent; finished, every row has gone as far as the phase takes it; undisturbed it finishes if its destinations are free and the log has room for the lines of the moves it still has to make. |
| `RenamePhases.BothPhasesKeep` | UniqueLibs/batchRenameJournal.cpp:158-172 | Both phases finished mean exactly the planned renaming, or exactly the original names when restoring, and have written exactly two lines for every move; undisturbed, with free destinations and room for these lines, they do finish. |
| `RenamePhases.RetreatKeeps` | UniqueLibs/batchRenameJournal.cpp:180-206 | The retreat of a failed run reports success only when every file is back at its original name, and undisturbed it succeeds if the log has room for it. |
| `RenameRecovery.DiscoveryTracks` | UniqueLibs/batchRenameJournal.cpp:119-136 | After any interruption, looking for the identities under all candidate names finds every row at exactly one of source, temporary and target. |
| `RenameRuns.PerformKeeps` | UniqueLibs/batchRenameJournal.cpp:104-206 | One run in any mode with any disturbances keeps folder and log consistent; if it reports success the files are where the mode takes them and the last log line says so. |
| `RenameRuns.PerformSettles` | UniqueLibs/batchRenameJournal.cpp:104-248 | An undisturbed run succeeds if and only if no foreign file occupies a destination and the log has room for its lines within 64 MiB: two state lines, two lines for each moving row that is not at its temporary name, and two more for each moving row; otherwise, if there is room for a cleanup too, it leaves the files where they were, or back, with the log saying which. |
| `RenameRuns.WorstBound` | UniqueLibs/batchRenameJournal.cpp:10-10 | A run with its cleanup writes at most 468 bytes for each row and three state lines; for 100000 rows that is within the limit of the log. |
| `RenameRuns.RecordKeeps` | UniqueLibs/batchRenameJournal.cpp:233-237 | Recording a state that is true of the folder keeps the log truthful on any handle, positioned or not. |
| `RenameRuns.RunsKeep` | UniqueLibs/batchRenameJournal.cpp:64-79 | Any sequence of disturbed runs keeps the last complete log state in agreement with the folder. |
| `RenameRuns.AnyRunCanBeRestored` | UniqueLibs/batchRenameJournal.cpp:64-248 | From a fresh log and after any sequence of disturbed runs: a readable Completed means every file is at its target, a readable Restored that every file is at its source; from any other readable state an undisturbed restore succeeds, and then gives exactly the original names, if and only if the log has room for its lines, and an undisturbed resumption succeeds if and only if it has room and no foreign file is in the way. |
| `RenameRuns.UnreadableExactly` | UniqueLibs/batchRenameJournal.cpp:208-237 | The log becomes unreadable if and only if it was not empty, moving to its end fails after it was opened, and the following state line fits the limit and is written over its start in part, or whole but ending inside one of its lines, as the lengths of the lines have it. |
| `RenameRuns.OpenedOnce` | UniqueLibs/batchRenameJournal.cpp:208-237 | The log is opened once in a run: if that is refused, the run changes neither a name nor the log; if it fails behind the last line, the run still records, if there is room, how it ended, and nothing else. |
| `RenameLog.OverwrittenExactly` | UniqueLibs/batchRenameJournal.cpp:221-232 | What a line written over the start of the log leaves: whole, and ending where an earlier line ended or behind them all, it replaces exactly these lines; in every other case the log cannot be read any more. |
| `RenameText.LineSizeExactly` | UniqueLibs/batchRenameJournal.cpp:233-245 | The size the 64 MiB limit counts with is the length of the line as printed, for every kind of line, role and row number. |
| `RenameFull.FirstRunSettles` | UniqueLibs/batchRenameJournal.cpp:104-248 | The first run of any plan of up to 100000 rows has room in the log, its cleanup included: undisturbed it renames everything if and only if no foreign file is in the way, and otherwise every file is back and the log says so. |
| `RenameFull.SmallPlansAreRestored` | UniqueLibs/batchRenameJournal.cpp:221-232 | After any commands, disturbed anywhere, an undisturbed restore of an unfinished readable record gives exactly the original names, as long as one run more than there were commands fits the log at its largest. |
| `RenameBudget.PerformShort` | UniqueLibs/batchRenameJournal.cpp:221-248 | Through an undisturbed run of any mode, the size of the log and the lines still owed for bringing every file back together never fall, but for at most 350 bytes of one or two moves that a log filled to its limit took down in part. |
| `RenameBudget.TooFullToRestore` | UniqueLibs/batchRenameJournal.cpp:221-248 | If the log and the lines owed for bringing every file back together are 351 bytes or more above the limit, no undisturbed run of any mode brings the original names back or says that it did. |
| `RenameFull.TwoRunsFillTheLog` | UniqueLibs/batchRenameJournal.cpp:10-10 | The failing input: for every plan of 100000 rows that all move, a fresh run and its resumption, each cut just before its last line, leave a readable unfinished record whose undisturbed restore fails and leaves files under other names. |
| `RenameFull.FullLogStays` | UniqueLibs/batchRenameJournal.cpp:208-237 | Once the log has no room for a state line, no sequence of starts, cancellations, resumptions and restorations changes a line of it or the name of a file. |
| `RenameLimits.TrustedExactly` | UniqueLibs/fileBatchOperations.hpp:59-69 | No sequence of fresh starts, cancellations, resumptions and restorations, disturbed anywhere, leaves a last state the folder contradicts, if and only if the folder is not a redirected one or the plan moves nothing: there a rename that happened may be reported as failed. |
| `RenameLimits.FilesKept` | UniqueLibs/batchRenameJournal.cpp:104-248 | On every folder, a redirected one included, and over all such sequences: each file of the plan is at its source, temporary or target name, and no other file is touched or loses its name. |
| `RenameExecute.ExecuteIsSimultaneous` | UniqueLibs/fileBatchOperations.hpp:391-437 | The direct rename on any folder: complete means that the plan was acceptable and that all rows were renamed at once (cycles, chains, case changes and names staying the same included); no file is ever lost or replaced and no foreign one touched; on a folder that is not redirected, reported restored means that it is exactly as at the start; undisturbed it is complete if and only if the plan is acceptable. A request is acceptable if it repeats no name, finds every file under its old name, and gives no file the name of one that is not renamed. |
| `RenameExecute.ReportsTrulyExactly` | UniqueLibs/fileBatchOperations.hpp:421-434 | Whatever happens, the report that the names were restored is true, if and only if the folder is not redirected, or the plan is refused before anything moves, or no row moves. |
| `RenameExecute.MisledReport` | UniqueLibs/fileBatchOperations.hpp:59-69 | The failing input: on a redirected folder the first rename happens but is reported as failed; the rollback finds nothing to do, and the file keeps its temporary name under a report of success. |
| `RenameFolder.AnyMoveKeeps` | UniqueLibs/batchRenameJournal.cpp:238-248 | One move, on every folder and with any disturbance, loses and replaces no file. |
| `RenameFolder.BothPhasesAlike` | UniqueLibs/batchRenameJournal.cpp:158-168 | What goes through without a failure on a redirected folder is what it is on any other. |
| `RenameUndo.UndoRestores` | UniqueLibs/batchRenameJournal.cpp:310-320 | Undoing is offered if and only if the record is readable, its last state is completed and no later record undid it; run undisturbed it then gives every file its original name and leaves every other file alone. Its new log always has room. |
| `RenameUndo.RenameThenUndo` | UniqueLibs/batchRenameJournal.cpp:296-323 | Renaming a fresh plan and undoing it, both undisturbed: the undo is offered if and only if no foreign file was in the way of the rename, and then the folder is the very one from before. |
| `RenameWorker.RenameTask.Append` | UniqueLibs/batchRenameJournal.cpp:221-232 | Refuses a line that would take the log above 64 MiB; otherwise write, flush and the truncation repair of one line; a failed repair marks the log uncertain (partner: RenameSafety.MoveKeeps). |
| `RenameWorker.RenameTask.Rename` | UniqueLibs/fileBatchOperations.hpp:59-69 | One rename without replacement, with the failure after the fact on redirected folders. |
| `RenameWorker.RenameTask.Move` | UniqueLibs/batchRenameJournal.cpp:238-248 | Intent line, rename, receipt line; an uncertain log blocks it (partner: RenameSafety.MoveKeeps). |
| `RenameWorker.RenameTask.OpenLog` | UniqueLibs/batchRenameJournal.cpp:208-220 | Opening the log behind its last complete line, or with the position left at its start where it is above 64 MiB or the position cannot be set, each of which may fail (partners: RenameRuns.UnreadableExactly, RenameRuns.OpenedOnce). |
| `RenameWorker.RenameTask.CollectCandidates` | UniqueLibs/batchRenameJournal.cpp:119-136 | The distinct names to look under, sources and targets first (partner: RenameRecovery.DiscoveryTracks). |
| `RenameWorker.RenameTask.Advance` | UniqueLibs/batchRenameJournal.cpp:158-168 | One scheduled move of one phase. |
| `RenameWorker.RenameTask.BothPhases` | UniqueLibs/batchRenameJournal.cpp:158-168 | All moves of both phases (partner: RenamePhases.BothPhasesKeep). |
| `RenameWorker.RenameTask.Retreat` | UniqueLibs/batchRenameJournal.cpp:180-206 | Both retreat loops of a failed fresh run (partner: RenamePhases.RetreatKeeps). |
| `RenameWorker.RenameTask.Finalize` | UniqueLibs/batchRenameJournal.cpp:180-206 | Retreat where the mode asks for it, and the state that is recorded. |
| `RenameWorker.RenameTask.Perform` | UniqueLibs/batchRenameJournal.cpp:104-206 | A whole run from opening the log to the final state (partner: RenameRuns.PerformKeeps). |
| `RenameWorker.RenameTask.Screen` | UniqueLibs/fileBatchOperations.hpp:399-415 | Pins every file and refuses repeated sources or targets, row by row. |
| `RenameWorker.RenameTask.Execute` | UniqueLibs/fileBatchOperations.hpp:391-437 | The whole direct rename (partner: RenameExecute.ExecuteIsSimultaneous). |
| `JsonSound.AcceptsExactly` | HyperCommanderUpdater/updateJson.cpp:16-95 | A text is accepted if and only if it is not empty, within the size limit, valid UTF-8 and the text of a syntax tree of sections 2 to 7 of RFC 8259 restricted to unsigned 64-bit integers, with no duplicate key and within the depth and node bounds. |
| `JsonSound.ValueIs` | HyperCommanderUpdater/updateJson.cpp:16-95 | The value read is the value of the syntax tree, whichever tree of that text one takes. |
| `JsonSound.ValueSound` | HyperCommanderUpdater/updateJson.cpp:68-95 | Whatever the reader accepts at any position is the text of a syntax tree, with the node count of that tree. |
| `JsonComplete.ValueComplete` | HyperCommanderUpdater/updateJson.cpp:68-95 | Every syntax tree within the bounds is read from its text, whatever follows it, to its value and its node count. |
| `JsonQuote.QuoteJson` | HyperCommanderUpdater/updateJson.cpp:100-108 | The printing loop computes the quoted text (partner: JsonQuote.QuoteRoundTrip). |
| `JsonQuote.QuoteRoundTrip` | HyperCommanderUpdater/updateJson.cpp:100-108 | Printing any valid UTF-8 text and reading it gives the text back, within the size limit. |
| `JsonQuote.EscapesDecode` | HyperCommanderUpdater/updateJson.cpp:25-67 | Every unit escape and every surrogate pair escape stands for exactly one scalar value in valid UTF-8, decoded as section 2.2 of RFC 2781 says. |
| `JsonQuote.SurrogatesJoin` | HyperCommanderUpdater/updateJson.cpp:58-66 | The surrogates of a code point above U+FFFF join to that code point. |
| `Utf8.EncodedDecodes` | HyperCommanderUpdater/updateJson.cpp:36-41 | The bytes written for a scalar value are one character that decodes to it. |
| `Utf8.ValidConcat` | HyperCommanderUpdater/updateJson.cpp:16-20 | Validity of UTF-8 is decided piece by piece. |
| `JsonParser.Parser.TakeHex` | HyperCommanderUpdater/updateJson.cpp:25-35 | Four hexadecimal digits read by moving the position. |
| `JsonParser.Parser.TakeString` | HyperCommanderUpdater/updateJson.cpp:42-67 | The string loop (partners: JsonSound.ValueSound, JsonComplete.ValueComplete). |
| `JsonParser.Parser.TakeNumber` | HyperCommanderUpdater/updateJson.cpp:86-94 | The digit loop with its overflow check: refuses exactly what does not fit 64 bits. |
| `JsonParser.Parser.Read` | HyperCommanderUpdater/updateJson.cpp:68-95 | The recursive reader over position and node counter. |
| `JsonParser.Parser.Parse` | HyperCommanderUpdater/updateJson.cpp:16-20 | The entry point of the class gives exactly the reader's result (partner: JsonSound.AcceptsExactly). |
| `JsonPrint.PrintRoundTrip` | HyperCommanderUpdater/updateTransaction.cpp:72-89 | For every value within the limits, printing and reading are inverse. |
| `JsonPrint.AcceptedPrint` | HyperCommanderUpdater/updateTransaction.cpp:72-89 | A printed value is accepted if and only if it fits the size limit and is valid UTF-8, and then read as that value. |
| `JournalCodec.SaveLoad` | HyperCommanderUpdater/updateTransaction.cpp:72-118 | Loading a saved journal gives that journal if it meets the loader's rules, and is refused otherwise. |
| `JournalCodec.LoadsWhatWasSaved` | HyperCommanderUpdater/updateTransaction.cpp:72-118 | Every acceptable journal within the size limits can be saved and is loaded as itself. |
| `JournalFile.Save` | HyperCommanderUpdater/updateTransaction.cpp:72-89 | The printing loops compute the journal text and refuse what the reader would refuse. |
| `JournalFile.LoadEntries` | HyperCommanderUpdater/updateTransaction.cpp:99-107 | The entry loop accepts exactly the lists whose items are well formed and whose folded names are distinct, and reads each in place. |
| `JournalFile.LoadCopies` | HyperCommanderUpdater/updateTransaction.cpp:109-116 | The same for promoted copies, against the names of the entries too. |
| `JournalFile.LoadJournal` | HyperCommanderUpdater/updateTransaction.cpp:94-118 | The loader, check by check, equals the decoder the round trip is proved for. |
| `JournalFile.ChecksMean` | HyperCommanderUpdater/updateTransaction.cpp:94-118 | The checks made item by item are the conditions of an acceptable journal. |
| `DetectString.ConversionKeepsMeaning` | UniqueLibs/cmnHCUtils.cpp:444-496 | For every expression and every token list that spells it: the postfix output evaluates on the stack to exactly one value, the value of the expression read left-associatively by priority; DetectGrammar.GrammarIsEvaluated says which reading that is. |
| `DetectGrammar.GrammarIsEvaluated` | UniqueLibs/cmnHCUtils.cpp:321-496 | For the grammar with one level each for or-chains, and-chains, comparisons and operands or brackets, chains leaning to the left, and with no mention of priorities: compiling the text of any of its trees and evaluating the result on the stack gives exactly the value of the tree. |
| `DetectGrammar.EveryTextIsInGrammar` | UniqueLibs/cmnHCUtils.cpp:408-423 | Every text of an expression is one of this grammar, and all its trees have the same value. |
| `DetectString.ReadingShaped` | UniqueLibs/cmnHCUtils.cpp:408-423 | Every expression's text has a reading by priority with the same tokens. |
| `DetectString.ReadingUnique` | UniqueLibs/cmnHCUtils.cpp:408-423 | Two readings by priority of one text have the same postfix form and the same meaning. |
| `DetectString.Converts` | UniqueLibs/cmnHCUtils.cpp:444-496 | Inside any surrounding stack the conversion of an expression emits its postfix form, up to operators still pending, and leaves the stack below untouched. |
| `DetectString.PostfixEvaluates` | UniqueLibs/cmnHCUtils.cpp:321-345 | Evaluating a postfix form adds exactly its meaning to any stack. |
| `DetectString.Parser.TakeToken` | UniqueLibs/cmnHCUtils.cpp:444-496 | One token: output, push, or pop by priority or to the bracket (partner: DetectGrammar.GrammarIsEvaluated). |
| `DetectString.Parser.Convert` | UniqueLibs/cmnHCUtils.cpp:444-496 | The conversion loop (partners: DetectString.ConversionKeepsMeaning, DetectGrammar.GrammarIsEvaluated). |
| `DetectString.Parser.Test` | UniqueLibs/cmnHCUtils.cpp:321-345 | The evaluation loop with its stack gives the truth of the first value (partner: DetectString.PostfixEvaluates). |
| `CommandLine.Argument` | HyperCommanderUpdater/updaterMain.cpp:9-17 | The quoting loop with its count of backslashes computes the quoted argument (partner: CommandLine.SplitJoined). |
| `CommandLine.BodyScans` | HyperCommanderUpdater/updaterMain.cpp:9-17 | Inside quotes the escaped body of any value, after any number of pending backslashes, is scanned back to that value and closes the quotes. |
| `CommandLine.SplitJoined` | HyperCommanderUpdater/updaterMain.cpp:9-17 | Splitting the space-joined quoted arguments by the documented backslash and quote rules gives the original list, for all lists of all strings. |
| `RefreshOrder.RefreshKeepsOrder` | UniqueLibs/directoryRefreshOrder.hpp:42-90 | The result is exactly the current entries; survivors stand in their previous relative order, before all new entries, and those stand in key order. |
| `RefreshOrder.JoinIsLookup` | UniqueLibs/directoryRefreshOrder.hpp:55-85 | The one-pass merge join over two key-sorted lists agrees with looking up every key by itself, duplicates included. |
| `RefreshOrder.SortFirst` | UniqueLibs/directoryRefreshOrder.hpp:42-54 | The stable sort by key leaves the first of several rows with one key first. |
| `RefreshOrder.JoinCursor.Skip` | UniqueLibs/directoryRefreshOrder.hpp:19-40 | Page by page, the cursor stops at the first old row whose key is not smaller. |
| `RefreshOrder.JoinCursor.Next` | UniqueLibs/directoryRefreshOrder.hpp:55-85 | A page of the join is the next piece of the one-pass join, for any page sizes. |
| `RefreshOrder.Join` | UniqueLibs/directoryRefreshOrder.hpp:42-90 | For any sequence of page sizes, the pages join up to the plain lookup. |
| `SearchProtocol.SearchesAreSafe` | UniqueLibs/document/search/documentSearchWorkerClient.cpp:72-172 | For every chunk size and every sequence of searches with repeated or raised numbers, cancels, ticks and deliveries, if nobody cancels while a cancel reply is awaited: at most four parts are on their way; while a search runs uncancelled no credit is ever lost; whatever the client takes belongs to the search it asked for last; and when it hears a completion, the parts it took join up to exactly the encoded hits of that search, in order. That it does hear the completion says SearchFinish.EverySearchEnds. |
| `SearchProtocol.DeliverKeeps` | HyperSearchIndexer/documentSearchMode.cpp:98-173 | Handing the worker a credit, a search or a cancel keeps it. |
| `SearchProtocol.HearKeeps` | UniqueLibs/document/search/documentSearchWorkerClient.cpp:114-172 | Handing the client a message keeps it: a part is taken and paid for, a part heard while cancelling is neither, and an end or a cancel reply leaves nothing behind it. |
| `SearchCancel.SafeExactly` | UniqueLibs/document/search/documentSearchEngine.cpp:271-271 | All runs are safe in this way if and only if nobody cancels while a cancel reply is awaited. |
| `SearchCancel.HastyIsUnsafe` | UniqueLibs/document/search/documentSearchWorkerClient.cpp:80-85 | The failing run: one search is cancelled twice before the reply; the first reply makes room for a second search, the second reply for a third while the second is being matched, and parts of the second reach the client under the number of the third. |
| `SearchCancel.PatientRuns` | UniqueLibs/document/search/documentSearchEngine.cpp:271-271 | A run in which no cancel is sent while a reply is awaited goes as if such cancels were impossible, so that it is safe. |
| `SearchCancel.NothingAfterCancel` | HyperSearchIndexer/documentSearchMode.cpp:111-115 | In every run, with any cancels: between a cancel reply and the next part or completion in the worker's output there is the announcement of a search accepted later. |
| `SearchCancel.PhaseIsTold` | HyperSearchIndexer/documentSearchMode.cpp:174-184 | In every run, with any cancels: while the worker matches, the last phase it reported says that it waits for credit if and only if it does, and a turn without credit makes it report that. |
| `SearchProtocol.StepKeeps` | UniqueLibs/document/search/documentSearchWorkerClient.cpp:72-172 | Every event of worker, client and pipes keeps the invariant of the connection: idle, asked, served, or cancelled and answered. |
| `SearchFinish.EverySearchEnds` | HyperSearchIndexer/documentSearchMode.cpp:98-218 | From every state of every patient run with a request or a cancellation open, finitely many steps that worker, client and pipes owe make the client idle, if and only if the request is not muted (refused as it stands while the worker still has another number). It has then heard the reply to its cancellation; or the completion, with exactly the encoded hits taken, if the matcher gives all of them; or else an error. |
| `SearchFinish.OwedLowers` | HyperSearchIndexer/documentSearchMode.cpp:174-218 | Every step owed lowers what is still to do, counted in commands to deliver, hits to match, bytes to send and messages to hear, in this order of weight; so however they are ordered they come to an end. |
| `SearchFinish.SomethingOwed` | UniqueLibs/document/search/documentSearchWorkerClient.cpp:72-172 | A busy client that is not muted is owed a step: a message to hear, a frame to deliver, or, with nothing on its way, work at full credit. |
| `SearchFinish.TickEnds` | HyperSearchIndexer/documentSearchMode.cpp:174-208 | A tick that ends a search sends its completion if the matcher has given all hits, and an error if it has failed, as its last message under the number of the search; any other tick keeps the search going. |
| `SearchFinish.FirstRefusalIsMuted` | HyperSearchIndexer/documentSearchMode.cpp:144-146 | A muted request: the first one, refused as it stands, is answered under the number 0, and the client goes on waiting. |
| `DocumentSearch.TickKeeps` | HyperSearchIndexer/documentSearchMode.cpp:174-208 | One tick keeps the parts sent a prefix of the encoded hits, spends exactly the credit it sends parts for, and completes only at full credit with everything delivered. When it completes says SearchFinish.TickEnds. |
| `DocumentSearch.FlushKeeps` | HyperSearchIndexer/documentSearchMode.cpp:210-218 | Flushing cuts the pending batch into parts without gap or overlap until the credit or the batch is used up. |
| `DocumentSearch.TickRecords` | HyperSearchIndexer/documentSearchMode.cpp:174-218 | The parts a tick sends are the ones that go on record, an end of the search is its last message, and after that the worker is idle. Which end it is says SearchFinish.TickEnds. |
| `SearchWorker.Worker.Receive` | HyperSearchIndexer/documentSearchMode.cpp:98-173 | A frame handled by the imperative server changes its fields and output as specified. |
| `SearchWorker.Worker.Pull` | HyperSearchIndexer/documentSearchMode.cpp:184-195 | The loop over the matcher takes the next hits in order, at most a hundred. |
| `SearchWorker.Worker.Flush` | HyperSearchIndexer/documentSearchMode.cpp:210-218 | The part loop over the pending batch (partner: DocumentSearch.FlushKeeps). |
| `SearchWorker.Worker.Tick` | HyperSearchIndexer/documentSearchMode.cpp:174-208 | A whole tick (partners: DocumentSearch.TickKeeps, SearchFinish.TickEnds). |
| `SnapshotCache.Cache.MakeRoom` | HyperSearchIndexer/documentSearchMode.cpp:91-95 | Gives up exactly the shortest run of least recently used texts that makes room, and keeps the byte count true. |
| `SnapshotCache.Cache.Store` | HyperSearchIndexer/documentSearchMode.cpp:89-97 | A stored text is the most recent, the total stays within 128 MiB, and all texts not given up are unchanged. |
| `SnapshotCache.Cache.Use` | HyperSearchIndexer/documentSearchMode.cpp:148-150 | Using a text makes it the most recent, and nothing else changes. |
| `SnapshotCache.EvictedMeans` | HyperSearchIndexer/documentSearchMode.cpp:92-95 | The evicted run is the shortest that makes room. |
| `QuickFindSystem.QuickFindIsSafe` | UniqueLibs/everythingSearchSession.hpp:90-189 | Sender and session over a pipe, for any rows, an error frame after any line or none, a helper that may crash in the middle of any line, and any interleaving of all events: while not cancelled every distinct path is in exactly one of pending, in a worker, ready, published and skipped; an accepted end frame means that the session has received exactly the sender's rows in order; at most one items frame is unacknowledged; no running state is stuck. When an end is accepted says QuickFindSuccess.AcceptedExactly. |
| `QuickFindSystem.LinesNeverTooLong` | UniqueLibs/everythingSearchSession.hpp:94-130 | In every such run, when each path fits the sender's 240 KiB by itself, no line on its way, no line left in the buffer and no part of a line is longer than the 256 KiB the session accepts. |
| `QuickFindSystem.ScriptShape` | HyperSearchIndexer/searchIndexMain.cpp:28-66 | The lines sent for any rows, cut by an error or not, have the shape the session demands and, uncut, carry exactly these rows. |
| `QuickFindSystem.StepKeeps` | UniqueLibs/everythingSearchSession.hpp:90-189 | Every enabled step keeps the invariant of the composed system. |
| `QuickFindSystem.GoesOn` | UniqueLibs/everythingSearchSession.hpp:75-75 | A running session always has an enabled step that makes progress, without counting on a crash of its helper. |
| `QuickFindFinish.EverySessionCanFinish` | UniqueLibs/everythingSearchSession.hpp:40-216 | From every state of every run that the user has not cancelled, some finite sequence of steps owed by helper, pipes, workers and timer, with the helper leaving only when it is done or killed, ends the session with every distinct received path published or skipped once. When it ends without failing says QuickFindSuccess.UndisturbedSucceeds. |
| `QuickFindFinish.Nearer` | UniqueLibs/everythingSearchSession.hpp:40-216 | While a session runs there is such a step, and it lowers a measure of what is still to be sent, read, answered, resolved and published. |
| `QuickFindSuccess.UndisturbedSucceeds` | UniqueLibs/everythingSearchSession.hpp:90-189 | For a query whose rows do not change, are all acceptable paths and make no line too long: in any order of sending, reading whole or broken lines, resolving and publishing without crash, cancelling or early timeout the session never fails; and from each of its states steps that helper, pipes, workers and timer owe end it with the end frame accepted, exactly the rows received, every distinct one that the workers find published once, and exactly the missing ones skipped. |
| `QuickFindSuccess.AcceptedExactly` | UniqueLibs/everythingSearchSession.hpp:94-129 | Some run has the end frame of a query accepted if and only if its rows stayed unchanged, every line is within 256 KiB, and every row is an acceptable path. |
| `QuickFindSuccess.RunSifts` | UniqueLibs/everythingSearchSession.hpp:141-176 | In every run, however it is disturbed, whose workers report exactly the missing paths of their batches: no missing path is ever ready or published, and no other one skipped. |
| `QuickFindSuccess.TranscriptExactly` | UniqueLibs/everythingSearchSession.hpp:94-129 | Whatever a helper sends: a fresh session takes its lines without failing if and only if they are a well-formed answer so far (numbered without gap and of proper length; a start only as the first; one count, before all paths; no empty list and only acceptable paths; nothing after the end, which is complete, repeats the count and finds as many paths), and then it knows exactly the listed paths, and an end if and only if the lines end in one. |
| `QuickFindSuccess.FittingAnswerable` | HyperSearchIndexer/searchIndexMain.cpp:38-65 | Fewer than 2^64 rows, each an acceptable path that takes at most 240 KiB by itself, make no line too long. |
| `QuickFindSuccess.TakenExactly` | UniqueLibs/everythingSearchSession.hpp:95-129 | The next line in order is taken if and only if it is short enough, no error frame, and, if it lists paths, lists acceptable ones only; so the count, any items frame, and an end frame with the right numbers are taken. |
| `QuickFindSession.HandleKeeps` | UniqueLibs/everythingSearchSession.hpp:90-189 | Every event handler keeps the session invariant. Which lines are accepted says QuickFindSuccess.TakenExactly. |
| `QuickFindSession.PumpKeeps` | UniqueLibs/everythingSearchSession.hpp:141-176 | Starting workers moves paths from pending to workers without loss or repetition, and stops only for one of the reasons the code gives. |
| `QuickFindSession.NotStuck` | UniqueLibs/everythingSearchSession.hpp:133-182 | A session that still runs waits for its helper, for a worker or for its timer. |
| `QuickFindSender.SendRows` | HyperSearchIndexer/searchIndexMain.cpp:38-65 | The row loop with its paging and flushing sends exactly the specified frames, whatever the pages. |
| `QuickFindSender.FramesCarryRows` | HyperSearchIndexer/searchIndexMain.cpp:38-65 | The frames join up to the rows in order; none is empty, has more than 64 paths, or exceeds 240 KiB unless it is a single path; and all frames fit if and only if every row does. |
| `QuickFindText.LinesFit` | HyperSearchIndexer/searchIndexMain.cpp:28-32 | Every printed line of the helper, its number and fields included, is within 256 KiB, for an items frame once its paths keep to the limit of a flush. |
| `QuickFindText.ListedSize` | HyperSearchIndexer/searchIndexMain.cpp:56-62 | The printed array of a frame is as long as the sender's running sum of one-item arrays says, less what is counted twice. |
| `QuickFindReader.Reader.AddItems` | UniqueLibs/everythingSearchSession.hpp:113-120 | Adds each new path once, and stops at the first invalid one. |
| `QuickFindReader.Reader.TakeLine` | UniqueLibs/everythingSearchSession.hpp:95-129 | One line checked and taken: length, format and number first, then by type, field by field (partners: QuickFindSuccess.TakenExactly, QuickFindSuccess.TranscriptExactly). |
| `QuickFindReader.Reader.TakeBuffer` | UniqueLibs/everythingSearchSession.hpp:94-129 | The loop over the buffered lines, up to the first that fails; a line that cannot be read at all empties the buffer, any other leaves what is behind it. |
| `QuickFindReader.Reader.TakeBatch` | UniqueLibs/everythingSearchSession.hpp:145-148 | Takes up to sixteen waiting paths and keeps the byte count true. |
| `QuickFindReader.Reader.Pump` | UniqueLibs/everythingSearchSession.hpp:141-176 | The worker loop (partner: QuickFindSession.PumpKeeps). |
| `QuickFindReader.Reader.Acknowledge` | UniqueLibs/everythingSearchSession.hpp:133-140 | Answers all waiting frames in order, or none under back-pressure. |
| `QuickFindReader.Reader.ReadLines` | UniqueLibs/everythingSearchSession.hpp:90-132 | Adds what has arrived to the buffer, reads it line by line, fails on an incomplete line that is too long, and otherwise goes on with workers and answers (partner: QuickFindSession.HandleKeeps). |
| `QuickFindReader.Reader.Finish` | UniqueLibs/everythingSearchSession.hpp:151-157 | The handler of a finished worker (partner: QuickFindSuccess.RunSifts). |
| `QuickFindReader.Reader.Handle` | UniqueLibs/everythingSearchSession.hpp:48-189 | All handlers together (partner: QuickFindSession.HandleKeeps). |
| `NaturalOrder.NaturalIsPreorder` | UniqueLibs/builtInFsModel.cpp:1642-1670 | The comparison is antisymmetric in sign, transitive, and equal exactly for names with the same sequence of folded texts and number values: a total preorder. |
| `NaturalOrder.NumberedInOrder` | UniqueLibs/builtInFsModel.cpp:1642-1670 | Names that agree up to a number, after a stem that does not end in a digit, are ordered by the value of this number, whatever leading zeros it is written with and whatever text follows it. |
| `NaturalOrder.NaturalCompare` | UniqueLibs/builtInFsModel.cpp:1642-1670 | The two-cursor loop computes that comparison. |
| `NaturalOrder.CompareNumbers` | UniqueLibs/builtInFsModel.cpp:1649-1656 | Skipping zeros, comparing lengths and then texts compares the numbers of two digit runs of any length. |
| `NaturalOrder.LengthThenText` | UniqueLibs/builtInFsModel.cpp:1654-1656 | Digit runs of one length order as texts as they do as numbers. |
| `NaturalOrder.MixedDecides` | UniqueLibs/builtInFsModel.cpp:1659-1665 | Where one name starts a number and the other does not, comparing one character decides as the whole comparison does. |
| `SortRanks.MergeIsSort` | UniqueLibs/builtInFsModel.cpp:1671-1698 | Merging the sorted old rows with the sorted new tail gives the stable sort of all rows, for every total preorder. |
| `SortRanks.OrderUnique` | UniqueLibs/builtInFsModel.cpp:1697-1698 | There is only one stable order of given rows, so any algorithm that orders them so agrees. |
| `SortRanks.RefreshRanks` | UniqueLibs/builtInFsModel.cpp:1671-1701 | Updated ranks are the ranks of the stable sort of everything, whether merged or not. |
| `ArchiveRows.ArchiveRowsFollowParents` | UniqueLibs/builtInFsModel.cpp:2684-2691 | After a column sort that puts parent rows first, moving all archive rows behind them, one after the other, always leaves the ranks a permutation: parents keep their places, then come the archive rows, and all other rows follow in their sorted order. |
| `ArchiveRows.SortedParentsFirst` | commonLibs/columns/columnSort.hpp:36-44 | A stable sort by a comparison that puts parent rows before all others ranks them above all others. |
| `ArchiveRows.ParentsTakeFirst` | UniqueLibs/builtInFsModel.cpp:2686-2686 | The parent rows have exactly the first ranks, as many as there are parents, so no archive row ever moves down. |
| `ArchiveRows.PlaceArchiveRows` | UniqueLibs/builtInFsModel.cpp:2686-2691 | The counting loop and the loop over the rows, in place (partner: ArchiveRows.ArchiveRowsFollowParents). |
| `SortRanks.ShiftInPlace` | UniqueLibs/builtInFsModel.cpp:2688-2690 | The inner loop over the rank array in place: one row takes the place, and what was between moves down by one (partner: ArchiveRows.ArchiveRowsFollowParents). |
| `IconService.EveryStateIsSound` | UniqueLibs/fileIconService.cpp:89-226 | In every reachable state each pending key is queued exactly once or held by one running load with its serial, at most two loads run and, drives keeping their kind, one remote load, and every cached entry comes from a load started after the last invalidation of its family. |
| `IconDrift.OneRemoteExactly` | UniqueLibs/fileIconService.cpp:25-37 | At most one remote load runs in every run, if and only if a drive is the same kind of drive whenever it is asked about. |
| `IconDrift.BlockedExactly` | UniqueLibs/fileIconService.cpp:146-152 | With no remote load running, a remote load can ever start again, drives being steady from then on, if and only if the counter is zero. |
| `IconDrift.DriftBlocks` | UniqueLibs/fileIconService.cpp:146-152 | The failing run: one load whose drive is remote at its start and local at its end, or the other way round, leaves the counter off zero with nothing running. |
| `IconService.OvertakenIsDiscarded` | UniqueLibs/fileIconService.cpp:170-173 | A load that an invalidation overtook changes neither cache nor pending keys when it ends. |
| `IconService.PictureNewExactly` | UniqueLibs/fileIconService.cpp:170-226 | In every reachable state the cached picture of a key is from after the last invalidation of its family, if and only if a load of that key has succeeded since then and its value has not been dropped. |
| `IconService.OldPictureServed` | UniqueLibs/fileIconService.cpp:182-185 | The failing run: loaded, invalidated, asked for again, and failed transiently; the old picture is cached as a new value and served. |
| `IconService.PumpKeeps` | UniqueLibs/fileIconService.cpp:133-163 | Starting loads keeps all of this. |
| `IconService.PumpStarts` | UniqueLibs/fileIconService.cpp:133-163 | Every free place is used: after a pump two loads run, or each key still queued is needed but deferred, or remote while a remote load runs, so a local load starts although a share blocks. Only needed keys that are not deferred start, running loads stay, and no needed key is dropped. |
| `IconService.InvalidateKeeps` | UniqueLibs/fileIconService.cpp:211-226 | Invalidating whole families keeps all of this. |
| `IconLoader.Loader.Enqueue` | UniqueLibs/fileIconService.cpp:122-132 | A key not yet pending gets the next serial and the end of the queue, within 1024. |
| `IconLoader.Loader.Pump` | UniqueLibs/fileIconService.cpp:133-163 | The scan over the queue with removal while scanning (partners: IconService.PumpKeeps, IconService.PumpStarts). |
| `IconLoader.Loader.Finish` | UniqueLibs/fileIconService.cpp:151-206 | The end of a load, by its serial (partner: IconService.OvertakenIsDiscarded). |
| `IconLoader.Loader.Invalidate` | UniqueLibs/fileIconService.cpp:211-226 | The expansion to families and the removal (partner: IconService.InvalidateKeeps). |
| `ZipLayout.AcceptedLayout` | HyperCommanderUpdater/updateArchive.cpp:16-57 | In an accepted archive the central records tile the directory region exactly, and the local parts are pairwise disjoint, not empty and before the directory; it is accepted exactly when footer, records and disjointness are as sections 4.3.7, 4.3.12 and 4.3.16 of the PKWARE APPNOTE lay them out. |
| `ZipRecords.ReadsExactlyArchives` | HyperCommanderUpdater/updateArchive.cpp:16-57 | The reader accepts a file with a list of members if and only if the file is an archive of records written field by field as in sections 4.3.7, 4.3.12 and 4.3.16 of the PKWARE APPNOTE: local headers and payloads before the directory and apart from each other, central records from the directory to the end record, which is the last thing in the file, both records of an entry in agreement, nothing encrypted, split, 64-bit or otherwise compressed; and the list gives the name, sizes, checksum and place of each entry. |
| `ZipRecords.LocalExactly` | HyperCommanderUpdater/updateArchive.cpp:45-50 | Thirty bytes are the fixed part of a local header with given fields if and only if the numbers at the offsets the updater reads are these fields. |
| `ZipRecords.CentralExactly` | HyperCommanderUpdater/updateArchive.cpp:36-44 | The same for the forty-six bytes of a central record. |
| `ZipRecords.EndExactly` | HyperCommanderUpdater/updateArchive.cpp:26-32 | The same for the twenty-two bytes of an end record. |
| `ZipRecords.EntryIsRead` | HyperCommanderUpdater/updateArchive.cpp:36-53 | An entry whose central record and local header lie in the file is read with the fields of these records. |
| `ZipRecords.EntryFound` | HyperCommanderUpdater/updateArchive.cpp:36-53 | Whatever the reader takes for an entry is one: some central record and some local header lie at the places read. |
| `ZipLayout.OverlapFound` | HyperCommanderUpdater/updateArchive.cpp:54-55 | Comparing neighbours after sorting by start finds an overlap if and only if any two ranges overlap. |
| `ZipLayout.ReadDirectory` | HyperCommanderUpdater/updateArchive.cpp:32-55 | The record loop, the sort and the neighbour check (partners: ZipLayout.AcceptedLayout, ZipRecords.ReadsExactlyArchives). |
| `ZipLayout.CheckTotal` | HyperCommanderUpdater/updateArchive.cpp:68-72 | The total with its 64-bit guard equals the announced size exactly when the unbounded sum does. |

## Left out

- Signatures, catalogs, certificates, hashing, version resources and the reading of manifests: foreign calls; their outcome is a refusal of the script or a part of the plan.
- Processes, windows, mutexes, retries and the handoff from the running product: they appear only as refusals, under one root lock.
- The housekeeping after an acknowledged or abandoned update (`CleanAcknowledged`, `PruneTransactions`, `DiscardUnapplied`) and the updater's network client: they run before or after the outcome is decided.
- Updater.Installation.Acknowledge: models completing and removing the record (lines 475-476), not the deletion of backup and staging files that follows.
- The plan file of a rename and its JSON form: only the conditions the loader checks on its rows are modelled; name rules and rename masks (`NameError`, `Plan`) are not.
- RenameWorker.RenameTask.Execute: the parent folder checks and the comparison of size and time with the listing are one refusal per row; a change of letter case on disk between listing and renaming is not modelled.
- RenameRuns.UnreadableExactly: a part of a line that changes nothing that is read counts as a refused write.
- RenameWorker.RenameTask.Record: job number and error text of a state line are given by their length, at most 8144 bytes, so that the loader can read the line (8192 bytes); a longer text, which only hundreds of control characters or unpaired surrogates in a path can make out of 2048 units, is not modelled.
- RenameWorker.RenameTask.Append: an incomplete line that a failed opening left behind counts as a refused write where it takes the room of the next one, not by its bytes.
- RenameWorker.RenameTask.Perform: pauses, progress and cancellation by the user are refusals of the script.
- DetectString.ConversionKeepsMeaning: the comparison of two operands (`calculate`) is any function of three texts, and tokenising is left out; malformed token lists are not given a meaning.
- CommandLine.SplitJoined: the special quoting rule for the program name itself is not part of it, as the quoted list holds only arguments.
- RefreshOrder.RefreshKeepsOrder: the external sorter is specified as a stable sort and a filter.
- SearchProtocol.SearchesAreSafe: a worker process that is killed, by a watchdog or because a cancel reply takes longer than 150 ms, ends the run; the next process starts a new one.
- Regular expressions, text decoding and the wire byte codec of the document search: the matcher is any finite list of hits, and the encoding any function that gives every batch at least one byte.
- The transfer of a snapshot in pieces (`PutBegin`, `PutChunk`, `PutEnd`) and reading a file from disk: they decide what is searched, not how results are sent.
- QuickFindSystem.LinesNeverTooLong: assumes that each path by itself takes at most 240 KiB in printed form, as every Windows path does (at most 32767 units of at most 6 bytes), and that rows are counted in 64 bits.
- QuickFindReader.Reader.ReadLines: a line is given by its number, content and length; the bytes it is parsed from, the display interval and the status text are not modelled.
- Locale-aware comparison (`QCollator`), drive-list keys and group keys of the name sort: `SortRanks` holds for every total preorder.
- IconService.EveryStateIsSound: whether a path is remote is fixed for each key (IconDrift says what happens when it is not); lifetimes, retry delays, file watchers and notifications are left out; an entry may expire or be evicted at any time.
- ArchiveRows.ArchiveRowsFollowParents: the comparison of column values is any total preorder that puts parent rows first.
- ZipLayout.ReadDirectory: unpacking itself, done by 7-Zip after the layout check, is not modelled; the rule for member names is any predicate.
- Qt views, dialogs, themes, shell menus, drag and drop, settings and plugins: user interface.
