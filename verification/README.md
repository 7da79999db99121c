# peipkg: a verified model

peipkg installs, upgrades and removes packages on a Peios system, builds them, and publishes the
repositories they come from. This project models the parts of it where a mistake costs most and proves what they promise.
`dafny verify dfyconfig.toml` checks everything.

**The transaction engine** (`internal/install`, `internal/db`). A resolved plan becomes file operations: create,
replace, remove and swap, each one or two renames between three sibling names. The engine journals them, stages
content, renames, writes package rows, claim rows and the end of the journal in one database transaction, and then
discards backups.

- `FileOps`, `Disk`, `Undo` and `Flip` are the operations on a tree of names, step by step with faults, and their undo. `Lookups` finds a parent directory again, which is where recovery starts.
- `TempNames` is the naming rule, with the exact condition under which truncated names collide.
- `Tables`, `Metadata`, `ClaimTables` and `RowsAfter` are the database with its cascades, the commit, and the payload replayed instead of it.
- `Sorting`, `Claims`, `RelativeLinks` and `Holders` derive the claim symlinks that should exist.
- `Planning`, `Patch`, `Upgrade` and `Transactions` go from a plan to changes, and prove the changes a correct patch. `Acceptance` reads off rows and disk which plans are refused, `Committable` says when the database takes one; `KindChange` is about plans that replace directories.
- `SingleRoot` and `SingleRootSafety` are one root as a state machine over any sequence of transactions, failures, crashes and recoveries. `CreatedDirs` is the clean-up of directories. `Progress` shows when a planned transaction gets to its commit, `DirectoryEntries` when its rollback closes, `SwapStops` what the one uncovered stop leaves, `LinkPaths` when a claim path can be found empty; `Witness`, `DirectoryWitness` and `ClaimWitness` are runs.
- `CrossRoot` and `CrossRootSafety` are the two-phase commit over several roots and its recovery. The participants reuse the single-root machine unchanged. `CrossProgress` gives the runs that end torn or blocked for all participants, `CrossWitness` for two roots. `KeptBackups` is which backups the journal forgets, `FinalTrees` the exact disk every ending leaves, `KeptWitness` a run.

**The publisher** (`internal/repopub`, `internal/version`). `Versions` parses and orders versions, `Ordering`
and `VersionTexts` say which is the greater, `Ties` is what the order cannot separate. `Publisher`, `PublisherSafety`
and `PublicationAudit` treat a publish as a transition followed by ordered renames, any prefix of which may be all that
happens. `PublishedUrls` and `Templates` say which URL templates tell packages apart.

**Algorithms with exact specifications.** `JsonGuard` and `JsonEscapes` (hardening of JSON input), `PayloadTree` and `Msgpack` (audit
payloads), `ElfVersions` (symbol version tables), `Archives` (accepting a package), `ParallelMap` and `ParallelFailures`
(workers under every interleaving), `Reclaim` (released directories).

## Reading the model

A tree maps absolute paths to files and symlinks. A digest stands for the bytes of a file, and a `char` for a byte. A crash
may come between any two steps but those of a swap: it loses memory and keeps disk and database. Every system call may fail for reasons of
its own, and the database may refuse a commit, so success is a result and never a certainty. Transaction ids are 64-bit and never reused.

`Separated` and `Planned` (in `FileOps`) are what planning establishes about operations. That no path has two
operations is not assumed of plans: the key of the journal table on transaction and final path refuses such a plan
(`Patch.JournalAccepts`).

## Where code and documentation disagree

The model follows the code.

- The error of the parallel map is documented as the same on repeated failing runs (internal/compose/parallel.go:13-14). That holds if and only if there is one worker or at most one failing index (`ParallelFailures.SameFailureExactly`).
- A comment in the derivation of the active index says that a tie means different architectures (internal/repopub/publish.go:341-343). Two spellings of one version have different identities and tie too: `Ties.SecondSpellingIsRefused` publishes one name for one architecture and is refused.
- The template check is documented as rejecting templates that cannot distinguish two packages (internal/repopub/state.go:343-344). It does not ask for {arch}, and a template without it never can (`Templates.ForgottenCollides`); for delimited templates asking for all three would be exact (`Templates.DelimitedExactly`).
- Recovery of a cross-root transaction is documented as deciding by whether any participant committed (internal/install/execute.go:805-822). It can ask only the participants within reach; `CrossRootSafety.TornExactly` gives the exact case in which that tears the transaction, `CrossWitness.TwoRootsTear` a run.
- A pending participant of a torn transaction is documented as one whose payload only has to be loaded and replayed (internal/install/execute.go:882-888). The unique index can refuse it for good (`CrossRootSafety.RecoveryCanFinish`, `CrossRootSafety.RefusedStaysPending`, `CrossWitness.TwoRootsBlock`): the plan-time check skips owners that are part of the transaction.
- Recovery is documented as rolling back what the journal holds (internal/install/execute.go:703-705). Where an upgrade put a file in the place of a directory it cannot even read the journal back if a journalled path lies beneath that directory, and only then (`KindChange.ReplacedDirectoryExactly`, `KindChange.AcceptedAndStuck`). Where a package lists a directory at or beneath something that is none, the rollback restores every file and still never closes (`DirectoryEntries.RecoveryCloses`, `DirectoryWitness.FileWhereDirectory`): removing a recorded directory that is a file is an error each time.
- The directories recorded for a rollback are documented as the missing ones (internal/install/stage.go:782-785). The code passes over a directory only if it holds something of its own name, so directories that are there, and files, are recorded too (internal/install/stage.go:798-805).
- The JSON guard speaks of a document; its structural walk accepts any number of values in a row, as `JsonGuard.StructureIsExact` says.
- A backup of an unowned original is documented as kept past the commit (internal/install/files.go:213-215). The journal does not say which those are, so a commit by recovery discards them: the disk is that of a live commit if and only if the plan displaced nothing unowned (`FinalTrees.RollForwardKeepsExactly`, `KeptWitness.OverwriteIsLost`).
- A repoint is documented as one that nobody can observe with the path absent (internal/install/files.go:37-41). That holds on the way forward (`LinkPaths.NeverAbsent`); undoing one removes the new link before it renames the old one back, and in between the path is empty (`LinkPaths.AbsentWhileUndone`).

## Model

| member | source | states |
|---|---|---|
| TempNames.TempPathIsSibling | internal/install/files.go:88-95 | a temporary name lies in the directory of its final path, keeps as much of the base name as fits, and never exceeds 255 bytes |
| TempNames.TempPathCollision | internal/install/files.go:88-95 | two final paths get one temporary name if and only if they share a directory and the leading bytes that survive truncation: the exact side condition on names |
| TempNames.LongNamesCollide | internal/install/files.go:88-95 | a concrete pair of distinct paths that truncation gives one backup name |
| TempNames.StagedIsNotBackup | internal/install/files.go:88-95 | the staged and backup names of one transaction never meet, whatever they are temporary names of |
| TempNames.TempPathCarries | internal/install/files.go:88-95 | a temporary name always ends in its marker and transaction id, truncated or not |
| TempNames.CarriesOneId | internal/install/files.go:88-95 | a path carries at most one transaction id, so leftovers of one transaction never stand in the way of another |
| Disks.Disk.Rename | internal/install/files.go:120-145 | a rename moves the entry or, for whatever reason of the system, fails and changes nothing |
| Disks.Disk.Exchange | internal/install/files.go:146-151 | an exchange swaps two entries at once or changes nothing |
| Disks.Disk.RemoveIfExists | internal/install/files.go:233-239 | removal of a name, present or not, or a failure that changes nothing |
| Disks.Disk.Stage | internal/install/stage.go:635-650 | staging refuses an existing name; a failure part way may leave a partial file at the staged name and nothing else |
| Disks.Disk.CommitOp | internal/install/files.go:110-156 | success is the whole effect of the operation; failure leaves the tree as it was or exactly between its two renames |
| Disks.Disk.CommitOps | internal/install/files.go:101-108 | success is every operation in order; failure stops at one operation, before it or between its renames |
| Disks.Disk.RollbackOp | internal/install/files.go:172-205 | success is the undo of the operation; however it ends, an undoable transaction stays undoable |
| Disks.Disk.RollbackOps | internal/install/files.go:162-170 | all operations are attempted in reverse; success restores the exact prior tree, failure leaves it restorable |
| Disks.Disk.DiscardBackups | internal/install/files.go:216-231 | only discardable backups disappear; without warnings all of them do |
| Undo.UndoOneOp | internal/install/files.go:172-205 | undoing one operation restores every one of its own names and touches no other |
| Undo.UndoRestores | internal/install/files.go:162-205 | undoing a separated list from any tree it can have left gives the prior tree exactly |
| Undo.StagingIsUndoable | internal/install/stage.go:404-474 | whatever staging has written, whole or partial, can be undone |
| Undo.ApplyKeeps | internal/install/files.go:110-156 | one applied operation leaves the transaction undoable and the later ones untouched |
| Undo.HalfwayKeeps | internal/install/files.go:127-138 | so does the point between the two renames of a replace |
| Undo.PrefixKeeps | internal/install/files.go:101-108 | every prefix of the flip, over any staged content, is undoable |
| Undo.SameUndo | internal/install/journal.go:144-171 | an operation read back from its journal row undoes identically, a swap journalled as a replace included |
| Undo.JournalUndoes | internal/install/journal.go:83-102 | rolling back the operations rebuilt from the journal equals rolling back those in memory, when directories have vanished meanwhile too |
| Undo.CrashPointUndoable | internal/install/files.go:101-156 | every stop between staging and the last rename, except inside a swap, is undoable |
| Lookups.LookupIsExact | internal/safepath/safepath.go:140-158 | walking to a parent directory is refused exactly when a file or symlink stands on the way, and finds it exactly when it is a directory |
| Undo.RebuildIsExact | internal/install/journal.go:81-102 | the operations of a journal can be rebuilt if and only if no journalled path leads through something that is not a directory |
| Undo.CanRebuild | internal/install/journal.go:81-102 | they always can from a tree the transaction can have left, when no operation uses a name another path leads through |
| Undo.UndoFromAnyCrashPoint | internal/install/execute.go:733-771 | from any such stop the journal can be rebuilt and undoing it restores the exact prior entry at every name |
| Undo.RollbackStepKeeps | internal/install/files.go:172-205 | every single effect of a rollback leaves the transaction undoable |
| Undo.InterruptedRollbacks | internal/install/execute.go:683-694 | however often and wherever rollbacks were cut short, one that finishes restores the prior tree |
| Undo.MidSwapUndo | internal/install/files.go:146-151 | the exception, exactly: after the exchange of a swap the undo restores everything except the swapped path, which keeps the new entry; so the prior tree comes back if and only if old and new entry are equal |
| Undo.MidSwapRecovery | internal/install/execute.go:733-771 | recovery from the rows alone ends at the same tree |
| Flip.FlipIsExact | internal/install/files.go:101-156 | a separated, planned, fully staged list always applies, and after each prefix every name holds what its operation promises |
| Flip.FlipResult | internal/install/files.go:101-156 | the whole flip: new entries in place, originals at their backup names, nothing staged left, all else untouched |
| Sorting.ListingUnique | internal/claims/claims.go:232-239 | a set of keys has one ascending listing: sorting hides the order a map was ranged over in |
| Sorting.SortedKeys | internal/claims/claims.go:241-248 | the ascending listing of a set of keys, whatever order they arrive in |
| Sorting.LessExactly | internal/claims/claims.go:232-248 | the order is that of bytes: the first difference decides, and a proper prefix comes first |
| Claims.SlotPaths | internal/claims/claims.go:129-137 | the paths of a slot are the default of its holder and every path an installed consumer asks for |
| Claims.AddSlot | internal/claims/claims.go:138-147 | the links of a slot are added unless one of its paths carries a different link already |
| Claims.AddRole | internal/claims/claims.go:108-154 | a role contributes its filled slots, or is refused for a conflict or for more than 256 paths |
| Claims.Desired | internal/claims/claims.go:100-156 | success if and only if no path gets two different links and no role exceeds 256 paths; then exactly the wanted links, ascending by path |
| Claims.WantedExactly | internal/claims/claims.go:100-222 | read off the manifests: a link is wanted if and only if its role is held, the first entry of its holder for the role gives the slot that target, and the path is of that entry or some dependency of an installed package, optional ones included, asks for it |
| Claims.EligibleExactly | internal/claims/claims.go:52-68 | where a role is provided once, a package may hold it if and only if it gives one of the slots a target |
| Claims.DesiredUnique | internal/claims/claims.go:100-156 | the result is determined: no iteration order can change it |
| Claims.OrderIrrelevant | internal/claims/claims.go:100-116 | permuting the installed list changes no wanted link |
| Claims.IndexByPath | internal/claims/claims.go:224-230 | indexing by path loses no link when paths are distinct |
| Claims.Reconcile | internal/claims/claims.go:174-193 | the plan creates, repoints and removes exactly the differences between recorded and desired links |
| Claims.PlanCarries | internal/claims/claims.go:174-193 | carrying the plan out on the recorded links gives the desired ones |
| RelativeLinks.RelResolves | internal/claims/claims.go:35-54 | a relative path between two directories leads from the one to the other under any mount prefix |
| RelativeLinks.RenderParses | internal/claims/claims.go:35-54 | writing the relative path out and reading it back gives its components |
| RelativeLinks.BodyResolves | internal/claims/claims.go:35-43 | the body written for a link is relative, and read from the directory of the link, wherever the root is mounted, it leads to the target |
| Tables.DeletePackageValid | internal/db/package.go:71-77 | deleting a package with its cascades keeps every foreign key and unique index |
| Tables.InsertPackageFilesValid | internal/db/package.go:82-103 | file rows that are accepted keep the keys; the table gains exactly those rows |
| Tables.DeleteClaimHolderValid | internal/db/claim.go:27-33 | deleting a holder takes its links with it and breaks no key |
| Metadata.BuildCommitPayload | internal/install/payload.go:49-64 | the payload records version, claim work and every package operation in order |
| Metadata.RollForwardRefinesCommit | internal/install/payload.go:90-133 | replaying the stored payload equals the live commit on every database, failures included |
| Metadata.Store.ApplyMetadataRows | internal/install/journal.go:56-79 | the loop over package rows is the package half of the commit; a refused statement is a refused commit |
| Metadata.Store.SetHolderRows | internal/install/claims.go:470-487 | holders ranged over in any order give one table: all are set or the statement is refused |
| Metadata.Store.ApplyClaimRows | internal/install/claims.go:470-487 | holders cleared, holders set, links deleted, links inserted: the claim half of the commit |
| Metadata.Store.CommitLive | internal/install/execute.go:611-634 | all rows or none: a failing statement leaves the tables as they were |
| Metadata.Store.CommitStored | internal/install/execute.go:778-793 | a stored payload of the known version commits as the live transaction would have; any other is refused without effect |
| ClaimTables.MetadataShrinksClaims | internal/db/claim.go:10-33 | package rows only ever take claim rows away, by cascade |
| ClaimTables.MetadataValid | internal/install/journal.go:56-79 | the package half of a commit breaks no key |
| ClaimTables.ClaimTablesExact | internal/install/claims.go:242-250 | after the cascades the claim half never violates a foreign key and leaves holders exactly `post` and links exactly the desired set |
| RowsAfter.RowsAfterMetadata | internal/install/journal.go:56-79 | afterwards each package of the transaction owns exactly its new payload and all others what they owned |
| RowsAfter.PackagesAfterMetadata | internal/install/journal.go:56-79 | and each package row is the one its operation brings, or as it was |
| Committable.InsertSucceeds | internal/db/package.go:82-103 | the file rows of one package go in if and only if none repeats a path, meets a row of its own or a non-directory row of another package at its path |
| Committable.MetadataSucceeds | internal/install/journal.go:56-79 | the package rows of a plan are written if and only if each operation finds its package, its paths and the paths still listed as the index demands |
| Committable.PlannedRowsCommit | internal/install/stage.go:986-1012 | for an accepted plan that keeps kinds this comes down to what a caller can see: no package to install is there, no payload repeats a path, no two bring a file to one path |
| Planning.PreparePackage | internal/install/stage.go:186-386 | refused exactly when an entry collides, cannot be reached, or would displace an unowned file, symlink or directory unauthorised; otherwise exactly the changes of payload and dropped files |
| Planning.PlanClaims | internal/install/claims.go:97-252 | refused exactly when a link path is owned after the transaction, cannot be reached, or holds something unowned; otherwise exactly the link changes |
| Planning.ResolveClaimOverRemoval | internal/install/execute.go:421-439 | a removal disappears exactly when a claim operation takes over its path |
| Planning.PlanTransaction | internal/install/execute.go:521-552 | a plan is accepted exactly when each part is, and the changes are exactly those of packages and claims |
| Acceptance.AcceptedExactly | internal/install/stage.go:986-1012 | in terms of rows and disk: a plan is accepted if and only if no file or symlink comes to a path an outside package lists, to one cut off by something that is no directory, or to a stranger without authorisation, nothing comes to a recorded link, nothing given up is cut off, and no wanted link comes to a path somebody will list |
| Acceptance.EntryPlanned | internal/install/stage.go:763-776 | an entry gets no operation if and only if it is a directory, or the same file in both versions and present; any other is created, or replaces what is there |
| Acceptance.LinkPlanned | internal/install/claims.go:160-240 | a wanted link gets none if and only if it is recorded as it is, or stands there unrecorded and unlisted; any other is created, or swapped in |
| Acceptance.DirectoriesAreShared | internal/install/stage.go:976-992 | packages that list only directories are accepted whoever else lists them |
| Acceptance.SharedDirectory | internal/install/stage.go:976-992 | a package comes to a directory an installed one lists |
| Patch.ChangeShaped | internal/install/stage.go:763-776 | every planned change uses the temporary names of this transaction and fits what is on disk |
| Patch.PlanSeparated | internal/install/execute.go:515-556 | with distinct final paths and names apart, the operations of a plan are separated and planned |
| Patch.Unobstructed | internal/install/stage.go:763-776 | nothing that is not a directory stands on the way to a path of an accepted plan |
| Patch.PlanFlips | internal/install/execute.go:572-597 | the flip of a staged plan succeeds; every change has its content in place and no other path moves |
| Upgrade.UntouchedQuiet | internal/install/stage.go:237-268 | a payload file found unchanged and present is never renamed |
| Upgrade.OtherRowQuiet | internal/install/stage.go:986-1012 | nothing owned by a package outside the plan is touched |
| Upgrade.LinkQuiet | internal/install/claims.go:186-201 | a link recorded as it is, or adopted as it stands, is not touched and is right |
| Upgrade.FlipMatchesNewRows | internal/install/stage.go:186-386 | from a disk that matches the old rows the flip leaves one that matches the new rows: every file, symlink and claim link |
| Upgrade.WithdrawnLinkIsGone | internal/install/claims.go:186-201 | a recorded link that is no longer wanted is gone from disk |
| Upgrade.WithdrawnFileIsGone | internal/install/stage.go:365-386 | so is a file the old rows managed and the new ones do not, where no path turns from file into directory |
| Holders.Merge | internal/install/claims.go:380-394 | of two packages offering a role the smaller name is kept |
| Holders.ProviderOf | internal/install/claims.go:380-394 | the in-flight provider of each role is the least name that offers it |
| Holders.OffersExactly | internal/install/claims.go:375-394 | a package of the plan offers a role if and only if it stays and declares a target for one of the slots |
| Holders.ComputeHolders | internal/install/claims.go:355-420 | forced roles go to their in-flight provider, kept roles stay, unheld ones are claimed unless suppressed; refused exactly when a forced role has no offer |
| Holders.HoldersInstalled | internal/install/claims.go:355-420 | every holder is installed once the transaction is over, so its row can be written |
| Transactions.CommitIsExact | internal/install/execute.go:611-634 | the commit succeeds if and only if the package rows can be written, and then writes exactly the planned rows, holders and desired links |
| Transactions.CommitCondition | internal/install/execute.go:611-634 | for plans that keep kinds, if and only if the payloads are apart and what is installed is new |
| Transactions.TransactionIsSound | internal/install/execute.go:444-656 | a planned transaction that is staged always flips, and if the database takes it, disk and database agree and are sound again |
| Transactions.WithdrawnIsGone | internal/install/execute.go:444-656 | after a committed transaction nothing withdrawn is left on disk |
| Transactions.LinksLead | internal/claims/claims.go:23-43 | after a committed transaction what stands at a desired path is a relative link that leads to its target |
| Transactions.ClaimRequestExactly | internal/install/claims.go:501-609 | a grant needs an installed package that can hold the role, a revocation a holder; each changes the one role |
| Transactions.RevokedIsGone | internal/install/claims.go:501-609 | after a committed revocation the role has no recorded link and its old paths are empty unless another role took them |
| KindChange.ReplacedDirectoryIsStuck | internal/install/stage.go:763-776 | a payload that puts a file where a directory is and drops a file beneath it is planned as a replace and a removal; from the moment the new entry stands there no journal of the plan can be rebuilt |
| KindChange.AcceptedAndStuck | internal/install/journal.go:81-102 | such an upgrade, accepted against a sound state: recoverable before the flip, and after the renames of the directory not |
| KindChange.ReplacedDirectoryExactly | internal/install/journal.go:81-102 | once a directory is replaced, the journal of the plan can be rebuilt if and only if none of its operations is beneath that directory |
| KindChange.MeetsExactly | internal/install/stage.go:404-421 | a path to get a file is also a directory that staging makes if and only if a payload lists it, or lists a directory beneath it |
| CreatedDirs.CleansUpExactly | internal/install/files.go:241-266 | the clean-up of recorded directories can finish if and only if none of them is, or leads through, something that is not a directory |
| CreatedDirs.Place.RemoveCreatedDirs | internal/install/files.go:241-266 | every recorded directory attempted, in reverse; without a fault of the system success exactly under that condition, and only recorded directories that were empty go |
| SingleRootSafety.StepKeeps | internal/install/execute.go:444-771 | every step (plan, record, make directories, stage, each rename, commit, discard, clean up, failure, crash, recovery) keeps the invariant |
| SingleRootSafety.AbandonChangesNothing | internal/install/execute.go:521-540 | undoing whatever a refused plan had planned so far leaves the tree as it is, one effect or all |
| SingleRootSafety.CommitDbKeeps | internal/install/execute.go:611-634 | closing the journal in the transaction that writes the rows leaves disk and database agreeing |
| SingleRootSafety.UndoEffectKeeps | internal/install/files.go:172-205 | each effect of a rollback, run from memory or from the journal, keeps the invariant |
| SingleRootSafety.ManagedIsNotTemp | internal/install/files.go:216-231 | no path the new rows manage is a temporary name, so discarding backups loses nothing |
| SingleRootSafety.UndoingRestores | internal/install/execute.go:683-771 | undoing a pending transaction, from memory or from the rows, gives its prior tree |
| SingleRootSafety.RunsAreSafe | internal/install/execute.go:198-226 | under any sequence of transactions, claims, failures, crashes and recoveries: with nothing pending, every owned and claimed path holds what the committed rows describe |
| SingleRootSafety.RecoveryReachesRest | internal/install/execute.go:706-771 | with one pending and the process gone, the journal can be rebuilt and undoing it restores the tree of a state at rest; it then closes if and only if the recorded directories can be cleaned up |
| Progress.EveryTransactionRuns | internal/install/execute.go:444-634 | every planned transaction whose listed directories are clear can run until any number of its operations is applied; after the last one a commit step exists if and only if the database takes it |
| Progress.StagingExactly | internal/install/stage.go:404-421 | what is planned gets past staging in some run if and only if no directory its payloads list is, or lies beneath, a file or symlink |
| DirectoryEntries.NotedExactly | internal/install/stage.go:782-805 | the directories noted for the rollback are clear if and only if the listed ones are: the way to a file to be installed never is blocked |
| DirectoryEntries.RecoveryCloses | internal/install/execute.go:733-771 | with its journal complete, a pending transaction can be rolled back and closed if and only if the directories its payloads list are clear |
| DirectoryEntries.BlockedForGood | internal/install/execute.go:733-771 | with one of them blocked it stays pending through every further failure, crash and recovery |
| DirectoryEntries.BlockedIsReached | internal/install/execute.go:521-571 | every planned transaction with one blocked has a run to that point |
| DirectoryWitness.FileWhereDirectory | internal/install/stage.go:232-235 | a package lists a directory where an unowned file stands: accepted, and a run to a pending transaction that cannot be closed |
| SwapStops.StoppedMidSwap | internal/install/files.go:146-151 | wherever a run stops inside a swap, undoing from memory and recovering from the rows give the prior tree but for the link swapped in |
| SwapStops.MidSwapAgrees | internal/install/files.go:146-151 | so the disk still matches the rows if and only if nothing managed was displaced or the two links are equal |
| SwapStops.AgreementCanBeLost | internal/install/execute.go:683-694 | every swap that changes a managed link is such a stop of some run, after which recovery leaves disk and database apart |
| LinkPaths.LinksAreSwapped | internal/install/claims.go:160-240 | whatever a plan does at the path of a wanted link is a creation where nothing is and an exchange where something is |
| LinkPaths.NeverAbsent | internal/install/files.go:37-47 | over every run, on the way forward, a path at which a link stands and is to stand holds the old entry or the new one at every moment |
| LinkPaths.AbsentWhileUndone | internal/install/files.go:185-199 | the undo is not so: every planned exchange has a run, failing after it, to a state of the rollback in which the path is empty |
| ClaimWitness.MovedClaimIsLost | internal/install/claims.go:186-201 | moving one role between two packages, stopped there: the new link stays on disk and the old holder in the database |
| Witness.NewTxnIsGood | internal/install/execute.go:444-596 | installing one file into an empty root meets every condition placed on a transaction |
| Witness.OneFileInstall | internal/install/execute.go:352-358 | a whole run of the machine, from an empty root at rest to the installed file and its rows with the journal closed |
| CrossRootSafety.VotedStands | internal/install/execute.go:558-597 | a root that has voted has every file change in place and its payload stored |
| CrossRootSafety.ReplayIsCommit | internal/install/execute.go:778-793 | replaying the payload of a complete participant does what its own commit would have done, refusal included, and a success leaves disk and rows agreeing |
| CrossRootSafety.ReplayIsRefused | internal/install/execute.go:778-793 | it is refused if and only if a row of the plan cannot be written |
| CrossRootSafety.ReplayKeeps | internal/install/execute.go:778-803 | rolling forward leaves a root that is sound and agrees, with backups known from the journal only |
| CrossRootSafety.CrossStepKeeps | internal/install/execute.go:254-348 | every step of executor, crash and recovery keeps the cross-root invariant, unless a recovery rolls back out of sight of a commit |
| CrossRootSafety.CrossRunsAreAtomic | internal/install/execute.go:254-348 | in every reachable state a committed participant means that each other one is committed, or pending with all files applied and its payload stored |
| CrossRootSafety.OutcomeIsWhole | internal/install/execute.go:599-666 | a participant closes with the whole effect or none: the rows of its own commit over a disk that matches them, or its prior tree and rows |
| CrossRootSafety.RecoverCrossRoot | internal/install/execute.go:823-918 | each participant within reach is settled one way or left pending by an error; without errors all are |
| CrossRootSafety.RecoveryIsTotal | internal/install/execute.go:823-918 | a recovery that reaches every participant and finishes leaves all committed, or every pending one at its prior tree and rows |
| CrossRootSafety.RecoveryCanFinish | internal/install/execute.go:823-918 | a recovery can finish if and only if the database takes the commit of every pending participant within reach, or, where it rolls back, their recorded directories can all be cleaned up |
| CrossRootSafety.RefusedStaysPending | internal/install/execute.go:881-918 | beside a committed sibling a pending participant the database refuses never changes again, whatever follows |
| CrossRootSafety.TornExactly | internal/install/execute.go:823-918 | with some roots out of reach, a finished recovery tears the transaction if and only if it reaches a pending participant and a commit exists but only out of its reach |
| CrossProgress.CommittedOnce | internal/install/execute.go:254-348 | any participants at rest with planned transactions whose listed directories are clear have a run that ends with the first committed and all others complete and pending |
| CrossProgress.RefusedCommitBlocks | internal/install/execute.go:881-918 | if the database refuses another one, no recovery that reaches both ever finishes |
| CrossProgress.UnreachableCommitTears | internal/install/execute.go:823-918 | a recovery that reaches another one but not the committed one tears the transaction |
| CrossProgress.ParticipantMidSwap | internal/install/execute.go:823-918 | a participant stopped inside a swap, when rolled back by recovery, ends at its prior tree but for the link swapped in, and matches its rows if and only if nothing managed was displaced or the two links are equal |
| CrossWitness.AcceptedAndRefused | internal/install/stage.go:986-1012 | an accepted plan the database refuses: an upgrade ships the file it owns, and a package installed with it ships another one there |
| CrossWitness.TwoRootsTear | internal/install/execute.go:823-918 | a run of two roots that tears |
| CrossWitness.TwoRootsBlock | internal/install/execute.go:881-918 | a run of two roots in which that plan stays pending beside a committed sibling for good |
| KeptBackups.JournalDiscards | internal/install/journal.go:81-102 | operations read back from the journal discard what the operations in memory discard and the kept backups |
| KeptBackups.DiscardsAgreeExactly | internal/install/journal.go:19-50 | the two discard the same names if and only if no backup was to be kept |
| KeptBackups.KeptExactly | internal/install/stage.go:691-733 | an accepted plan keeps a backup exactly where it displaces something unowned, and then overwriting was authorised |
| FinalTrees.LeftOnce | internal/install/execute.go:444-656 | the prior disk and the changes determine what a finished transaction leaves |
| FinalTrees.CommitLeaves | internal/install/files.go:207-231 | committed and its backups discarded: every change in place, the originals to be kept at their backup names, every other backup gone, nothing else touched |
| FinalTrees.TransactionCompletes | internal/install/execute.go:444-656 | a planned transaction whose listed directories are clear and whose rows the database takes has a run to rest that leaves exactly that |
| FinalTrees.RecoveryLeaves | internal/install/execute.go:778-803 | completed by recovery, a participant has nothing left at the backup name of any of its operations, and every other path as before recovery |
| FinalTrees.RollForwardLoses | internal/install/execute.go:778-803 | its disk is what its own commit would have left less exactly the kept backups, each of which would have been there with the original in it |
| FinalTrees.RollForwardKeepsExactly | internal/install/execute.go:778-803 | so the two are one disk if and only if its plan displaced nothing unowned |
| FinalTrees.RecoveredDisks | internal/install/execute.go:823-918 | a recovery that reaches every participant and finishes leaves each pending one with its plan and no backup if one was committed, and its prior disk if none was |
| KeptWitness.OverwriteIsLost | internal/install/execute.go:778-803 | a run of two roots: an authorised overwrite, completed by recovery, loses the file a live commit keeps aside |
| Versions.CompareIsTotalPreorder | internal/version/compare.go:101-213 | version comparison is a total preorder: reflexive, antisymmetric in sign, transitive through strict and weak steps |
| Versions.SegmentsOrder | internal/version/compare.go:126-201 | so is the comparison of segment lists with its rule for pre-release tails |
| Versions.ParsedText | internal/version/version.go:75-125 | a version keeps its text, and only the characters of the grammar parse |
| Versions.TieIsExact | internal/version/compare.go:101-213 | two versions compare equal if and only if epoch and revision have one value and the segments are the same up to leading zeros and aliases |
| Versions.AliasesTie | internal/version/compare.go:76-97 | for any two spellings of a pre-release token there are two version strings that parse, differ and compare equal |
| Ordering.NumericByValue | internal/version/compare.go:203-213 | numbers compare by the value of their digits, whatever their length and leading zeros |
| Ordering.StageIsRank | internal/version/compare.go:76-97 | the rank of a word is its place in dev, alpha, beta, pre, rc, in capitals or not, and any other word comes last |
| Ordering.SegmentsByKeys | internal/version/compare.go:120-201 | upstream versions compare as lists of keys closed by an end mark, above every tail and below everything else: the first difference decides |
| Ordering.CompareIsOlder | internal/version/compare.go:99-122 | the lesser of two versions is the one with the lesser epoch, then the older upstream version, then the lesser revision |
| VersionTexts.ParseIsExact | internal/version/version.go:75-178 | exactly the texts of the grammar parse, epoch and upstream version and revision |
| Ordering.CanonicalIsDecimal | internal/version/version.go:129-148 | a number is accepted in just the form it is rendered in |
| VersionTexts.EpochDecides | internal/version/compare.go:114-122 | a lesser epoch is older, whatever follows |
| VersionTexts.NumberDecides | internal/version/compare.go:120-213 | where two versions first differ in a number the lesser one is older, whatever follows: 1.9 before 1.10 |
| VersionTexts.LongerIsNewer | internal/version/compare.go:126-161 | a further number after a dot, plus or hyphen makes a version newer: of the separators only a tilde opens a tail |
| VersionTexts.RevisionDecides | internal/version/compare.go:99-106 | with the rest the same the revision decides, by value |
| VersionTexts.TildeIsOlder | internal/version/compare.go:22-73 | a version followed by a tilde and anything more is older than the version itself |
| VersionTexts.TokenIsOlder | internal/version/compare.go:22-73 | so is one followed by a pre-release token |
| VersionTexts.OlderIsNotAdvertised | internal/repopub/publish.go:327-358 | no entry is advertised when the archive holds a newer version of its name |
| VersionTexts.ArchiveIsOrdered | internal/repodata/encode.go:315-335 | the archive lists names in byte order, of one name the newer versions first, of one version the architectures in order |
| Ties.TiedApart | internal/repopub/publish.go:335-345 | two entries of one name share an architecture only when their versions are spelled apart |
| Ties.TieIsRefused | internal/repopub/publish.go:327-358 | whatever ties with the greatest archived version of its name cannot be published, for any architecture |
| Ties.SecondSpellingIsRefused | internal/repopub/publish.go:327-358 | one name, one architecture, two spellings: no identity repeats, and the publish is refused |
| Publisher.DeriveActive | internal/repopub/publish.go:327-358 | fails if and only if an entry ties with the best of its name before it; otherwise the one greatest entry of each name, by name |
| Publisher.Publish | internal/repopub/publish.go:66-264 | refused exactly for a bad template, no package, an exhausted counter, a repeated identity or a tie; otherwise both indexes at one version past both old ones |
| Publisher.NextVersionIsLeast | internal/repopub/publish.go:104-115 | the next version is the least above both old ones |
| Publisher.Host.Commit | internal/repopub/state.go:463-495 | some prefix of the writes, in order, has taken effect; all of them on success |
| PublishedUrls.IdentityInjective | internal/repopub/publish.go:269-271 | the rendered identity determines name, version and architecture |
| PublishedUrls.ExpandDefault | internal/repopub/state.go:333-341 | what the conventional template expands to |
| PublishedUrls.DefaultInjective | internal/repopub/state.go:333-341 | under the conventional template two entries share a file if and only if they share an identity |
| PublishedUrls.AcceptedTemplateCollides | internal/repopub/state.go:353-369 | an accepted template that gives two packages one URL |
| Templates.MentionsExactly | internal/repopub/state.go:333-369 | the check finds a placeholder exactly when the expansion substitutes it |
| Templates.ForgottenCollides | internal/repopub/state.go:343-369 | every template without {arch} and {filename} gives any two architectures one URL, and likewise for names and versions |
| Templates.DelimitedExactly | internal/repopub/state.go:333-369 | among templates whose placeholders are followed by text foreign to them, exactly those that mention all three tell any two valid identities apart |
| Templates.FilenameLast | internal/repopub/state.go:333-341 | a template that ends in {filename} after plain text tells them apart |
| Templates.RunTogetherCollides | internal/repopub/state.go:353-369 | run together, all three are not enough: an accepted template on which two valid identities share a URL |
| PublisherSafety.SortArchiveSorts | internal/repodata/encode.go:319-335 | the archive order is realised: sorted, and a permutation of what came in |
| PublisherSafety.SortedTie | internal/repopub/publish.go:327-358 | on a sorted archive derivation fails exactly when the greatest version of some name is not unique |
| PublisherSafety.DerivationDependsOnOrder | internal/repopub/publish.go:327-358 | the same entries in two orders: one derivation fails, the other succeeds |
| PublisherSafety.UnrepeatedAppend | internal/repopub/publish.go:139-199 | appending entries that repeat nothing keeps every identity unique, through sorting |
| PublisherSafety.PlacesOnly | internal/repopub/publish.go:219-227 | placing package files changes no file an archived entry advertises |
| PublisherSafety.AttemptKeeps | internal/repopub/state.go:463-495 | after any prefix of the writes the site is consistent, nothing archived is lost and no version goes back; after all of them it is settled |
| PublisherSafety.HistoryKeeps | internal/repopub/publish.go:104-115 | over every history, torn publishes included: entries are kept unchanged and unique, the active index lists archived entries, every advertised file has its advertised bytes |
| PublisherSafety.WholePublishHeals | internal/repopub/publish.go:104-115 | a whole publish settles whatever was torn, at a version above every earlier one |
| PublisherSafety.PublishedIsServed | internal/repopub/publish.go:139-264 | a whole publish adds one entry for each package, with its own fields and conventional URL, and serves its bytes there |
| PublisherSafety.RetryIsRefused | internal/repopub/publish.go:171-176 | after a tear between the indexes the same packages are refused: only another publish heals |
| PublisherSafety.InitIsSettled | internal/repopub/state.go:200-262 | a fresh repository is settled at version 1 |
| PublisherSafety.FreshnessExactly | internal/repository/freshness.go:31-44 | behind the floor in version or time is a rollback, the floor itself a freeze, anything else progress |
| PublisherSafety.LaterIsAccepted | internal/repository/freshness.go:31-44 | a consumer floored at an earlier settled state accepts both later indexes as progress, one floored later rejects both earlier ones |
| PublisherSafety.AgreementIsAcceptance | internal/repopub/verify.go:150-163 | at any moment a consumer holding the archive index can take the active one if and only if the two agree |
| PublicationAudit.VerifyActiveDerivation | internal/repopub/verify.go:168-215 | no problem is reported exactly when identities are archived, the archive derives, and each name is advertised at a greatest version |
| PublicationAudit.AuditIsExact | internal/repopub/verify.go:150-215 | on what can be on disk both audits pass if and only if the repository is settled |
| PublicationAudit.HistoryOrders | internal/repopub/publish.go:104-115 | at every moment of a history that starts settled the archive index is sorted and the active one lists its names in order |
| PublicationAudit.AuditsTellSettled | internal/repopub/verify.go:150-215 | so at every such moment, torn or not, both audits pass if and only if the repository is settled |
| JsonGuard.CheckStructure | internal/jsonguard/jsonguard.go:87-164 | the loop accepts exactly what the stack machine accepts with an empty stack at the end |
| JsonGuard.WalkValue | internal/jsonguard/jsonguard.go:87-164 | where a value is expected its tokens pass exactly when it nests and names as allowed |
| JsonGuard.StructureIsExact | internal/jsonguard/jsonguard.go:87-164 | the token stream of values passes if and only if there is one and each nests at most 64 deep with no repeated member anywhere |
| JsonGuard.TruncatedIsRefused | internal/jsonguard/jsonguard.go:153-163 | no proper prefix of the tokens of a value passes |
| JsonGuard.SixtyFourDeep | internal/jsonguard/jsonguard.go:18-31 | arrays nested 64 deep pass and 65 deep do not |
| JsonEscapes.ReadHex4 | internal/jsonguard/jsonguard.go:218-238 | four hex digits in range read as their value, anything else as a refusal |
| JsonEscapes.CheckEscapes | internal/jsonguard/jsonguard.go:172-215 | the scan, every index in range |
| JsonEscapes.EscapesAreExact | internal/jsonguard/jsonguard.go:172-215 | a text passes if and only if its strings are made of proper units with every surrogate paired (RFC 8259, section 7) |
| JsonEscapes.DigitsAreExact | internal/jsonguard/jsonguard.go:218-238 | a digit counts by its place in 0 to 9 and a to f, in capitals or not |
| JsonEscapes.SurrogatesAreExact | internal/jsonguard/jsonguard.go:240-241 | the surrogates are exactly the halves UTF-16 splits code points into, and a pair stands for one |
| PayloadTree.DottedPrefix | internal/audit/msgpack.go:28-55 | one path continues another exactly when it starts with it and a dot |
| PayloadTree.InsertSome | internal/audit/msgpack.go:30-53 | a field goes in if and only if no segment is empty and it stands clear of the others |
| PayloadTree.InsertHas | internal/audit/msgpack.go:30-53 | then the tree holds it beside exactly what it held |
| PayloadTree.TreeIsUnique | internal/audit/msgpack.go:28-55 | a tree is determined by the fields it holds |
| PayloadTree.BuildTree | internal/audit/msgpack.go:28-55 | in any map order: success exactly when no path has an empty segment or is a dotted prefix of another, and then the tree of the fields |
| Msgpack.AppendNode | internal/audit/msgpack.go:59-80 | success exactly when every value has a form; then the canonical bytes, appended |
| Msgpack.EncodePayload | internal/audit/msgpack.go:28-95 | success exactly for well-formed paths and supported types; the bytes depend on the fields alone |
| Msgpack.DecodeEncodes | internal/audit/msgpack.go:59-159 | a decoder of the MessagePack formats reads the bytes back as the same nested maps with nothing left over, for lengths below 2^32 |
| Msgpack.EqualBytesEqualFields | internal/audit/msgpack.go:28-159 | two payloads with equal bytes carry equal fields |
| Msgpack.EncodeIsShortest | internal/audit/msgpack.go:59-152 | no bytes that decode to the same payload are shorter |
| Msgpack.BigEndianBytes | internal/audit/msgpack.go:98-152 | the most significant byte comes first |
| Msgpack.LengthsWrap | internal/audit/msgpack.go:98-134 | from 2^32 on a length wraps: different lengths share a header |
| ElfVersions.CheckString | pack/elfversiontable.go:45-47 | a non-empty string with its terminator inside the table |
| ElfVersions.CheckHeader | pack/elfversiontable.go:53-76 | the header checks, every read in range, no 64-bit sum wrapping |
| ElfVersions.CheckAuxiliary | pack/elfversiontable.go:77-97 | the checks of one auxiliary and where the next one stands, without wrapping |
| ElfVersions.CheckTable | pack/elfversiontable.go:48-102 | accepts exactly the tables whose declared headers and auxiliaries all check |
| ElfVersions.ValidateElfVersionTable | pack/elfversiontable.go:11-103 | no metadata without a section, or one pointer and one count that agree with it and a table that checks |
| ElfVersions.PiecesAreDisjoint | pack/elfversiontable.go:49-102 | in an accepted table every header and auxiliary lies inside the section and no two overlap |
| ElfVersions.WorkIsLinear | pack/elfversiontable.go:49-102 | so the bytes of all that is visited add up to no more than the section |
| ElfVersions.ValueOfWord | pack/elfversiontable.go:56-67 | a four-byte word reads as its value in either byte order |
| ElfVersions.NeedFields | pack/elfversiontable.go:12-18 | a needed version laid out as the Linux Standard Base defines it reads back field by field, in either byte order |
| ElfVersions.NeedAuxFields | pack/elfversiontable.go:12-18 | so does its auxiliary |
| ElfVersions.DefFields | pack/elfversiontable.go:12-22 | and a version definition |
| ElfVersions.DefAuxFields | pack/elfversiontable.go:12-22 | and its auxiliary |
| ParallelMap.MoveKeeps | internal/compose/parallel.go:15-64 | every step of every worker keeps the invariant |
| ParallelMap.NoIndexTwice | internal/compose/parallel.go:15-64 | under every interleaving no index is begun twice |
| ParallelMap.SuccessIsComplete | internal/compose/parallel.go:15-64 | a run that ends without error has called every index, and every slot holds the value of its own call |
| ParallelMap.FailureIsLowest | internal/compose/parallel.go:15-64 | an error is reported if and only if a call failed, and it is that of the lowest index among the calls that ran and failed |
| ParallelMap.LowerIndexCanBeSkipped | internal/compose/parallel.go:15-64 | a schedule that reports index 1 although index 0 was never begun |
| ParallelFailures.ReportedFailure | internal/compose/parallel.go:15-64 | each failure below the one reported was left untried by a worker of its own |
| ParallelFailures.ReportedExactly | internal/compose/parallel.go:15-64 | a failing index is reported by some run if and only if fewer lower ones would fail than there are workers |
| ParallelFailures.SameFailureExactly | internal/compose/parallel.go:15-64 | all runs over the same outcomes report the same failure if and only if there is at most one worker or at most one failing index |
| ParallelMap.EveryStepProgresses | internal/compose/parallel.go:15-64 | each step lowers a measure: every schedule ends |
| ParallelMap.NeverStuck | internal/compose/parallel.go:15-64 | a worker that has not exited always has a step to take |
| Reclaim.CollectDirs | internal/install/reclaim.go:35-53 | each released path once, deepest first |
| Reclaim.Tree.ReclaimDirectories | internal/install/reclaim.go:32-95 | no owned or populated directory goes; without warnings, no released, unowned, empty directory is left after one pass |
| Reclaim.StaysDone | internal/install/reclaim.go:44-53 | removing a directory that is no deeper never empties one already passed |
| Reclaim.ReclaimIsDetermined | internal/install/reclaim.go:32-95 | there is only one such end, whatever the order |
| Reclaim.ReclaimedExactly | internal/install/reclaim.go:32-95 | read off the paths: only released, unowned, empty directories other than the root are gone, and of those none is left |
| Archives.DecodeFiles | internal/archive/files.go:73-104 | accepted exactly when sorted by path without duplicates, sizes not negative, hashes well formed; then an index of exactly those entries |
| Archives.Walk | internal/archive/archive.go:215-418 | accepts exactly the conforming archives, and returns their payload and the bytes before the header block of their signature |
| Archives.PayloadIsExact | internal/archive/archive.go:365-418 | the payload is every entry outside the metadata, by the path a directory has without its slash, files with length and digest |
| Archives.HashIsExact | internal/archive/files.go:107-121 | a digest is well formed if and only if it is the hexadecimal form of 32 bytes |
| Archives.CheckSDOverrideTargets | internal/archive/archive.go:431-454 | accepts exactly when the last payload entry at each path is a file or directory |
| Archives.OverridableExactly | internal/archive/archive.go:431-454 | a path can be overridden if and only if its last entry is there and no symlink |
| Archives.OverridesHaveTargets | internal/archive/archive.go:420-454 | every descriptor override of an accepted package is on one of its files or directories |
| Archives.CheckInstalledSize | internal/archive/archive.go:552-563 | the sum as the source computes it, in 64 bits |
| Archives.FilesAreExact | internal/archive/archive.go:401-410 | inclusion one way and equal counts make the listed files and the regular payload files the same entries, with their lengths and digests |
| Archives.InstalledSizeIsTrue | internal/archive/archive.go:552-563 | the declared size is the true sum of the file lengths: the other checks leave no room to wrap |
| Archives.SignedRangeIsExact | internal/archive/archive.go:323-358 | the signed length is 512 times the index of the one header block of the signature in the archive laid out in blocks; all before it is of other entries, all after it is its content |
| Archives.SignedRangeIsUnique | internal/archive/archive.go:323-358 | there is one such length |
| Archives.LayoutLength | internal/archive/archive.go:570-581 | the offset of an entry is 512 times the blocks of the entries before it: extended header and body, header, content in whole blocks |
| Archives.DecompressionIsBounded | internal/archive/archive.go:225-235 | an accepted archive has no more bytes than the true size of its files and 320 MiB, nor more than 4 GiB |

## Left out

- SingleRoot.Fail: a live error of the second rename of a swap, after which the rollback closes the journal over the wrong link, is no step of a run; nor is SingleRoot.Crash there. `SwapStops.MidSwapAgrees` says exactly what such a stop leaves, `SwapStops.AgreementCanBeLost` and `ClaimWitness.MovedClaimIsLost` that it happens.
- CrossRoot.CrashAll: excludes, for the same reason, every moment at which a participant is inside a swap. `CrossProgress.ParticipantMidSwap` says what rolling such a participant back leaves.
- SingleRoot.Begin: no path to be installed carries the temporary name of a transaction still to come.
- Patch.IsPlan: runs are about plans whose operations keep off directories, off names that other paths lead through, and off the directories their payloads list (`KindsApart`); the tree itself holds files and symlinks, so a directory renamed as a whole is not a step. `KindChange.ReplacedDirectoryIsStuck` and `KindChange.ReplacedDirectoryExactly` say what the code does with a replaced directory, `KindChange.MeetsExactly` which plans bring a file to a directory they list.
- Patch.PlanSeparated: that the temporary names of one transaction are apart is a condition (`NamesApart`), because truncation can break it; `TempNames.TempPathCollision` gives the exact condition.
- Undo.UndoFromAnyCrashPoint: speaks of files and symlinks; the list of created directories over-approximates (internal/install/stage.go:782-805), so nothing is claimed about restoring directories exactly: which of them a run finds empty is left open, only whether their removal can fail is decided. Its condition `Reachable` leaves out operations that use a name another path leads through.
- DirectoryEntries.BlockedForGood: about disks that are trees of directories (`Lookups.Solid`) and absolute recorded paths (`CreatedDirs.Rooted`), as is `DirectoryEntries.RecoveryCloses`.
- Planning.PreparePackage: paths are logical, with the installation root as the root of the tree; signature sidecars and descriptor overrides enter only as paths that are never left untouched. The branch that keeps an operator's edited file under `/etc` and writes a `.peipkg-new` sibling, the layout rules of payloads and the check of claim targets are not modelled, nor the operator's answer about a modified file a removal would delete.
- RelativeLinks.BodyResolves: for absolute paths made of plain names, which is what manifests may hold; their validation is not part of this model. `Transactions.LinksLead` likewise.
- VersionTexts.NumberDecides: the versions agree up to the number in digits and dots; `Ordering.CompareIsOlder` is the order of all.
- Upgrade.FlipMatchesNewRows: speaks of disks that match the old rows and of plans as above.
- Upgrade.UntouchedQuiet: needs that no other entry of the plan brings a file to the path; where one does, the commit is refused (`Transactions.CommitCondition`).
- Upgrade.WithdrawnFileIsGone: assumes that no path turns from file into directory across the upgrade, because such an upgrade does not get past staging (`Progress.StagingExactly`) and its rollback does not close (`DirectoryEntries.BlockedForGood`).
- Transactions.CommitCondition: the short condition is for plans that keep kinds; `Committable.MetadataSucceeds` is the condition for all.
- Publisher.Publish: starts from decoded packages; verifying what is taken in, keys, qualification and the rebuild and replace options are absent.
- Publisher.Host.Commit: an index and its detached signature are one write here and two renames in the source, so a tear between them is not a state.
- PublisherSafety.HistoryKeeps: is about publishing with the conventional template and non-decreasing stamps, without the rebuild and replace options; both break retention on purpose, and other accepted templates can collide.
- Templates.DelimitedExactly: a template with a placeholder followed by another one, or by a character the value may hold, is not decided: some of those distinguish, `Templates.RunTogetherCollides` does not.
- Msgpack.DecodeEncodes: needs every length below 2^32, because a longer one wraps (`Msgpack.LengthsWrap`).
- Metadata.RollForwardRefinesCommit: the payload is a value; its JSON rendering is not modelled.
- PayloadTree.BuildTree: the tree of maps is a value rebuilt on the way down, not nodes updated in place, so sharing of nodes is not expressed.
- CrossRootSafety.RecoverCrossRoot: works on a sequence of participants as values; the locks appear as the rule that nothing else moves while the executor lives.
- ParallelMap.SuccessIsComplete: goroutine start and the wait group appear only as workers that are there from the start and have all left their loop.
- Archives.Walk: the decoders of manifest, envelope and tar headers are parameters; reads are counted per entry.
- Reclaim.CollectDirs: paths are clean, without a trailing slash.
- Versions.AliasesTie: complete versions only; the relaxed form of constraints, which may leave out the revision, is not modelled.
- Fetching, zstd, tar parsing, Ed25519, SHA-256, extended attributes and SQLite itself: digests stand for contents, database statements are functions on tables.
- Process locks, progress reports, warnings, side-effect commands, disk-space checks and the pinning of directories against replaced path components.
- The resolver: a plan is taken as given.
- Key files, release qualification and the encoding of index entries.
- Pruning of old transaction rows, and recovery of journals written by a newer version.
