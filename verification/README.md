# Agent Workspace Guard: a verified model

The broker lets an agent work on a disposable copy of a workspace, plans the exact difference, judges it
by policy, and commits it by a journalled sequence of renames that keeps everything replaced in a
quarantine. This project models that protocol in Dafny and proves what it promises. Check it with
`dafny verify dfyconfig.toml`.

## What is modelled

Paths are sequences of names, a tree maps the path of every entry below a root to its node, and
`os.rename` moves a whole subtree between roots (`Paths`, `Trees`). Hashes and signatures are ideal:
a digest is the term that was hashed, a signature names its key and what was signed.

- `Manifests`, `ScanFacts`, `Diffs`, `Sums`: scanning with its limits, verification of stored manifests, the diff
  and its collapse to operation roots, against the tree they describe.
- `Symlinks`, `Policy`, `PolicyLaws`, `PolicyReasons`: the result policy as the accumulating loop it is, its laws,
  and what it decides, told from the changes alone.
- `Scans`: trees as their digests show them, and a scan as one call.
- `Layout`, `Journal`, `Staging`, `Completed`, `Undo`, `UndoExact`, `UndoCalls`, `UndoOutcome`, `UndoTurns`,
  `RestoreSetting`, `Reserved`: the trees during a commit and its undo, determined at every moment by where the old
  and the new subtree of each root is.
- `Engine`: commit under the lock, its rollback, and restore, over a mutable disk and journal. Any call into
  the system may fail (`faults` says which), and the agent may replace the worktree between any two calls
  (`agent` is the worktree as each call finds it). A save may raise before or after the file is in place.
- `Baseline`, `Protocol`, `Runs`, `Broker`, `Checks`, `CutOffs`: the API calls as steps on the saved transactions,
  plans, tokens and records; what every run of them keeps; the class whose methods are those calls; what each checks
  and leaves, field by field; and two commits that leave the records at odds.
- `LockHistory`: many brokers interleaving lock, checks and single renames on one workspace.
- `Audit`, `Texts`: the hash-chained log over a file whose writes may be torn.

An undo can go wrong in several ways, and each has its exact condition.

- "Names clash" (`Undo.Clash`) is a condition on the operation paths alone: setting a payload aside under the
  reserved name would meet a backup or a directory made for one. It cannot happen when no operation path
  starts with the reserved name. "Something is in the way" (`Undo.Blocks`) is the same for what had been moved
  when an undo begins; without a clash nothing ever is, and after a complete commit the two are one. An undo is
  clean, that is, it raises nothing, lands on nothing and gives the baseline, if and only if nothing is in its way.
- An undo may land on something and still give the baseline. It "returns" (`UndoOutcome.Returns`) when every payload
  finds a place when its turn comes (a free one, or one a rename may replace) and whatever is set aside inside a
  backup, and so goes back with it, equals what the baseline has there. It "recovers" (`UndoOutcome.Recovers`) when
  this holds of the turns that are not refused, and what a refused turn leaves in place equals the baseline.
  Both are read off the flags, the payloads and the quarantine the undo finds.
- "Apart" (`Undo.Apart`) is what keeps every subtree accounted for even if calls fail in a rollback.

## Where the code promises less than its documentation

- `_failed_new` and `_restore_current` live inside the quarantine of the commit, so some plans that touch these names
  in the workspace can be committed but not undone (`Reserved.RestoreFails`, `Reserved.RollbackFails`). Without a
  failing call, restore raises nothing and gives the baseline if and only if the undo returns, and so does the
  rollback loop from whatever point the commit had reached (`UndoOutcome.ReturnsExact`); the clean undo is exact
  on the names (`UndoExact.RestoreExact`, `UndoCalls.RollbackExact`). A clash may do no harm
  (`Reserved.RestoreOverEmpty`), and when a call fails in a rollback, a backup can be lost although no names clash
  (`Reserved.RollbackLosesBackup`).
- A call that fails after the try block of commit (`src/agent_workspace_guard/broker.py:528-534`) leaves a committed
  workspace whose plan or transaction is not marked committed, so restore refuses it while the plan is pending
  (`CutOffs.PendingNotRestored`); and when the call after the
  save of the committed record fails, and then the save of the handler, the record of an undone commit says
  committed (`CutOffs`). `Broker.CutOff` names the calls, and the saved records agree if and only if no commit was
  cut off (`Broker.WorkspaceGuard.BooksDecided`).
- The saved status says rolled_back even when the digest check that follows fails; only the exception and the
  audit event tell. That happens if and only if a payload set aside inside a backup went back with it and the
  baseline had something else in that place (`UndoOutcome.SilentRollback`; `Reserved.RollbackMissesSilently` shows it).
- begin leaves out of its copy, at every depth, the names that match an excluded name read as a pattern, while
  scans leave out the excluded names themselves, at the top only: an entry at or below such a name elsewhere makes
  begin raise.
- append does not check that the log ends with a newline: a write that lost only its newline verifies, and the
  next append breaks the log while reporting success.
- begin also raises when its copy meets a special file, which scans record without complaint.

## Model

| member | source | states |
|---|---|---|
| Paths.PartsOfText | src/agent_workspace_guard/util.py:177-190 | Splitting the posix text of a clean path gives back exactly its components: text and components are two forms of one path. |
| Paths.TextInjective | src/agent_workspace_guard/manifest.py:72-74 | Two clean paths with the same text are equal, so manifest keys name entries uniquely. |
| Paths.ValidateText | src/agent_workspace_guard/util.py:177-190 | validate_relative_path accepts the text of a clean path exactly if its first name is neither rooted nor drive-qualified, and returns that path. |
| Paths.ValidateExactly | src/agent_workspace_guard/util.py:177-190 | validate_relative_path accepts a text if and only if it is not empty, holds no NUL, does not begin with a slash, a backslash or a drive, and has no two dots between slashes. |
| Paths.SafeJoinConfined | src/agent_workspace_guard/util.py:193-198 | safe_join lands strictly below the root it is given and is injective on what it accepts. |
| Paths.SortedPathsSorted | src/agent_workspace_guard/manifest.py:198 | The sorted list of a set of paths is in text order, has no repetition and holds exactly the set. |
| Paths.SortedUnique | src/agent_workspace_guard/manifest.py:131 | There is only one such list, so anything computed from it is independent of the order of a walk. |
| Paths.OrderExactly | src/agent_workspace_guard/manifest.py:131 | Texts are ordered by the first character in which they differ, and a prefix comes first. |
| Trees.MakeParents | src/agent_workspace_guard/broker.py:489 | mkdir(parents=True, exist_ok=True): fails exactly if a non-directory is in the way; otherwise adds the missing ancestor directories and nothing else. |
| Trees.Rename | src/agent_workspace_guard/broker.py:492 | os.rename between roots as a pointwise law: the whole subtree leaves its place, appears under its new one, and nothing else changes; it needs its source and the parent directory of its target. |
| Trees.RenameExact | src/agent_workspace_guard/broker.py:492 | A rename succeeds exactly if its source exists, its target has a parent directory, and whatever is in the way is replaced as the system allows: neither is a directory, or both are and the one in the way is empty. |
| Trees.RenameKeepsTrees | src/agent_workspace_guard/broker.py:492-503 | Both sides of a rename stay prefix-closed trees. |
| Trees.CopyEntry | src/agent_workspace_guard/util.py:218-231 | copy_entry to a free place: succeeds exactly if the entry exists, no special file is at or below it and its parents can be made; then the copy equals the original below the path and everything else is unchanged. |
| Trees.CopyOnto | src/agent_workspace_guard/util.py:218-231 | copy_entry onto something that exists: links and directories are refused, a file replaces a file or lands inside a directory, and nothing else changes. |
| Manifests.DescribeInjective | src/agent_workspace_guard/manifest.py:80-116 | Two nodes with the same manifest entry are the same node. |
| Manifests.EntriesDetermineTree | src/agent_workspace_guard/manifest.py:109-116 | The flat entry map determines the tree. |
| Manifests.DigestDeterminesEntries | src/agent_workspace_guard/manifest.py:131-132 | Equal tree digests mean equal entry maps, whatever roots they were taken from. |
| Manifests.TotalFilesCounts | src/agent_workspace_guard/manifest.py:90-92 | The file total is the number of file entries. |
| Manifests.DescribedIsOk | src/agent_workspace_guard/manifest.py:86-116 | Every entry a scan writes passes the checks verify_manifest makes on it. |
| Manifests.VerifyManifest | src/agent_workspace_guard/manifest.py:142-193 | Accepts a stored manifest if and only if every entry is well formed under its own key, both totals are the sums over the entries, and the digest is that of the entries. |
| Manifests.Scanner.Record | src/agent_workspace_guard/manifest.py:72-125 | One entry is recorded and counted, or the reason for refusing it really holds of the whole tree: an early abort is never premature. |
| Manifests.Scanner.Walk | src/agent_workspace_guard/manifest.py:62-128 | After the walk of a directory exactly the visible entries below it have been added; it terminates because every child leaves less to visit. |
| Manifests.WithinScope | src/agent_workspace_guard/manifest.py:118-125 | Count and bytes of a partial record never exceed those of the whole tree. |
| Manifests.ScanTree | src/agent_workspace_guard/manifest.py:38-139 | Fails if and only if the visible tree holds an unacceptable name, an entry on another device, too many entries or too many bytes; otherwise returns the manifest of the visible tree, which verify_manifest accepts. |
| ScanFacts.ManifestShows | src/agent_workspace_guard/manifest.py:82-139 | What a scan records, told from the nodes: path, kind, mode, size (the length of the content of a file, otherwise 0), digest and link target of every entry; the number and the bytes of the files; and a digest that lists exactly the entries in text order. |
| ScanFacts.ShownIsVisible | src/agent_workspace_guard/manifest.py:62-66 | The entries a scan looks at are those whose first name is not excluded. |
| ScanFacts.RefusalMeans | src/agent_workspace_guard/manifest.py:68-125 | Why a scan may refuse, told from the tree: a first name that reads as absolute or as a drive, an entry on another device that is no link, more entries than the limit, or more bytes in the files than the limit. |
| ScanFacts.GenuineExactly | src/agent_workspace_guard/manifest.py:163-193 | What verify_manifest accepts, field by field: keys, modes, sizes, link targets and digests of each kind of entry, both totals and the digest. |
| ScanFacts.DigestDeterminesManifest | src/agent_workspace_guard/manifest.py:142-193 | An accepted manifest is determined by its digest, so whatever else is altered shows. |
| Diffs.DiffManifests | src/agent_workspace_guard/manifest.py:196-214 | The diff in text order with one change for each differing path, as the specification function Diff gives it. |
| Diffs.DiffContents | src/agent_workspace_guard/manifest.py:196-214 | A change is in the diff exactly if it is the change at its path; paths are distinct and in text order. |
| Diffs.DiffKinds | src/agent_workspace_guard/manifest.py:196-214 | The diff told from the two entry maps: every change carries the entries of its path; a path is an add, delete or type change exactly if it is only in the second, only in the first, or in both with different kinds; and, for well-formed entries, a modification exactly if it is in both with the same kind and different entries. |
| Diffs.ChangedIffDifferent | src/agent_workspace_guard/manifest.py:217-225 | For well-formed entries, a path is in the diff if and only if the two manifests differ there, although directories are compared by mode only. |
| Diffs.DiffIsExactPatch | src/agent_workspace_guard/manifest.py:196-214 | Applying the diff of two valid manifests to the first gives exactly the second. |
| Diffs.DiffEmptyIff | src/agent_workspace_guard/manifest.py:196-214 | The diff of two valid manifests is empty if and only if their entry maps are equal. |
| Diffs.OperationRoots | src/agent_workspace_guard/manifest.py:228-241 | The loop over the changes sorted by depth and text selects what the specification function Roots selects. |
| Diffs.OperationRootsOfTrees | src/agent_workspace_guard/manifest.py:228-241 | For two trees: the roots are changes, no root is at or below another, every differing path is at or below a root, and above a root both trees have the same directories. |
| Diffs.OneRoot | src/agent_workspace_guard/manifest.py:228-241 | Every path is at or below at most one root. |
| Diffs.AboveRootUnchanged | src/agent_workspace_guard/manifest.py:232-240 | Nothing above a root changes. |
| Diffs.RootsInOrder | src/agent_workspace_guard/manifest.py:232 | The roots come with shorter paths first, and those of one length in the order of their texts. |
| Layout.ParentsStay | src/agent_workspace_guard/broker.py:500 | The directories above a root are in place in every intermediate state, so the mkdir before an install makes nothing. |
| Layout.MoveBackup | src/agent_workspace_guard/broker.py:489-494 | Moving an old subtree into quarantine: source and parent are there, the place is free, and each of the three trees afterwards is as the new position says. |
| Layout.Install | src/agent_workspace_guard/broker.py:500-505 | Moving a payload into place: source and parent are there, the place is free, and the trees are as the new position says. |
| Layout.MoveAside | src/agent_workspace_guard/broker.py:571-586 | Setting an installed payload aside below the reserved name: possible, and landing on nothing, when that place is free. |
| Layout.PutBack | src/agent_workspace_guard/broker.py:588-595 | Putting a backup back: it is where its position says, the destination is free, and the trees are as the new position says. |
| Journal.BackupKeepsShape | src/agent_workspace_guard/broker.py:492-494 | The rename into quarantine with its flag set keeps flags and disk in agreement and lands on nothing. |
| Journal.InstallKeepsShape | src/agent_workspace_guard/broker.py:500-505 | The rename into place with its flag set keeps flags and disk in agreement, lands on nothing, and needs no new directory. |
| Journal.NothingLost | src/agent_workspace_guard/broker.py:474-507 | Conservation at every moment of the loop: each old entry below a root is in exactly one of workspace and quarantine, each payload entry in exactly one of apply tree and workspace, everything else is where it was. |
| Journal.InferenceIsRight | src/agent_workspace_guard/broker.py:472-507 | From the last saved record and two existence checks per operation the true flags can be inferred, and at most one operation is in flight. |
| Journal.CrashRecovers | src/agent_workspace_guard/broker.py:472-507 | From every crash point of the commit loop, undoing what record and disk show gives exactly the baseline and lands on nothing if and only if nothing moved is in the way; names that do not clash are enough. |
| Staging.StageRoot | src/agent_workspace_guard/broker.py:434-439 | One payload is copied from the worktree as it is at that moment; what was staged before stays. |
| Records.OperationsTell | src/agent_workspace_guard/broker.py:440-452 | What the record says of each root: path and kinds, and a backup path exactly if something was there before. |
| Records.PlannedTells | src/agent_workspace_guard/broker.py:440-452 | An operation as first written stands for its root, has moved nothing and is pending. |
| Staging.InitialShape | src/agent_workspace_guard/broker.py:459-472 | When the record is first saved, flags and disk agree. |
| Staging.FinishedIsTarget | src/agent_workspace_guard/broker.py:474-507 | When all operations are done on the roots of a diff and the payloads are the staged subtrees, the workspace is exactly the staged tree beside the untouched excluded entries. |
| Staging.HiddenUntouched | src/agent_workspace_guard/broker.py:474-507 | At every moment of the loop the excluded entries of the workspace are what they were. |
| Undo.UndoGivesBaseline | src/agent_workspace_guard/broker.py:572-596 | From whatever point the flags describe, the reversed loop succeeds, lands on nothing and ends at the baseline, if nothing moved is in the way of a payload to be set aside. |
| Undo.NothingLostUndoing | src/agent_workspace_guard/broker.py:879-896 | Conservation in every state of a rollback or restore, also one that broke off, of roots whose places below the reserved name are apart from every backup: each old entry in exactly one of workspace and quarantine, each payload entry in exactly one of apply tree, workspace and the place below the reserved name. |
| Undo.UnreservedApart | src/agent_workspace_guard/broker.py:571 | No operation path starting with the reserved name is enough for the places to be apart, and then no names clash either. |
| Undo.NoClashUnblocked | src/agent_workspace_guard/broker.py:571-586 | If no names clash, nothing is ever in the way, however far a commit got. |
| UndoExact.UndoExactly | src/agent_workspace_guard/broker.py:572-596 | Clean undo, from every point of the commit loop: undoing the operations the flags show succeeds, lands on nothing and gives the baseline if and only if nothing moved is in the way. |
| UndoExact.DoneUnblocked | src/agent_workspace_guard/broker.py:572-596 | After a complete commit, nothing is in the way if and only if no names clash. |
| UndoExact.RestoreExact | src/agent_workspace_guard/broker.py:572-596 | Clean restore: after a complete commit the restore loop succeeds, lands on nothing and gives the baseline if and only if no names clash. |
| UndoCalls.GuardedIsUndo | src/agent_workspace_guard/broker.py:886-893 | The rollback loop, which looks before it moves and goes on after an error, has the same clean runs with the same result as the restore loop. |
| UndoCalls.GuardsPass | src/agent_workspace_guard/broker.py:887-891 | A turn of the rollback loop passes over an operation whose payload and backup are not where they should be. |
| UndoCalls.RollbackExact | src/agent_workspace_guard/broker.py:879-896 | Clean rollback, from every point of the commit loop and without a failing call: no error, nothing landed on, and the baseline if and only if nothing moved is in the way. |
| UndoOutcome.OutcomeExact | src/agent_workspace_guard/broker.py:572-596 | Without a failing call, from every point of the commit loop and whatever the undo meets: both loops end without an error exactly if every payload finds a place when its turn comes, then with the same result; the errors of the rollback loop are exactly the other turns, in their order; what it leaves, error or not, is the baseline exactly if it recovers; and a rename landed on something exactly if the account of the quarantine says so. |
| UndoOutcome.TurnedDownAre | src/agent_workspace_guard/broker.py:894-896 | The paths recorded as errors are those of the operations whose turns are refused. |
| UndoOutcome.ReturnsExact | src/agent_workspace_guard/broker.py:572-602 | The baseline question for both loops: no error and exactly the baseline if and only if the undo returns, whatever it may land on. |
| UndoOutcome.SilentRollback | src/agent_workspace_guard/broker.py:879-899 | A rollback that recorded no error, so that the saved status says rolled_back, has brought the baseline back if and only if every payload set aside inside a backup equals what the baseline has in that place. |
| UndoOutcome.UnblockedReturns | src/agent_workspace_guard/broker.py:571-596 | An undo with nothing in its way returns, and what returns also recovers. |
| UndoTurns.RollbackLoop | src/agent_workspace_guard/broker.py:879-897 | With calls failing anywhere: excluded entries stay, no recorded error means the loop did what its specification does, a loop without a failing call leaves what the specification leaves and records its errors, an error means a failing call or an error of the specification, and if the places are apart every subtree stays accounted for, every operation without an error is undone, nothing is landed on, and no error means the baseline. |
| UndoTurns.RestoreLoop | src/agent_workspace_guard/broker.py:572-596 | The same for the loop of restore, whose directory syncs may fail after a rename was made and which raises at the first trouble; here it is enough that nothing is in the way, so no names clashing is. |
| RestoreSetting.ReadyToRestore | src/agent_workspace_guard/broker.py:566-570 | Any workspace whose visible part is the committed one, with the quarantine as the commit left it, is a starting point for the undo; its own excluded entries are kept. |
| RestoreSetting.RestoredReturns | src/agent_workspace_guard/broker.py:566-596 | Whether the undo of a restore returns does not depend on the excluded entries the workspace has by then. |
| Completed.CommitCompletes | src/agent_workspace_guard/broker.py:431-513 | For any workspace and any staged tree without special files there is a complete run of the commit loop, and it leaves exactly the staged tree beside the excluded entries. |
| Reserved.RestoreFails | src/agent_workspace_guard/broker.py:571-596 | A complete commit whose restore raises in its loop. |
| Reserved.RollbackFails | src/agent_workspace_guard/broker.py:878-896 | A complete commit whose rollback, although no call fails, records an error. |
| Reserved.RestoreOverEmpty | src/agent_workspace_guard/broker.py:571-602 | A complete commit whose names clash and whose restore lands on an empty directory, raises nothing and gives the baseline. |
| Reserved.RollbackLosesBackup | src/agent_workspace_guard/broker.py:878-896 | A complete commit whose names do not clash, and a turn of its rollback that overwrites a backup, because the turn before it failed and left that backup in the quarantine. |
| Reserved.RollbackMissesSilently | src/agent_workspace_guard/broker.py:878-899 | A complete commit whose rollback records no error and lands on nothing, and still misses the baseline. |
| Engine.CommitEngine.Scan | src/agent_workspace_guard/broker.py:665-666 | One scan of a root that may also fail by itself: it gives no manifest exactly if the call fails or the scan rejects the tree. |
| Engine.CommitEngine.Save | src/agent_workspace_guard/broker.py:695-699 | _save_commit, raising before or after the record is in place: what is saved is the record in memory, and the crash point it leaves is readable. |
| Engine.CommitEngine.MoveToQuarantine | src/agent_workspace_guard/broker.py:492-494 | The rename and its flag; if it raises, nothing has changed and a call failed. |
| Engine.CommitEngine.MoveIntoPlace | src/agent_workspace_guard/broker.py:503-505 | The rename and its flag; if it raises, nothing has changed and a call failed. |
| Engine.CommitEngine.MakeDestinationParents | src/agent_workspace_guard/broker.py:500 | The mkdir before an install leaves all trees as they are. |
| Engine.CommitEngine.MoveAll | src/agent_workspace_guard/broker.py:474-507 | The journalled loop: flags, disk and saved record agree throughout, every crash point is readable, no rename lands on anything, and only a failing call can stop it; after it the saved record is the one in memory. |
| Engine.CommitEngine.StagePayloads | src/agent_workspace_guard/broker.py:431-452 | The payload loop with the agent writing to the worktree between copies: the operations are the planned ones and the apply tree holds one subtree for each root; from an undisturbed worktree it holds the approved subtrees. |
| Engine.CommitEngine.CheckPlan | src/agent_workspace_guard/broker.py:394-423 | Passing the checks means the plan is what planning makes of the two scanned trees under the current policy; an honest plan can only be refused for a failing call or a changed worktree. |
| Engine.CommitEngine.Reevaluate | src/agent_workspace_guard/broker.py:405-419 | Diff and verdict computed again agree with the plan exactly if they are those of the plan. |
| Engine.CommitEngine.StageCommit | src/agent_workspace_guard/broker.py:425-457 | Directories, operation roots, payloads and the closing scan set up the state from which the journalled loop starts, without touching the workspace. |
| Engine.CommitEngine.RunJournal | src/agent_workspace_guard/broker.py:459-517 | The try block from the first journal entry on: success means the workspace has the staged digest and the record is saved as committed; failure means a failing call or a payload that was not the approved one. |
| Engine.CommitEngine.Rollback | src/agent_workspace_guard/broker.py:514-526 | The exception handler from any state of the commit loop: reporting success means the baseline; without a failing call it is reported if and only if the undo returns, and without landing on anything if and only if nothing moved was in the way; calls that fail after the undo loop leave the workspace the baseline exactly if the undo recovers; a status of rolled_back stands over the baseline if and only if no payload went back inside a backup; the saved record says committed exactly if three calls went the wrong way, and otherwise says rolled_back exactly if no error was recorded and marks exactly the operations without one; if the places are apart every subtree stays accounted for whatever fails. |
| Engine.CommitEngine.UndoMoves | src/agent_workspace_guard/broker.py:876-895 | The undo loop with the status and the phases it leaves, rolled_back on exactly the operations without an error: without a failing call it is complete and gives the baseline if and only if the undo returns, without landing on anything if and only if nothing moved was in the way, and it leaves the baseline, complete or not, if and only if the undo recovers; completed, it gives the baseline if and only if no payload went back inside a backup. |
| Engine.CommitEngine.CommitUnderLock | src/agent_workspace_guard/broker.py:393-526 | All or nothing, with a ghost account of the decisive calls: if no call of the handler fails in its undo loop, the workspace ends with exactly the approved visible tree, or, if and only if the undo of what the handler found recovers, exactly as it was, and names that do not clash are enough for that; a plan whose changes or verdict cannot be reproduced is refused; a plan without obstruction and with a worktree left alone is committed unless a call fails before the handler; the saved record claims an undone commit exactly if three calls went the wrong way; every crash point is readable, excluded entries stay, and if the places are apart every subtree stays accounted for whatever fails. |
| Engine.CalmIsApproved | src/agent_workspace_guard/broker.py:474-513 | With an undisturbed worktree the finished loop has made exactly the staged tree, so the final digest check cannot fire. |
| Engine.CommitEngine.Restore | src/agent_workspace_guard/broker.py:565-612 | Refused unless the workspace has the committed manifest; success means the baseline manifest; excluded entries stay; from record and quarantine as a commit left them, and without a failing call, it succeeds if and only if the undo returns, and without landing on anything if and only if no names clash; if none do, every subtree stays accounted for whatever fails. |
| Symlinks.UnsafeSymlinkReason | src/agent_workspace_guard/policy.py:257-289 | The walk with its component stack gives the specified reason: none exactly if the target is well formed and relative, never rises above the root, and does not end below a protected name. |
| Symlinks.DepthCounts | src/agent_workspace_guard/policy.py:274-283 | The depth of the stack is the starting depth plus names minus parent steps. |
| Symlinks.LeadComposes | src/agent_workspace_guard/policy.py:274-283 | Resolving a target in two parts is resolving it at once. |
| Symlinks.ReasonExactly | src/agent_workspace_guard/policy.py:257-289 | Each reason told from the text and from the height of the walk, which counts from the directory of the link: malformed, absolute, rising above the root at some component, or ending below a protected name, the one the walk entered when it last left the root. |
| Policy.Inspect | src/agent_workspace_guard/policy.py:72-180 | One change yields exactly the specified findings, is destructive unless it is a quiet add, and denies exactly if one of its findings is an error. |
| Policy.InspectAll | src/agent_workspace_guard/policy.py:72-180 | The loop over all changes gathers the findings in order and joins the flags. |
| Policy.Tally | src/agent_workspace_guard/policy.py:63-101 | The counters and byte totals are the sums over the changes. |
| Policy.Evaluate | src/agent_workspace_guard/policy.py:56-254 | Decision, findings and summary are the specified ones; deny exactly if some finding is an error, allow exactly if there are no findings and every change is an add. |
| PolicyLaws.DecisionNeverWeakens | src/agent_workspace_guard/policy.py:72-239 | For a fixed baseline, adding changes never weakens the decision. |
| PolicyLaws.OrderIrrelevant | src/agent_workspace_guard/policy.py:72-254 | Decision and summary do not depend on the order of the changes. |
| PolicyLaws.AllowIsNonDestructive | src/agent_workspace_guard/policy.py:221-239 | If the verdict on the diff of two trees is allow, every baseline entry is unchanged in the staged tree and every operation root is an add without backup. |
| PolicyLaws.EntriesBalance | src/agent_workspace_guard/policy.py:241-253 | On a true diff, staged entries plus deleted equals baseline entries plus added. |
| PolicyLaws.KindsPartition | src/agent_workspace_guard/policy.py:241-246 | The four kind counts sum to the number of changes. |
| PolicyLaws.BytesBalance | src/agent_workspace_guard/policy.py:88-101 | On a true diff, staged bytes equal baseline bytes plus added plus replacement minus removed minus the former sizes of modified files. |
| PolicyLaws.MostPathsKept | src/agent_workspace_guard/policy.py:187-206 | With the default gate, a plan that is not denied keeps more than half of the paths of a baseline of at least the minimum size. |
| PolicyReasons.DecisionExactly | src/agent_workspace_guard/policy.py:72-239 | Told from the changes: denied if and only if one is below a protected name, touches a special file or brings an unsafe link, or the plan deletes too much or has too many changes; allowed outright if and only if it is not, and each change only adds a directory or a file that is no program and looks like no secret, within the budget for additions. |
| PolicyReasons.FindingsExactly | src/agent_workspace_guard/policy.py:72-232 | Every finding, with its severity and path, is there if and only if a change or the plan calls for it. |
| PolicyReasons.FindingsInOrder | src/agent_workspace_guard/policy.py:72-232 | The findings about a true diff come in the order of its paths and of the rules, each once, those about the whole plan last. |
| PolicyReasons.SummaryExactly | src/agent_workspace_guard/policy.py:241-253 | On a true diff the summary counts the paths that were added, deleted, of another kind, or of the same kind and different, and the bytes of the files among them. |
| PolicyReasons.SuffixIsTail | src/agent_workspace_guard/policy.py:153 | The suffix of a name runs from its last dot, unless that is its first or last character. |
| Texts.AcceptedIsCore | src/agent_workspace_guard/util.py:48-59 | validate_text_field returns a text if and only if it is what lies between the white space around its argument, not empty, not too long, and free of control characters. |
| Texts.AcceptedAgain | src/agent_workspace_guard/util.py:48-59 | A text that was accepted is accepted unchanged by every later check. |
| Texts.WhiteExactly | src/agent_workspace_guard/util.py:52 | What strip takes away, character by character. |
| Baseline.CopyMatches | src/agent_workspace_guard/broker.py:131-137 | A scan of the copy, which leaves out every name that matches an excluded name as a pattern, at any depth, sees what a scan of the workspace sees if and only if no recorded entry lies at or below such a name. |
| Baseline.CopiedAt | src/agent_workspace_guard/broker.py:131-137 | The copy is the workspace without everything at or below a name that is left out, at any depth. |
| Baseline.CopyMisses | src/agent_workspace_guard/broker.py:131-160 | The copy meets a special file exactly if one lies outside those names, and loses an entry exactly if one at or below such a name, at any depth, is not excluded at the top. |
| Baseline.TakeBaseline | src/agent_workspace_guard/broker.py:121-160 | What begin returns is always a worktree with exactly the recorded baseline, whatever others do to the workspace between its three visits; in a workspace left alone it succeeds if and only if the workspace can be scanned, the copy meets no special file, and it loses no recorded entry. |
| Protocol.StepKeepsSound | src/agent_workspace_guard/broker.py:617-653 | Every API call, also one that raises halfway, leaves transactions, plans, tokens and records that agree with each other: lifetimes in range, tokens bound to saved plans, records matching their plans. |
| Protocol.PlanStays | src/agent_workspace_guard/models.py:223-246 | A saved plan is never lost, what its fingerprint covers never changes, and committed stays committed. |
| Protocol.CommitKeepsBooks | src/agent_workspace_guard/broker.py:528-534 | A commit leaves plan, transaction and record telling the same story if and only if plan and transaction are saved when it took place and no undone commit is recorded as committed. |
| Protocol.OthersKeepBooks | src/agent_workspace_guard/broker.py:240-251 | Every other call keeps that agreement, whatever fails. |
| Protocol.StepKeepsReversible | src/agent_workspace_guard/broker.py:548-612 | Committed records stay restorable from their quarantines through every orderly call. |
| Runs.SoundThroughout | src/agent_workspace_guard/broker.py:617-653 | At every point of every run the saved records agree with each other and every tree is one. |
| Runs.BooksThroughout | src/agent_workspace_guard/broker.py:528-534 | In a run, plans, transactions and records agree at every point if and only if every commit left them so. |
| Runs.RestoreChecksPass | src/agent_workspace_guard/broker.py:549-561 | In such runs the consistency checks of restore never fire on a committed record, and its quarantine still holds what the undo needs. |
| Runs.TransactionsAdvance | src/agent_workspace_guard/broker.py:240-262 | In every run a transaction only moves from open over planned to committed, or from either to discarded; its other fields never change, a committed one is never lost, a removed one never returns. |
| Runs.PlansPersist | src/agent_workspace_guard/broker.py:686-693 | In every run a plan keeps its fingerprint and stays committed once it is. |
| Runs.CommitsOnce | src/agent_workspace_guard/broker.py:371-382 | After a commit saved its plan, no later commit of that plan gets past the checks; after it saved its transaction, none of any plan of that transaction does, not even after a restore. |
| Runs.ExpiredNeverTried | src/agent_workspace_guard/broker.py:717-721 | A plan made with a lifetime never gets past the checks of commit when that is over, nor ever if it is denied. |
| Runs.CommittedByCommit | src/agent_workspace_guard/broker.py:528-534 | A plan counts as committed only after a commit of it took place and saved it. |
| Runs.RestoresCommits | src/agent_workspace_guard/broker.py:549-554 | A restore is let through only for a record that says committed, after a commit of its plan took place and saved the plan. |
| Runs.Authorization | src/agent_workspace_guard/broker.py:370-402 | Every commit let through in a run is of a pending plan that has not expired and is allowed outright or covered by an issued token for the same fingerprint, never of a denied one; a plan lives at most an hour, a token at most a quarter of an hour and no longer than its plan; what it changes was the plan baseline under the plan policy, and what it leaves is the plan tree. |
| Runs.TokenCovers | src/agent_workspace_guard/broker.py:736-763 | A token that passes the checks and cannot be forged was issued for this fingerprint and is alive. |
| Runs.PlansTrue | src/agent_workspace_guard/broker.py:263-296 | Every plan in every run is what diff and policy make of two trees with its digests. |
| Runs.AutomaticCommitKeepsAll | src/agent_workspace_guard/policy.py:234-239 | In every run, a commit that nobody had to approve leaves every entry of the workspace as it was. |
| Runs.StackedCommitsUndo | src/agent_workspace_guard/broker.py:565-612 | In every run, commits on a workspace that are all restored, latest first, leave the workspace exactly as it was, excluded entries included. |
| Runs.ChainThroughout | src/agent_workspace_guard/broker.py:394-402 | The commits still open at any point lead, digest by digest, from the workspace at the start to the workspace now. |
| Broker.WorkspaceGuard.Begin | src/agent_workspace_guard/broker.py:104-216 | A protocol step; in a workspace left alone and without a failing call it succeeds if and only if the task id is acceptable and the workspace can be scanned and copied faithfully. |
| Broker.WorkspaceGuard.Plan | src/agent_workspace_guard/broker.py:256-309 | A protocol step; without a failing call it succeeds if and only if the lifetime is in range, the transaction is open or planned, the workspace still has the baseline manifest and the worktree can be scanned. |
| Broker.WorkspaceGuard.Approve | src/agent_workspace_guard/broker.py:311-359 | A protocol step; without a failing call it succeeds if and only if actor and lifetime are acceptable and the plan is pending, alive and not denied; the token is signed and bound to the plan. |
| Broker.WorkspaceGuard.Authorize | src/agent_workspace_guard/broker.py:370-389 | The checks before the lock pass if and only if plan, token, clock, transaction and stored baseline allow the commit. |
| Broker.WorkspaceGuard.Commit | src/agent_workspace_guard/broker.py:364-546 | A protocol step, tried exactly if the checks pass and the lock can be taken, so only for a pending plan that has not expired by then and is not denied; failing leaves the workspace as it was if no call of the handler fails in its undo loop and no names clash; an honest plan with a worktree left alone is committed unless a call fails in between; and the books are left in order if and only if its numbered calls went well: the four after the last journal entry, or, when the commit failed, one of the three that would leave the record claiming it. |
| Broker.WorkspaceGuard.Settle | src/agent_workspace_guard/broker.py:528-534 | After the last journal entry, the plan is saved if and only if none of the next two calls fails, and the transaction if and only if none of the next four does. |
| Broker.WorkspaceGuard.BooksDecided | src/agent_workspace_guard/broker.py:364-546 | From the first API call to the last, plans, transactions and records agree at every point if and only if no commit was cut off by the calls that decide it. |
| Broker.WorkspaceGuard.CommitsPermitted | src/agent_workspace_guard/broker.py:370-402 | For the class: if its clock never runs backwards and only the broker can sign, every commit it lets through is permitted in the sense of Runs.Authorization. |
| Broker.WorkspaceGuard.BooksAfterCommit | src/agent_workspace_guard/broker.py:514-546 | A commit that finds them in agreement leaves them so if and only if it was not cut off. |
| CutOffs.PlanLeftPending | src/agent_workspace_guard/broker.py:528-534 | For every configuration, policy and workspace that begin accepts: a commit that takes place, whose first call after the last journal entry fails, and which leaves a record that says committed and a plan that is pending. |
| CutOffs.PendingNotRestored | src/agent_workspace_guard/broker.py:552-554 | For the same: a restore of that record is refused and leaves everything as it was. |
| CutOffs.RecordLeftCommitted | src/agent_workspace_guard/broker.py:510-526 | For the same: a commit that is undone and whose record says committed, because the call after its save and the save of the handler fail. |
| Checks.BeginChecks | src/agent_workspace_guard/broker.py:104-160 | What begin asks for: an acceptable task id, a workspace within the limits of a scan, no special file outside the names the copy leaves out, and no entry at or below such a name, at any depth, that a scan would record. |
| Checks.PlanChecks | src/agent_workspace_guard/broker.py:256-268 | What plan asks for: a lifetime of one second to an hour, an open or planned transaction, the workspace as it was at the beginning, and both trees within the limits of a scan. |
| Checks.ApproveChecks | src/agent_workspace_guard/broker.py:318-333 | What approve asks for: an acceptable actor, a lifetime of one second to a quarter of an hour, and a pending plan that has not expired and is not denied. |
| Checks.TokenLifetime | src/agent_workspace_guard/broker.py:335-343 | A token is in the accepted name of the actor and lives for the time asked for, or until its plan expires if that is sooner. |
| Checks.CommitChecks | src/agent_workspace_guard/broker.py:370-389 | What commit asks for before the lock: a pending plan that has not expired and is not denied; where it needs approval, a token signed by the broker for exactly this plan, alive, of a lifetime in range and not outliving the plan; a planned transaction with the task, the root and the baseline of the plan; and a stored baseline that verifies. |
| Checks.RestoreChecks | src/agent_workspace_guard/broker.py:549-561 | What restore asks for before the lock: a record that says committed, of a plan that does too, with the transaction, the root and both digests of that plan. |
| Checks.BeginLeaves | src/agent_workspace_guard/broker.py:162-188 | Begin saves an open transaction under a new identifier, with a worktree that has its baseline, and touches nothing else. |
| Checks.PlanLeaves | src/agent_workspace_guard/broker.py:272-299 | Plan saves a pending plan under a new identifier, then its transaction as planned, and touches nothing else. |
| Checks.ApproveLeaves | src/agent_workspace_guard/broker.py:334-349 | Approve saves a token under a new identifier for the plan as it is, and touches nothing else. |
| Checks.CommitLeaves | src/agent_workspace_guard/broker.py:459-534 | Commit changes the workspace of its plan, adds its record under a new identifier, and marks plan and transaction as committed where they were saved. |
| Checks.CommitLeavesAlone | src/agent_workspace_guard/broker.py:459-534 | Commit changes nothing else: no other plan, transaction, record or workspace, no token and no worktree. |
| Checks.RestoreLeaves | src/agent_workspace_guard/broker.py:565-612 | Restore changes the workspace and the quarantine of its record and marks that record, which says restored only over the old baseline; it touches nothing else. |
| Checks.DiscardLeaves | src/agent_workspace_guard/broker.py:240-251 | Discard removes its transaction, or leaves it marked if the removal fails; a committed one stays; nothing else is touched. |
| Broker.WorkspaceGuard.Restore | src/agent_workspace_guard/broker.py:548-612 | A protocol step, tried exactly if the checks pass and the lock can be taken, so only for a record and a plan that both say committed; with a quarantine as the commit left it and no failing call it succeeds if and only if the workspace still has the committed manifest and the undo returns, which it does if no names clash. |
| Broker.WorkspaceGuard.Discard | src/agent_workspace_guard/broker.py:240-251 | A protocol step; without a failing call it succeeds if and only if there is such a transaction and it is not committed. |
| Broker.MakePlan | src/agent_workspace_guard/broker.py:263-271 | Planning gives the facts that fit workspace, worktree and policy, and without a failing call exactly if the stored baseline is genuine, both trees can be scanned and the workspace has the baseline digest. |
| Broker.RunCommit | src/agent_workspace_guard/broker.py:393-526 | One commit under the lock on values: the account of CommitUnderLock for the workspace of a plan; a committed workspace has the staged digest and the quarantine holds what a restore takes. |
| Broker.RunRestore | src/agent_workspace_guard/broker.py:565-612 | One restore under the lock on values; with a quarantine as the commit left it and no failing call it succeeds if and only if the workspace still has the committed digest and the undo returns. |
| Broker.KeptReturns | src/agent_workspace_guard/broker.py:565-596 | The undo of what a commit left returns if no names clash. |
| LockHistory.NextKeepsOrder | src/agent_workspace_guard/broker.py:917-935 | Every step of every broker, also a call that fails in an undo and an undo that was blocked, keeps: at most one broker inside, the one holding the lock; the tree accounted for inside unless its undo is spoiled; the generations a path but for torn ones. |
| LockHistory.HistoryIsAPath | src/agent_workspace_guard/broker.py:393-402 | However many brokers interleave lock, checks and single renames, no two are inside at once, and whenever the lock is free the history of the workspace consists of plan baseline to plan tree, the reverse, or no change, but for the generations an undo has torn. |
| LockHistory.SmoothRunsTearNothing | src/agent_workspace_guard/broker.py:879-896 | Nothing is torn in a run in which no turn of an undo breaks off and no undo begins with something in its way. |
| LockHistory.UndoNeverStuck | src/agent_workspace_guard/broker.py:879-896 | A broker in a rollback or restore that is not spoiled can always take its next half turn, or is done. |
| Audit.CheckLines | src/agent_workspace_guard/audit.py:105-152 | Accepts exactly the logs whose rows form a chain, with their count and head; otherwise names the first line that breaks it. |
| Audit.VerifiesExactly | src/agent_workspace_guard/audit.py:105-152 | A log verifies if and only if every line is blank or a row, and every row stores the hash of the row before it or zeros, a hash of its own that is that of this hash and its body, and, where there is a signer, his signature for body and hash. |
| Audit.RowsAre | src/agent_workspace_guard/audit.py:113-151 | The rows of a log are its lines that are rows. |
| Audit.AuditLog.Open | src/agent_workspace_guard/audit.py:48-67 | A log is opened exactly if it verifies. |
| Audit.AuditLog.Append | src/agent_workspace_guard/audit.py:69-98 | Refuses a blank event type and a chain that does not verify, and otherwise extends it by one linked row; the log it leaves verifies if and only if the row found a fresh line. |
| Audit.PrefixVerifies | src/agent_workspace_guard/audit.py:105-152 | Cutting a verifying log anywhere leaves a verifying log. |
| Audit.AppendsVerify | src/agent_workspace_guard/audit.py:69-98 | Any run of appends to an empty log verifies with one row for each event, and its head is the hash the last append returned. |
| Audit.HeadDepth | src/agent_workspace_guard/audit.py:132-151 | The head fixes the number of rows. |
| Audit.HeadDeterminesLog | src/agent_workspace_guard/audit.py:132-151 | Two verifying logs with the same head agree row for row, signatures included where the log is signed. |
| Audit.HeadDeterminesEvents | src/agent_workspace_guard/audit.py:73-82 | Different event histories never have the same head. |
| Audit.OnlyPrefixesVerify | src/agent_workspace_guard/audit.py:137-149 | With only issued signatures to hand, every signed log that verifies is a prefix of the true one: truncation is the only change it does not show. |
| Audit.LostNewline | src/agent_workspace_guard/audit.py:93-97 | A write that loses only its newline leaves a log that verifies, and the next append, which reports success, leaves one that does not. |

## Left out

- Trees.Rename: a symlink in the place of an intermediate directory is an error here, where the system would follow it; no theorem needs to follow one, as scans record links without following them.
- Trees.CopyEntry: timestamps, ownership and other metadata a scan does not record.
- Trees.CopyOnto: a file copied onto a link is refused, where the system would write through the link; staging never copies onto anything.
- UndoCalls.Displace: a mkdir with parents that fails halfway is taken to have made nothing, here and in the other moves.
- Manifests.ScanTree: the checks on the root itself (missing, a link, not a directory), unreadable entries, and files that change while they are hashed.
- Engine.CommitEngine.Scan: entries on other devices, which Manifests.ScanTree models, are taken to be absent in the engine's scans.
- Engine.CommitEngine.CommitUnderLock: the comparison of device numbers; it is one of the calls that may fail. What a refusal cleans up in the state directory. The operations are values in a sequence, so aliasing between the record and its operations is not modelled.
- Engine.CommitEngine.Rollback: the list of error texts; which operations failed is kept by path.
- Policy.Evaluate: message texts and delete_fraction_ppm; the deletion fraction is an exact quotient rather than a float; lower and casefold are arbitrary functions.
- Protocol.Step: identifiers are fresh numbers instead of random texts; changes made to the saved files behind the broker's back are outside the model, as is a lock file that cannot be removed; a failing removal is one step that either took the record along or not.
- Protocol.CommitKeepsBooks: in terms of what the event records; Broker.WorkspaceGuard.BooksAfterCommit ties that to the calls.
- Runs.BooksThroughout: the same; Broker.WorkspaceGuard.BooksDecided ties it to the calls.
- Runs.Authorization: assumes a clock that does not run backwards (Broker.WorkspaceGuard.CommitsPermitted derives what is needed from the clock itself) and that only the broker can sign; the time meant is that of the check, before the lock.
- Broker.WorkspaceGuard.Commit: each API call is one step of a run; races of two calls on the same saved records are not covered, and the code does nothing about them. LockHistory covers races on the workspace.
- LockHistory.HistoryIsAPath: no crash while the lock is held; a generation left by an undo that was blocked or in which a call failed is only known to be a tree; writers that ignore the lock are not covered, nor are brokers with different state roots: the lock file lies under the state root (`src/agent_workspace_guard/broker.py:919-920`), so such brokers do not exclude each other in the code, and those of a history share one.
- Audit.AuditLog.Append: the thread lock, the opening of the file, and JSON itself; a row is its fields, and a line is blank, malformed or a row.
- Audit.Glue: white space that strip removes but JSON does not allow before a row.
- Baseline.Copied: how a pattern is matched; which names the copy ignores is an arbitrary predicate.
- CutOffs.PlanLeftPending: the numbers of the calls are those of the model, in which a scan or a removal is one call and a save is two.
- The shell gate and its replay corpus: advisory pattern matching around library calls.
- Key files, canonical JSON, HMAC and SHA-256: replaced by ideal terms.
- The environment of a transaction, the command line, the demo and the packaging scripts: plumbing.
- Crash recovery, quarantine purge and anchoring of audit heads: described in the documentation, not implemented.
- The default values of the policy, of the excluded names and of the scan limits: parameters of the model.
