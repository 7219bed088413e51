# git-tools, modelled in Dafny

git-tools is a set of small git subcommands written in Go:

- `git reparent` replays the last commits of a branch onto a new parent, one
  cherry-pick at a time. It keeps a state file and a marker ref, so that a
  conflict can be resolved and the replay resumed (`--continue`) or undone
  (`--abort`).
- `git bookmark` keeps named pointers to references as files in a bookmark
  directory, plus a file that tracks the latest bookmark used.
- `git backup` creates `backups/<branch>/<date>[-n]` branches, and lists or
  purges the backups of the current branch.
- `git split` amends the staged part into the last commit and leaves the
  rest of the work in the working tree.
- `git move-branch` points a branch at another commit.
- `git new-branch` creates a branch from the remote's main branch.
- `git get main-branch` prints the remote's main branch.
- The shared helpers in `common/git.go` read git's output: porcelain status
  lines, branch lists, commit ranges, the current branch and the remote HEAD.

The model keeps the source's structure:

- **Pure parts** are datatypes and functions with lemmas about them. This
  covers argument parsing, git output parsing, the reparent state file
  format, backup naming and the listing order.
- **Each tool's effect on the repository** is written as a specification
  function over a snapshot. For example, `Reparent.StartSpec` maps the old
  `Repo` to a new `Repo` and an outcome.
- **The source's procedures** are `Repository` classes whose fields are
  updated in place: the HEAD, the branch map, the state file, the marker,
  the bookmark directory and the backups. Each method is proved to reach
  exactly the snapshot and outcome its specification function gives, e.g.
  `ensures (State(), out) == StartSpec(old(State()), opts, env)`.
- **Loops in the source** stay loops with invariants: argument scanning,
  status-line scanning, branch listing, backup numbering, purging, printing
  bookmark lines and the cherry-pick replay.

What git answers (status text, `rev-parse`, whether a ref exists, whether a
cherry-pick succeeded) is a parameter: an `Env` value whose fields are the
answers. The date, the user's typed answers and the process arguments are
parameters too.

A Go slice `s[:8]` of a hash shorter than eight bytes panics. The model
keeps this in the `reparent` confirmation summary and replay, and in the
`bookmark` checkout, listing, menu and sync: the outcome `Panicked` is
produced at the point where the source would panic, with the state changed
so far. Byte length is measured with `Strings.Utf8Len`. The one exception
is the `backup` listing (git-backup.go:266-268), whose slice the model does
not take (see "Left out").

`os.Exit` skips deferred calls. Because of this, the diff file that `git
split` writes survives every failure after it is written (`Split.SplitSpec`).

## Model

| member | source | states |
|---|---|---|
| GitOutput.HasUncommittedChanges | common/git.go:125-129 | true exactly when `git status --porcelain` succeeded and printed something other than white space |
| GitOutput.HasUnstagedChanges | common/git.go:132-154 | a failed status is passed on as an error; otherwise the answer is whether some line of the trimmed output has `M`, `D` or `T` in its second column or starts with `??` |
| GitOutput.LeadingUnstagedReadsAsStaged | common/git.go:132-154 | trimming the whole output first turns a lone ` M file` line into `M file`, which reads as staged and not unstaged |
| GitOutput.LaterUnstagedLineCounts | common/git.go:132-154 | a ` M file` line after a first line keeps its leading space and counts as unstaged |
| GitOutput.HasStagedChanges | common/git.go:157-176 | a failed status is an error; otherwise the answer is whether some line of the trimmed output starts with `M`, `A`, `D`, `R`, `C` or `T` |
| GitOutput.HasConflicts | common/git.go:179-196 | true exactly when the status succeeded and some line starts with one of the eight unmerged codes |
| GitOutput.ConflictLinePrefixes | common/git.go:186-193 | a conflict line is exactly one that starts with `UU `, `AA `, `DD `, `AU `, `UD `, `UA `, `DU ` or `AD ` |
| GitOutput.ChangesAreUncommitted | common/git.go:125-176 | any staged or unstaged line makes the tree count as having uncommitted changes |
| GitOutput.ConflictsAreUncommitted | common/git.go:125-196 | any conflict line makes the tree count as having uncommitted changes |
| GitOutput.BranchEntry | common/git.go:286-293 | the name taken from a `git branch` line has no `* ` marker, no leading space and no trailing space |
| GitOutput.BranchEntryOfName | common/git.go:286-293 | both the current branch line `* name` and the other form `  name` give back `name` |
| GitOutput.GetAllBranches | common/git.go:276-297 | the loop returns the non-empty branch names of all lines, in order; a failed git call is passed on |
| GitOutput.BranchesConcat | common/git.go:283-294 | the names of two blocks of lines are the names of each block, concatenated |
| GitOutput.CommitRange | common/git.go:319-337 | empty output gives no commits; otherwise the commits are the lines of the trimmed output, none holding a newline, joined back to that output |
| GitOutput.CommitRangeOfJoin | common/git.go:319-337 | printing a list of commit hashes with surrounding white space and reading it back gives the same list |
| GitOutput.CurrentBranch | common/git.go:52-63 | an empty answer from `git branch --show-current` means a detached HEAD and is an error; otherwise the branch is the trimmed answer |
| GitOutput.RemoteMainBranch | common/git.go:300-316 | a failed query reports git's output; a success always gives a name, the empty one when the answer has no slash |
| GitOutput.RemoteMainBranchDropsRemote | common/git.go:300-316 | an answer `<remote>/<name>` gives `<name>` |
| ReparentArgs.ParseArgs | git-reparent.go:51-106 | the loop over the arguments gives exactly the outcome of the parsing function |
| ReparentArgs.ParsedWellFormed | git-reparent.go:96-105 | accepted options have a parent reference and a count of at least one, and `--from` goes only with a count of one |
| ReparentArgs.MissingValueRejected | git-reparent.go:60-81 | `--parent`, `--number` or `--from` as the last argument is an error |
| ReparentArgs.UnknownOptionRejected | git-reparent.go:91-92 | the first unknown argument after switches is reported by name |
| ReparentArgs.HelpStopsParsing | git-reparent.go:88-90 | `--help` after any switches shows the usage and ignores the rest |
| ReparentArgs.NumberDefaultsToOne | git-reparent.go:52-54 | with only a parent, one commit is replayed, there is no `--from`, and backup and confirmation are off |
| ReparentArgs.ParentRequired | git-reparent.go:96-98 | without `--parent` or `-p` nothing is accepted |
| ReparentArgs.NumberMustBePositive | git-reparent.go:66-75 | `-n` is accepted exactly when its value parses as an integer of at least one, and that value is used |
| ReparentArgs.FromClashesOnlyWithCountOtherThanOne | git-reparent.go:100-103 | `--from` with `-n c` is accepted exactly when c is one |
| ReparentStore.ParseState | git-reparent.go:373-389 | whatever the file holds, the branch read has no newline, and each commit read is non-empty, has no newline and is not a header line |
| ReparentStore.LoadSave | git-reparent.go:338-390 | loading the text that saving writes gives back the commits, the branch and the no-branch flag |
| ReparentStore.UpdateKeepsHeader | git-reparent.go:392-400 | rewriting the state with a new commit list keeps the branch and the flag and replaces only the commit list |
| ReparentStore.NoBranchOnlyFromTrue | git-reparent.go:373-387 | the no-branch flag is set only when the file holds the line `NO_BRANCH=true` |
| Reparent.ApplyAllPicked | git-reparent.go:255-278 | when every pick succeeds, the replay finishes with HEAD on the last new commit and nothing else changed |
| Reparent.ApplyPanicsOnShortCommit | git-reparent.go:256-257 | a commit id shorter than eight bytes stops the replay with a panic, after the commits before it were picked |
| Reparent.ApplyFailureKeepsState | git-reparent.go:259-274 | a failed pick other than a conflict stops the replay and reports git's error |
| Reparent.ApplyConflictPersistsRest | git-reparent.go:259-271 | on a conflict the state file is rewritten with the commits after the conflicting one, and the header is kept |
| Reparent.ApplyConflictWithoutFile | git-reparent.go:266-270 | on a conflict with no state file, the rewrite fails and that failure is reported |
| Reparent.ApplyKeepsSuffix | git-reparent.go:255-278 | after a replay the state file always holds a suffix of the planned commits |
| Reparent.StartRejectsDirtyTree | git-reparent.go:111-113 | uncommitted changes stop the start and leave the repository untouched |
| Reparent.StartRejectsMissingParent | git-reparent.go:115-117 | an unknown parent stops the start with its name and leaves the repository untouched |
| Reparent.StartRejectsDetachedHead | git-reparent.go:119-136 | on a detached HEAD the start fails after the optional backup |
| Reparent.StartRejectsEmptyRange | git-reparent.go:137-144 | an empty commit range is an error, after the optional backup |
| Reparent.ChecksChangeOnlyBackups | git-reparent.go:108-166 | the checks before the checkout change nothing except the backup list |
| Reparent.StartTouchesNothingBeforeCheckout | git-reparent.go:108-182 | the HEAD, branches, state file and marker change only when the checkout of the parent succeeded |
| Reparent.StartProceedsWith | git-reparent.go:108-166 | a start that proceeds has the current branch and the commit range the checks established, and that range is not empty |
| Reparent.LaunchSavesPlanBeforeReplay | git-reparent.go:168-182 | the plan and the marker are written before the replay; a conflict on the first commit leaves the other commits in the file |
| Reparent.LaunchLeavesSuffix | git-reparent.go:168-182 | after a start the state file is gone or holds a suffix of the planned commits |
| Reparent.CurrentBranchOf | common/git.go:52-63 | a detached HEAD has no current branch; a branch HEAD names its branch |
| Reparent.FinishClearsStateFirst | git-reparent.go:280-289 | finishing always removes the state file and the marker |
| Reparent.FinishMovesBranch | git-reparent.go:291-301 | finishing on a branch moves it to the HEAD commit and checks it out |
| Reparent.FinishLeavesDetached | git-reparent.go:287-291 | with `--no-branch` finishing only cleans up and HEAD stays detached |
| Reparent.FailedMoveCannotResume | git-reparent.go:287-295 | when moving the branch fails, the state is already gone and `--continue` reports that no reparent is in progress |
| Reparent.ContinueNeedsMarker | git-reparent.go:187-190 | `--continue` without the marker ref changes nothing |
| Reparent.ContinueFinishesPendingPickFirst | git-reparent.go:199-209 | a pending cherry-pick is continued first, and a failure there changes nothing |
| Reparent.ContinueEmptyGoesToFinish | git-reparent.go:209-217 | with no commits left, `--continue` finishes with the saved branch and flag |
| Reparent.FinishKeepsOrDeletes | git-reparent.go:280-289 | finishing either removes the state file or, when HEAD cannot be read, leaves it as it was |
| Reparent.ContinueKeepsSuffix | git-reparent.go:184-218 | a suspended reparent stays suspended at a later point of the same plan, or its state is gone |
| Reparent.ContinuesKeepSuffix | git-reparent.go:184-218 | the same holds for any number of `--continue` calls |
| Reparent.AbortNeedsMarker | git-reparent.go:223-226 | `--abort` without the marker ref changes nothing |
| Reparent.AbortPickFailureOnlyWarns | git-reparent.go:234-250 | a failed `cherry-pick --abort` is only a warning; the original branch is checked out and the state removed |
| Reparent.AbortKeepsStateOnCheckoutFailure | git-reparent.go:242-246 | when the original branch cannot be checked out, the state file and the marker are kept |
| Reparent.CleanupIdempotent | git-reparent.go:402-415 | cleaning up twice is the same as cleaning up once |
| Reparent.ContinueOnlyFirst | git-reparent.go:28-43 | `--continue` is recognised only as the first argument |
| ReparentRepository.SummaryCheck | git-reparent.go:146-154 | the confirmation summary panics exactly when the parent or one of the commits is shorter than eight bytes |
| ReparentRepository.Repository.IsReparentInProgress | git-reparent.go:446-458 | a reparent is in progress exactly when the marker ref exists |
| ReparentRepository.Repository.CreateReparentHead | git-reparent.go:417-430 | the marker records the HEAD commit |
| ReparentRepository.Repository.RemoveReparentHead | git-reparent.go:432-444 | the marker is removed and nothing else changes |
| ReparentRepository.Repository.SaveReparentState | git-reparent.go:338-356 | the state file is written with the text `LoadSave` reads back |
| ReparentRepository.Repository.LoadReparentState | git-reparent.go:358-390 | the state is read line by line as `ParseState` defines |
| ReparentRepository.Repository.UpdateReparentState | git-reparent.go:392-400 | the commit list is replaced and the header kept |
| ReparentRepository.Repository.CleanupReparentState | git-reparent.go:402-415 | the state file and the marker are removed |
| ReparentRepository.Repository.ApplyCherryPicks | git-reparent.go:255-278 | the loop reaches the state and outcome of the replay function |
| ReparentRepository.Repository.FinishReparent | git-reparent.go:280-305 | the state and outcome of finishing |
| ReparentRepository.Repository.RunReparent | git-reparent.go:108-182 | the state and outcome of a start |
| ReparentRepository.Repository.ResolvePlan | git-reparent.go:127-166 | the parent commit, the current branch, the commit range and the confirmation are checked in order, and nothing changes |
| ReparentRepository.Repository.HandleContinue | git-reparent.go:184-218 | the state and outcome of `--continue` |
| ReparentRepository.Repository.HandleAbort | git-reparent.go:220-253 | the state and outcome of `--abort` |
| ReparentRepository.Repository.Run | git-reparent.go:22-49 | the dispatch between continue, abort and start, with parse errors and help |
| Backup.ParseArgs | git-backup.go:24-49 | the loop gives exactly the outcome of the argument function |
| Backup.OneReferenceOnly | git-backup.go:36-46 | a second reference argument is never accepted |
| Backup.RefAfterModeRejected | git-backup.go:39-41 | a reference after `--purge` or `--list` is refused |
| Backup.RefBeforeModeAccepted | git-backup.go:30-53 | a reference before `--purge` is accepted; purge mode then ignores it |
| Backup.BackupBase | git-backup.go:101 | the base name starts with `backups/` |
| Backup.MatchingBackupsAreBackups | git-backup.go:136-143 | every kept branch is named as a backup of the base, allowing leading white space |
| Backup.MatchingBackupsExact | git-backup.go:136-143 | a branch is kept exactly when it exists and is named as a backup of the base |
| Backup.GetExistingBackups | git-backup.go:128-146 | keeps exactly the backups of the base, in order; a failed git call gives none |
| Backup.KeepBackups | git-backup.go:136-143 | the loop appends exactly the matching branches, in order |
| Backup.DigitRun | git-backup.go:154-163 | the number read after the base is the longest run of digits there |
| Backup.MaxOf | git-backup.go:170-175 | the largest number is one of those found, and no number found is larger |
| Backup.Succ64 | git-backup.go:174-175 | one more than the largest number, which wraps to the smallest 64-bit integer at the largest |
| Backup.GetNextBackupNumber | git-backup.go:148-176 | the loop gives the next number the numbering function defines |
| Backup.NextNumberExceeds | git-backup.go:148-176 | the next number is greater than every number in use, unless it wrapped |
| Backup.NextNumberPositive | git-backup.go:148-176 | the next number is at least one, unless it wrapped |
| Backup.HasExactMatch | git-backup.go:178-188 | true exactly when the base itself is an existing branch |
| Backup.NumberOfNumbered | git-backup.go:160-164 | `base-<digits>` reads back as the value of the digits |
| Backup.NumberedNameIsFresh | git-backup.go:105-110 | a numbered name with the next number is not one of the existing backups |
| Backup.BackupNameFresh | git-backup.go:101-110 | the chosen backup name is never one of the existing backups |
| Backup.BackupNameMatches | git-backup.go:101-110 | the chosen name is the base or a numbered backup of it, unless the number wrapped |
| Backup.WrappedNameIsNoBackup | git-backup.go:109 | a wrapped negative number gives a name that does not read as a backup of the base |
| Backup.BackupNameNew | git-backup.go:101-117 | the chosen name can clash with an existing branch only after the number wrapped |
| Backup.WithPrefixHasPrefix | git-backup.go:284-288 | the kept branches all start with the prefix |
| Backup.WithPrefixExact | git-backup.go:284-288 | a branch is kept exactly when it exists and starts with the prefix |
| Backup.WithPrefixConcat | git-backup.go:284-288 | filtering keeps the order of the branches |
| Backup.GetAllBackupBranches | git-backup.go:276-291 | keeps exactly the branches that start with the prefix; a failed git call gives none |
| Backup.KeepWithPrefix | git-backup.go:284-288 | the loop appends exactly the branches that start with the prefix, in order |
| Backup.Deleted | git-backup.go:226-234 | the count of deleted branches is at most the number of branches |
| Backup.DeletedAll | git-backup.go:226-234 | every branch is counted exactly when every deletion succeeded |
| Backup.DeleteBackups | git-backup.go:226-234 | the loop counts the deletions as the counting function does |
| Backup.PurgeSpec | git-backup.go:190-238 | a purge deletes only after `--force` or an answer of `y`, `Y`, `yes` or `YES`, and is cancelled exactly without those when there are backups |
| Backup.ListSpec | git-backup.go:240-274 | the listing holds the current branch's backups, sorted, as a permutation |
| Backup.CreatedIsNew | git-backup.go:61-117 | a created backup starts with the base for the date and the target branch and points at the target reference |
| Backup.Run | git-backup.go:14-125 | the program gives the outcome of the backup function |
| BookmarkArgs.ParseArgs | git-bookmark.go:82-155 | the loop gives exactly the outcome of the parsing function |
| BookmarkArgs.ParsedKnown | git-bookmark.go:82-155 | an accepted action is a known one, and an action that needs a bookmark has one |
| BookmarkArgs.ShortcutsIgnoreRest | git-bookmark.go:95-103 | `-` and `interactive` are taken at once, whatever follows |
| BookmarkArgs.CheckoutPreviousWordRejected | git-bookmark.go:105-152 | the literal action word `checkout-previous` is refused |
| BookmarkArgs.CreatePositionals | git-bookmark.go:124-131 | `create` takes a name and a reference and refuses a third positional |
| BookmarkArgs.OnePositional | git-bookmark.go:132-137 | `delete`, `show`, `checkout` and `sync` take one name and refuse a second |
| BookmarkArgs.ListTakesNoPositional | git-bookmark.go:138-152 | `list` takes no positional argument |
| Bookmark.SortedNames | git-bookmark.go:266-272 | the names are sorted, distinct and exactly the given set |
| Bookmark.SortedUnique | git-bookmark.go:266-272 | two sorted, distinct listings of the same names are equal |
| Bookmark.LinesOf | git-bookmark.go:274-287 | one line per name, in order |
| Bookmark.PreviousAfterUpdate | git-bookmark.go:428-466 | after recording a bookmark as the latest, reading the latest gives it back |
| Bookmark.UpdatePreviousIdempotent | git-bookmark.go:428-446 | recording the same bookmark twice is the same as recording it once |
| Bookmark.CreateThenRead | git-bookmark.go:165-202 | after a creation the bookmark reads as its reference, other bookmarks are unchanged, and it is the latest |
| Bookmark.CreateValidatesFirst | git-bookmark.go:165-179 | an unknown reference, or no current branch, fails before anything is written |
| Bookmark.DeleteRemovesOnlyName | git-bookmark.go:204-222 | deleting removes that bookmark alone; a missing one is an error and changes nothing |
| Bookmark.ListSortedNames | git-bookmark.go:243-290 | the listing shows each file of the directory once, in sorted order |
| Bookmark.ListedAreReadable | git-bookmark.go:274-287 | no listed bookmark is unreadable |
| Bookmark.InteractiveChoice | git-bookmark.go:323-379 | a choice in range checks out that bookmark of the sorted list; out of range is an error that changes nothing |
| Bookmark.CheckoutEffects | git-bookmark.go:292-308 | a successful checkout moves HEAD to the reference and records the bookmark; the outcome is success exactly when the reference has at least eight bytes |
| Bookmark.CheckoutOfMainPanics | git-bookmark.go:302-306 | checking out a bookmark of `main` panics after the checkout |
| Bookmark.PreviousIsLatest | git-bookmark.go:310-321 | after a checkout, `-` checks out the same bookmark again |
| Bookmark.CheckoutPreviousNeedsTracking | git-bookmark.go:310-321 | without the tracking file `-` fails and changes nothing |
| Bookmark.SyncNeverReportsCreated | git-bookmark.go:381-406 | a sync always reports an existing branch, because it looks after the write |
| BookmarkRepository.Repository.GetBookmarkReference | git-bookmark.go:408-426 | the trimmed content of the bookmark file, or an error for a missing file or a directory |
| BookmarkRepository.Repository.GetPreviousBookmark | git-bookmark.go:448-466 | the trimmed content of the tracking file, or the empty name |
| BookmarkRepository.Repository.UpdatePreviousBookmark | git-bookmark.go:428-446 | the tracking file changes only when the bookmark differs from the one recorded |
| BookmarkRepository.Repository.CreateBookmark | git-bookmark.go:165-202 | the state and outcome of `create` |
| BookmarkRepository.Repository.DeleteBookmark | git-bookmark.go:204-222 | the state and outcome of `delete` |
| Bookmark.ShowReadsReference | git-bookmark.go:224-241 | `show` prints what the bookmark reads as, or with `--absolute` the commit it resolves to; a read failure is its error |
| Bookmark.ShowAfterCreate | git-bookmark.go:165-241 | after a creation, `show` prints the stored reference, and `--absolute` its commit |
| BookmarkRepository.Repository.ShowBookmark | git-bookmark.go:224-241 | the outcome of `show`, absolute or not |
| BookmarkRepository.Repository.ReadBookmarkNames | git-bookmark.go:254-272 | the entries that are no directory, in sorted order, whatever order the directory is read in |
| BookmarkRepository.Repository.PrintLines | git-bookmark.go:274-287 | the lines printed, and a panic exactly when some hash is shorter than eight bytes |
| BookmarkRepository.Repository.ListBookmarks | git-bookmark.go:243-290 | the outcome of `list` |
| BookmarkRepository.Repository.CheckoutBookmark | git-bookmark.go:292-308 | the state and outcome of `checkout` |
| BookmarkRepository.Repository.CheckoutPreviousBookmark | git-bookmark.go:310-321 | the state and outcome of `-` |
| BookmarkRepository.Repository.InteractiveCheckout | git-bookmark.go:323-379 | the state and outcome of the menu |
| BookmarkRepository.Repository.SyncBranchFromBookmark | git-bookmark.go:381-406 | the state and outcome of `sync` |
| BookmarkRepository.Repository.Run | git-bookmark.go:21-79 | the dispatch on the action |
| Split.ParseFlags | git-split.go:18-65 | accepted flags never combine commit with no-add, force implies no-add, and a message implies commit |
| Split.ParseSplitArgs | git-split.go:18-65 | the loop and checks give exactly the outcome of the flag function |
| Split.MessageEnablesCommit | git-split.go:29-33 | `-m msg` turns on the commit with that message |
| Split.MessageWithoutValueRejected | git-split.go:34-36 | `-m` as the last argument is an error |
| Split.UnknownArgumentRejected | git-split.go:41-44 | an unknown argument is reported by name |
| Split.IncompatibleSwitches | git-split.go:48-59 | `--no-add` with `--commit`, and `--force` with a message, are refused in either order |
| Split.FirstFailure | git-split.go:91-153 | the first step that fails: all steps before it succeed |
| Split.RunPlanStopsAtFirstFailure | git-split.go:91-153 | the steps run in order up to and including the first failure, and the failure names that step |
| Split.RunPlanDiffFile | git-split.go:106-118 | once the diff is written, the file remains |
| Split.PlanSteps | git-split.go:91-153 | staging runs exactly without no-add, committing exactly with commit and its message, backing up exactly with backup |
| Split.SplitRunsPlanInOrder | git-split.go:67-153 | a split that gets past the checks runs its steps in order and stops at the first failure |
| Split.NothingStagedChangesNothing | git-split.go:79-87 | without staged changes nothing is done |
| Split.ForceSkipsUnstagedCheck | git-split.go:67-77 | with `--force` the unstaged status is not consulted |
| Split.DiffFileAfterSplit | git-split.go:113-118 | a completed split removes the diff file; a failure after it was written leaves it |
| Split.Repository.Do | common/git.go:227-267 | one step's status and its effect on the workspace |
| Split.Repository.RunSteps | git-split.go:91-153 | the steps' effect, as the plan function defines |
| Split.Repository.Run | git-split.go:9-178 | the state and outcome of a split |
| MoveBranch.ParseMoveArgs | git-move-branch.go:20-55 | accepted arguments name a branch |
| MoveBranch.ParseArgs | git-move-branch.go:20-55 | the loop gives exactly the outcome of the parsing function |
| MoveBranch.BranchFlagRequired | git-move-branch.go:50-55 | without `-b` or `--branch` nothing is accepted |
| MoveBranch.ValueFlagsNeedValue | git-move-branch.go:29-42 | `-b` and `--to` as last argument are errors with their messages |
| MoveBranch.LastBranchWins | git-move-branch.go:29-35 | a second `-b` overrides the first |
| MoveBranch.UnknownArgumentRejected | git-move-branch.go:43-47 | an unknown argument is reported by name |
| MoveBranch.Min | git-move-branch.go:181-186 | the smaller of two numbers |
| MoveBranch.Short | git-move-branch.go:139-140 | the first eight characters of a commit, or all of a shorter one |
| MoveBranch.BackupFailureStopsBeforeMove | git-move-branch.go:79-88 | a failed backup stops before anything changes |
| MoveBranch.MovedOnlyExisting | git-move-branch.go:57-74 | a move happens only for an existing branch and an existing target, with HEAD as the default |
| MoveBranch.MovedBranchPointsAtTarget | git-move-branch.go:97-122 | after a move the branch holds the commit `git branch -f` resolves the reference to, with HEAD where the move finds it; that is the summary's target commit when the resolution agrees with the first one; no other branch changes, and the backup is recorded when asked |
| MoveBranch.RelativeTargetResolvedTwice | git-move-branch.go:97-122 | moving the current branch to `HEAD~1` can put it two commits back while the summary shows one commit back |
| MoveBranch.MoveStepsMoves | git-move-branch.go:104-141 | the steps after the checks move the branch to the reference as resolved at the move, leave the backups alone and show the reference in the summary |
| MoveBranch.CurrentBranchDetachesFirst | git-move-branch.go:108-115 | moving the current branch checks out the target commit first; if that fails nothing changes |
| MoveBranch.CheckoutAfterMove | git-move-branch.go:124-131 | the branch is checked out when asked or when it was current; a failed checkout is only a warning |
| MoveBranch.CurrentLeftDetached | git-move-branch.go:108-131 | when the final checkout of the current branch fails, HEAD stays detached on the target commit |
| MoveBranch.SummaryCommits | git-move-branch.go:90-95 | the summary commits have at most eight characters, and an unknown old commit shows as `unknown` |
| MoveBranch.Repository.IsCurrentBranch | git-move-branch.go:104-106 | whether the branch is the current one |
| MoveBranch.Repository.MoveAndCheckout | git-move-branch.go:108-131 | the state and outcome of the checkout, move and checkout steps |
| MoveBranch.Repository.Run | git-move-branch.go:10-148 | the state and outcome of a move |
| NewBranch.Parse | git-new-branch.go:60-98 | accepted options name a branch |
| NewBranch.ParseArgs | git-new-branch.go:60-98 | the loop gives exactly the outcome of the parsing function |
| NewBranch.DefaultOptions | git-new-branch.go:61-64 | a name alone uses `origin` and checks out |
| NewBranch.HelpBecomesBranchName | git-new-branch.go:84-88 | `--help` and `-h` are taken as branch names |
| NewBranch.SecondNameRejected | git-new-branch.go:85-87 | a second name is an error |
| NewBranch.OnlySwitchesNoName | git-new-branch.go:92-94 | switches without a name report the missing name |
| NewBranch.RemoteAndNoCheckout | git-new-branch.go:76-83 | `-r` sets the remote and needs a value; `-n` turns the checkout off |
| NewBranch.CreatedFromRemoteMain | git-new-branch.go:29-48 | a created branch points at the fetched `<remote>/<main branch>` |
| NewBranch.CheckedOutUnlessNoCheckout | git-new-branch.go:50-56 | HEAD is on the new branch unless `--no-checkout` was given |
| NewBranch.NoArgumentsShowUsage | git-new-branch.go:66-69 | no arguments shows the usage and changes nothing |
| NewBranch.Repository.CreateBranch | common/git.go:66-69 | on success the branch holds the commit of the reference it is made from; an unknown start point fails and changes nothing |
| NewBranch.Repository.Run | git-new-branch.go:16-58 | the state and outcome of `new-branch` |
| GitGet.Scan | git-get.go:68-83 | the options loop never changes the subcommand |
| GitGet.Parse | git-get.go:43-86 | accepted options are for `main-branch` |
| GitGet.ParseArgs | git-get.go:43-86 | the parsing with the source's variables gives the outcome of the parsing function |
| GitGet.DefaultsAndHelp | git-get.go:43-86 | the subcommand alone asks `origin`; `--help` is honoured only in first place |
| GitGet.RemoteFlag | git-get.go:71-78 | `--remote` needs a value, and the last one wins |
| GitGet.OtherSubcommandRejected | git-get.go:60-63 | any other subcommand is refused |
| GitGet.OutputLine | git-get.go:36-39 | the printed line is the name, preceded by `<remote>/` with `--include-remote`, and ends in a newline |
| GitGet.PrintsMainBranch | git-get.go:29-39 | for `<remote>/<name>`, the name is printed, with the remote in front when asked |
| GitGet.QueryFailureReported | git-get.go:29-34 | a failed query reports git's output |
| GitGet.Run | git-get.go:16-41 | the outcome of `get` |

## Left out

- Printing, colours and the usage texts: only the outcome of each branch is modelled, not what is printed.
- Running git: each git call is a field of an `Env` value. Its answer is a parameter, and its effect on the repository is stated as the source expects it.
- The `IsGitRepository` check at the start of every tool: it is assumed to pass.
- Filesystem write failures other than a missing file: writing the state file, creating the bookmark directory and removing files are assumed to succeed.
- `GetGitDirectory`: its failure is modelled only as the `LocateGitDir` step of `git split`.
- The date, the typed confirmation and the menu choice: they are parameters, not `time.Now` or `fmt.Scanln`.
- The regexp in `getNextBackupNumber`: it is written as a digit run after `base-`. Go's `sort.Strings` is replaced by a sort proved to order the same way.
- git's error texts: each is an abstract string passed through.
- Invalid UTF-8: strings are sequences of characters, and byte lengths are counted from their code points.
- Bookmark names containing `/`: the bookmark directory is a flat map.
- Backup.ListSpec: the listing's `commitHash[:8]` (git-backup.go:266-268) is not modelled, so a hash shorter than eight bytes does not panic there. The hash comes from `git rev-parse`, which prints forty hexadecimal characters, so the panic needs output git does not give.
- NewBranch.Repository.FetchBranch: common.FetchBranch is not part of this model. Its effect is assumed to update `<remote>/<name>`.
- MoveBranch.Repository.CheckoutCommit: common.CheckoutCommit is not part of this model. Its effect is assumed to detach HEAD at the commit.
- MoveBranch.Repository.CheckoutBranch: common.CheckoutBranch is not part of this model. Its effect is assumed to put HEAD on the branch.
- MoveBranch.MovedBranchPointsAtTarget: `refExists`, `revParse` and `landing` are independent answers, not read from the branch map or the commit graph. So the model does not tie the commit `git branch -f` lands on to the one `rev-parse` gave; the lemma takes their agreement as a hypothesis.
- MoveBranch.Short: it cuts characters, where Go cuts bytes. For hexadecimal hashes the two agree.
- Split.SplitSpec: the two `git status` runs are separate answers. The step effects are recorded as a log, not as a change to the index and commits.
- Split.Repository.Do: `CreateCommit` without a message opens an editor. It is modelled as one more step that succeeds or fails.
- The cherry-pick answers of `git reparent`: whether a cherry-pick succeeds, conflicts or fails is a function of the commit. It does not depend on the tree.
- Concurrency and signals: there are none in the source beyond the processes it runs.

## Notes on the source

These are places where the code does something a reader might not expect.
The model follows the code in each of them.

- **git-reparent.go:**
  - An empty commit range is an error (138-141).
  - `-n 1` with `--from` is accepted, because the clash check only rejects a count other than one.
  - Starting does not check whether a reparent is already in progress.
  - Finishing deletes the state before it moves the branch. So a failed move cannot be resumed (`Reparent.FailedMoveCannotResume`).
  - Loading the state never reports a corrupt file.
  - The error branch after saving the state cannot be reached with the model's file system.
- **git-bookmark.go:**
  - `-` checks out the bookmark recorded last, which checkout itself has just updated.
  - `sync` looks up whether the branch existed after writing it, so it never reports a created branch.
  - The action word `checkout-previous` is refused by the parser, which reaches it only through `-`.
- **git-backup.go:**
  - A reference given before `--purge` or `--list` is accepted and then ignored.
  - The next backup number wraps at the largest 64-bit integer.
- **git-new-branch.go:** `--help` is not a flag there, so it becomes the branch name.
- **git-split.go:** the deferred removal of the diff file does not run on `os.Exit`, so the file survives every failure after it is written.
- **git-move-branch.go:**
  - When the final checkout of the moved current branch fails, HEAD is left detached on the target commit.
  - The branch is moved with the reference text (119), not with the commit read before (98). For the current branch HEAD has already been detached at that commit (111), so a reference relative to HEAD is resolved a second time from there: with `-t HEAD~1` the branch ends two commits back while the summary shows one (`MoveBranch.RelativeTargetResolvedTwice`).
