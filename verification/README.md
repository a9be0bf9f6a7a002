# Durable journals and step protocols of cc-remote, in Dafny

A Dafny 4.11 model of the parts of cc-remote that must not lose, repeat or mix
up work, with proofs of what they promise. `dafny verify dfyconfig.toml` checks
the whole project.

| files | what they model |
|---|---|
| `Checkpoint*.dfy` | the Codex checkpoint journal: turn records, rollback, the write-ahead restore and its recovery after crashes |
| `Fork*.dfy` | the Claude fork journal: at-most-once submission, aliases, resolution, compaction |
| `Schedule*.dfy` | the work schedule registry: due occurrences, leases, retries, tombstones |
| `Relay*.dfy` | relay clients: bounded connections, connection generations, routing under two locks |
| `Broker*.dfy` | broker terminal sessions: history, live subscriptions, the keyboard, control output |
| `Tui*.dfy` | the terminal client's outbox and its replay after a reconnect |
| `Transcript.dfy` | turn boundaries read incrementally from a transcript |
| `LoginLimiter.dfy` | the sliding-window login limiter |
| `Caddy*.dfy` | the managed blocks of a Caddyfile and the scanners they need |
| `Dotenv*.dfy` | the dotenv printer and parser |
| `PyText.dfy`, `PyLines.dfy`, `Wrappers.dfy` | Python's white space, line breaks and `splitlines`; `Option` and `Result` |

Objects whose methods change their fields are classes with those fields. Their
methods are proved against specification functions, and the laws are lemmas
about those functions: over every input, every run of calls, every crash point
or every interleaving of steps. History that the program does not store
(every durable state so far, every admission, every output byte) is kept in
ghost fields or in the model state, only to state the laws.

## How the main parts are modelled

**Checkpoint journal.** A worktree is a map from paths to files with a kind,
contents and permission; the index and the manifest are values, and saving the
manifest replaces it in one durable step. `faulty` says the environment may
fail a save, a capture or a write; every durable state is appended to `trail`,
and the contracts say which states a crash can find. `lateWork` and `lateIndex`
are what other programs leave between the first capture of a rollback and its
second one.

**Broker sessions.** The subscriptions, the current ones and the keyboard owner
are one table; the laws are about runs of joins, leaves, sends and takes on it,
and the class does exactly those steps.

**Fork journal.** A save succeeds, is lost, or reaches the file and is still
reported as failed. `claimed` is the set of retained roots for which a claim
returned true; it survives reloads, so at-most-once spans process lives.

**Schedules.** Each transaction is one step on two maps. Times are reals.

**Relay.** What runs under the hub lock is one step; the wrapper send lock is
held from the ownership check to the send. Connection ids grow, and the id is
also the route id. Every interleaving is a sequence of such steps.

**Caddyfile.** The literal texts are a parameter; what the proofs need of them
is `WellFormed`, proved of the program's own texts.

## Where the code differs from its documentation

- The rollback docstring calls a repeated non-consuming restore idempotent
  (`cc_remote/wrapper/codex_checkpoints.py:934-935`). The code refuses the
  repeat when two selected turns recorded different pre-images of one path.
  `RepeatedRollBack` gives the exact condition, `TwoEditsRefuseRepeat` the
  failing family.
- A restore of turns that changed no file still writes a marker. If the process
  dies before the final save, recovery rejects the empty marker
  (`cc_remote/wrapper/codex_checkpoints.py:868-871`) and the journal stays
  closed. `RestoreIsAtomic` therefore says when reopening completes.
- `complete_schedule` does not look at the run's status
  (`cc_remote/workspaces.py:777-782`): a late failure report can requeue a
  finished run beside an active one, and the shipped caller can send one
  (`cc_remote/wrapper/machine.py:2165-2196`: an exception after the success
  report has the same run reported as failed). `CompletionIsSafeIff` is exact;
  every other law of the tables holds from then on too.
- A restore whose failure path could not write the originals back leaves its
  marker, and the running object goes on. `ReopenRewritesIff` says when the next
  opening rewrites files edited since, `LaterEditIsLost` gives a family,
  `LaterTurnBlocksReopen` says when none succeeds, and the laws of rollbacks and
  of `RestoreIsAtomic` cover journals that hold such a marker.
- `unsubscribe` clears the keyboard by owner name
  (`cc_remote/claude_broker/session.py:547-557`), which is right exactly when
  the name is not shared. The shipped caller gives every attachment a fresh
  uuid4 name (`cc_remote/claude_broker/server.py:324`), so names are never
  shared there: `RunKeepsOneKeyboard` covers it, and
  `SharedOwnerGetsTwoKeyboards` is about other uses of the class.
- `render_managed_caddyfile` promises to keep everything outside the site
  markers byte for byte (`deploy/caddy_managed_block.py:232-236`). It also
  replaces the limits lines, adds separator newlines and may add a global
  block; `OutsideIsKept` says exactly what. Limits lines that surround the site
  block take the site with them, and limits lines that close a brace opened
  before them make a second rendering fail; `RenderTwice` is exact.
- The broker transcript parser promises that later records remain recoverable
  after an oversized one (`cc_remote/wrapper/claude_broker_history.py:69-71`).
  They do (`LaterRecordsAreRead`), but the rest of the oversized line is then
  read as a line of its own; `ChunksAgreeIff` says exactly when that shows.
- The first login attempt of an address is not held to its own cap
  (`cc_remote/relay/server.py:193-194`): `Refuses`, in the contract of `Limited`,
  asks for a stored list first. It matters for a cap of zero only, which no
  caller passes.
- A line separator in a dotenv value is printed as it is
  (`cc_portable_control/windows/win_config.py:277-282`), and such a value never
  comes back; `FileRoundTripIff` is exact.
- A queued switch to an ephemeral session is resent after the recovery's own
  switches, so the replay can end elsewhere than on the focused session
  (`cc_remote/tui.py:512-519`); `ReplayRestoresFocus` is exact.

## Model

| member | source | states |
|---|---|---|
| `CheckpointRestore.RestoreIsAtomic` | cc_remote/wrapper/codex_checkpoints.py:863-925 | Over every journal, one with a marker left by an earlier call included: when the first crash of a rollback came past the marker save, then after any number of crashes during reopening a reopening completes exactly when the marker is gone or lists a path, and leaves either the original files and turns or the target files and finalized turns, with the marker cleared; when it came before, the outcome is that of opening the journal as it was before the call |
| `CheckpointRestore.CrashRunStays` | cc_remote/wrapper/codex_checkpoints.py:1080-1131 | Every durable state reached by further crashes in recovery is still one of the states past the marker save that recovery was written for |
| `CheckpointRestore.ReopenAgain` | cc_remote/wrapper/codex_checkpoints.py:863-925 | Opening is atomic on its own: cut short at any write, from whatever files and marker, the next opening refuses or settles exactly as the first would have |
| `CheckpointRestore.ReopenSettles` | cc_remote/wrapper/codex_checkpoints.py:863-925 | Recovery of a half-written restore completes if and only if the marker lists a path, and settles on one of the two whole states |
| `CheckpointRestore.ReopenRefusedIff` | cc_remote/wrapper/codex_checkpoints.py:863-911 | Recovery refuses exactly when the marker lists nothing, the tree cannot be captured, some file matches neither image, or the target is there but the marked turns are no longer the newest |
| `CheckpointRestore.EmptyRestoreCannotReopen` | cc_remote/wrapper/codex_checkpoints.py:868-871 | A concrete history: a turn that changed no file is rolled back, the process dies after the marker save, and the journal can never be opened again |
| `CheckpointRestore.ReopenRewritesIff` | cc_remote/wrapper/codex_checkpoints.py:863-925 | Whatever else was done since, opening the journal rewrites files exactly when the listed ones hold original and target images and neither side is complete; it then puts back every listed original and nothing else |
| `CheckpointRestore.LaterTurnBlocksReopen` | cc_remote/wrapper/codex_checkpoints.py:885-904 | A marker left behind, all its target images there, and a newer turn recorded: every opening is refused until a file changes |
| `CheckpointRestore.LaterEditIsLostIff` | cc_remote/wrapper/codex_checkpoints.py:885-925 | After a failed rollback and a later turn, opening the journal undoes that turn at a path exactly when the listed files are half written and the path is listed and not original |
| `CheckpointRestore.LaterEditIsLost` | cc_remote/wrapper/codex_checkpoints.py:885-925 | A family: two files left one restored and one not, which a later turn swapped; opening undoes one of its edits and keeps its record |
| `CheckpointRestore.InFlightFacts` | cc_remote/wrapper/codex_checkpoints.py:826-843 | While a restore is in flight no file is in a third state, and undoing the listed files gives exactly the original worktree |
| `CheckpointJournal.CodexCheckpointJournal.Rollback` | cc_remote/wrapper/codex_checkpoints.py:927-1142 | A refusal (count, open turn, missing record, file or index conflict, late edit) writes nothing; otherwise every durable state is a crash point of one planned restore and success is its commit, with the ids newest first |
| `CheckpointJournal.CodexCheckpointJournal.PlanTargets` | cc_remote/wrapper/codex_checkpoints.py:970-1019 | The newest-first loop over the selected records computes the planned image of every touched path, or the first conflict |
| `CheckpointJournal.CodexCheckpointJournal.CheckTurns` | cc_remote/wrapper/codex_checkpoints.py:947-1032 | The checks before the second look at the files give the planned images or the first refusal, as specified |
| `CheckpointJournal.CodexCheckpointJournal.ApplyPlan` | cc_remote/wrapper/codex_checkpoints.py:1068-1138 | With files to restore it goes through the marker; without, only the record list is saved |
| `CheckpointJournal.CodexCheckpointJournal.CommitRestore` | cc_remote/wrapper/codex_checkpoints.py:1080-1131 | Marker, files, final save: success commits, a failed apply or save writes the originals back, every state on the way is a crash point |
| `CheckpointJournal.CodexCheckpointJournal.RestoreOriginals` | cc_remote/wrapper/codex_checkpoints.py:1096-1131 | The failure path ends with the original files and no marker, or leaves a marker that recovery understands |
| `CheckpointJournal.CodexCheckpointJournal.WriteOriginals` | cc_remote/wrapper/codex_checkpoints.py:1096-1120 | Going back keeps the restore in flight at every state, and success gives the original worktree |
| `CheckpointJournal.CodexCheckpointJournal.UndoHalfWritten` | cc_remote/wrapper/codex_checkpoints.py:911-925 | Recovery of a half-written restore writes the originals and clears the marker, and every state on the way can be recovered again |
| `CheckpointJournal.CodexCheckpointJournal.ApplyEntries` | cc_remote/wrapper/codex_checkpoints.py:1224-1289 | Deletions then writes give exactly the wanted images and touch no other path; cut short, every listed path is old or new |
| `CheckpointJournal.CodexCheckpointJournal.WriteFiles` | cc_remote/wrapper/codex_checkpoints.py:1224-1289 | The per-file loop, in any order: each state on the way is a blend of old and new files |
| `CheckpointJournal.CodexCheckpointJournal.Reopen` | cc_remote/wrapper/codex_checkpoints.py:863-925 | Opening the journal does what the recovery specification says, and writes nothing when it refuses |
| `CheckpointJournal.CodexCheckpointJournal.constructor` | cc_remote/wrapper/codex_checkpoints.py:195-241 | A new journal has no turn, no open turn and no marker |
| `CheckpointJournal.CodexCheckpointJournal.BeginTurn` | cc_remote/wrapper/codex_checkpoints.py:544-569 | Refused while a turn is open or for a recorded id; otherwise the open turn holds the captured tree and index, not yet accepted |
| `CheckpointJournal.CodexCheckpointJournal.AcceptTurn` | cc_remote/wrapper/codex_checkpoints.py:571-582 | Only the open turn of that id becomes accepted |
| `CheckpointJournal.CodexCheckpointJournal.FinishTurn` | cc_remote/wrapper/codex_checkpoints.py:584-697 | Only an accepted open turn finishes; changed Git links or a changed index drop it with an error; over the size limit all records become tombstones |
| `CheckpointJournal.CodexCheckpointJournal.AbortTurn` | cc_remote/wrapper/codex_checkpoints.py:782-796 | Withdraws the open turn of that id and nothing else |
| `CheckpointJournal.CodexCheckpointJournal.RecordUnavailable` | cc_remote/wrapper/codex_checkpoints.py:699-728 | One tombstone for an unrecorded turn, nothing for a recorded one |
| `CheckpointJournal.CodexCheckpointJournal.RecoverActiveAsUnavailable` | cc_remote/wrapper/codex_checkpoints.py:730-767 | An accepted open turn becomes a tombstone, an unaccepted one is dropped |
| `CheckpointJournal.CodexCheckpointJournal.Discard` | cc_remote/wrapper/codex_checkpoints.py:1144-1169 | Drops exactly the newest records and names them newest first, without touching a file |
| `CheckpointJournal.QuietRollback` | cc_remote/wrapper/codex_checkpoints.py:927-1142 | Without outside edits the object does exactly the rollback whose laws are proved |
| `CheckpointJournal.QuietRefusal` | cc_remote/wrapper/codex_checkpoints.py:947-1067 | Without outside edits it is refused exactly when its plan is |
| `CheckpointJournal.MarkerFits` | cc_remote/wrapper/codex_checkpoints.py:1034-1094 | When no late conflict is found the planned marker describes the files that are there now |
| `CheckpointRollback.RollBackMeansUndo` | cc_remote/wrapper/codex_checkpoints.py:947-1067 | One call for n turns succeeds exactly when undoing them one at a time, newest first, succeeds, and gives the same files; a marker left earlier goes exactly when a selected turn still had files to restore |
| `CheckpointRollback.RollBackComposes` | cc_remote/wrapper/codex_checkpoints.py:927-1142 | Consuming j + k turns in one call succeeds exactly when consuming j and then k does, with the same files and turns |
| `CheckpointRollback.RollBackInverts` | cc_remote/wrapper/codex_checkpoints.py:606-624 | After k contiguous finished turns rolling back k gives every path the entry and permission the first of them started from |
| `CheckpointRollback.ContiguousUndo` | cc_remote/wrapper/codex_checkpoints.py:970-1019 | Undoing contiguous finished turns gives the worktree they started from |
| `CheckpointRollback.CompletedImages` | cc_remote/wrapper/codex_checkpoints.py:606-624 | A finished record lists exactly the paths whose file changed, with their images before and after |
| `CheckpointRollback.CompletedUndoes` | cc_remote/wrapper/codex_checkpoints.py:606-640 | A record just finished can be undone, and doing so gives the files from before the turn |
| `CheckpointRollback.RollBackFrames` | cc_remote/wrapper/codex_checkpoints.py:1068-1142 | A successful call changes only paths its turns list, never the index |
| `CheckpointRollback.OldestWins` | cc_remote/wrapper/codex_checkpoints.py:1009-1019 | Of several selected turns touching a path, the oldest one decides what it becomes |
| `CheckpointRollback.RepeatedRollBack` | cc_remote/wrapper/codex_checkpoints.py:934-935 | A repeated non-consuming restore succeeds if and only if records of one path share its pre-image, and then changes nothing |
| `CheckpointRollback.RestoredUndoable` | cc_remote/wrapper/codex_checkpoints.py:1132-1138 | The exact condition under which records already restored pass the preflight again |
| `CheckpointRollback.TwoEditsRefuseRepeat` | cc_remote/wrapper/codex_checkpoints.py:970-1019 | Two contiguous turns that both changed a file: restored once without consuming, the second try is always refused |
| `CheckpointRollback.RepeatCanBeRefused` | cc_remote/wrapper/codex_checkpoints.py:934-935 | A concrete journal on which the repeat is refused |
| `CheckpointRollback.PlanRestorable` | cc_remote/wrapper/codex_checkpoints.py:970-1032 | The plan covers exactly the touched paths, with images that can be written |
| `CheckpointRecords.PreflightIsUndo` | cc_remote/wrapper/codex_checkpoints.py:970-1019 | Planning on images, without touching a file, agrees with undoing on files in success, result and touched paths |
| `CheckpointRecords.UndoableIffNoConflict` | cc_remote/wrapper/codex_checkpoints.py:970-1008 | No file conflict and no staged conflict means the record can be undone, and conversely |
| `CheckpointRecords.UndoTurnsSplit` | cc_remote/wrapper/codex_checkpoints.py:970-1019 | Undoing a run of turns is undoing the newer part, then the older part |
| `CheckpointRecords.UndoFrames` | cc_remote/wrapper/codex_checkpoints.py:1009-1019 | Undoing changes no path that no record lists |
| `CheckpointImages.CaptureKeepsImages` | cc_remote/wrapper/codex_checkpoints.py:477-514 | Splitting a worktree into a Git tree and permission overrides loses no entry and no permission |
| `CheckpointImages.ImagesRoundTrip` | cc_remote/wrapper/codex_checkpoints.py:501-514 | A file written from an image reads back as that image, and the image of a file restores that file |
| `CheckpointImages.PatchTwice` | cc_remote/wrapper/codex_checkpoints.py:1224-1289 | Writing images over images is writing the later ones only |
| `CheckpointImages.PatchCapturable` | cc_remote/wrapper/codex_checkpoints.py:1224-1289 | A restore leaves a worktree that can be captured again |
| `CheckpointTurns.AlignedRun` | cc_remote/wrapper/codex_checkpoints.py:400-403 | Over every run of calls, with recovery after crashes, the records and the open turn are exactly the retained native turns in order: ids distinct, the open id never recorded, at most the newest 100 kept |
| `CheckpointTurns.AlignedCall` | cc_remote/wrapper/codex_checkpoints.py:544-796 | Each call keeps that alignment, whatever it returns |
| `CheckpointTurns.AlignedFinish` | cc_remote/wrapper/codex_checkpoints.py:584-697 | Finishing an accepted turn records it once, a refused finish withdraws it from the count, retention keeps its place |
| `CheckpointTurns.AlignedRecover` | cc_remote/wrapper/codex_checkpoints.py:730-767 | An accepted turn found open after a crash is recorded once, an unaccepted one not at all |
| `CheckpointTurns.AlignedUnavailable` | cc_remote/wrapper/codex_checkpoints.py:699-728 | A native turn without a checkpoint still takes one place |
| `CheckpointTurns.AlignedDrop` | cc_remote/wrapper/codex_checkpoints.py:1144-1169 | Dropping the newest records drops the same native turns |
| `ForkJournal.SubmissionAtMostOnce` | cc_remote/wrapper/claude_forks.py:322-342 | Over any calls and reloads, a second successful claim for one root needs the root to have been dropped in between |
| `ForkJournal.ClaimIsRemembered` | cc_remote/wrapper/claude_forks.py:322-342 | Once claimed and while retained a root is never back at intent, in memory or after a reload |
| `ForkJournal.ClaimNeedsIntent` | cc_remote/wrapper/claude_forks.py:322-342 | At a claim the root is at intent, and so it was at every step since it was written |
| `ForkJournal.RowsNeverGoBack` | cc_remote/wrapper/claude_forks.py:350-417 | While a row is retained its status never goes back and its source, marker and root stay the same |
| `ForkJournal.UnresolvedIsKept` | cc_remote/wrapper/claude_forks.py:235-275 | Over any calls and reloads, a row once unresolved and later gone was completed or rejected at a step in between |
| `ForkJournal.ClaudeForkJournal.Begin` | cc_remote/wrapper/claude_forks.py:209-275 | An existing request is returned unchanged or refused for another source; a new one is an alias of the one open root of its source, or an intent when there is none, and only resolved rows make room for it |
| `ForkJournal.ClaudeForkJournal.FindOpenRoot` | cc_remote/wrapper/claude_forks.py:239-251 | Finds the root of the open request of a source message, or proves there is none |
| `ForkJournal.ClaudeForkJournal.Insert` | cc_remote/wrapper/claude_forks.py:253-275 | Writes exactly one new row with its marker and root |
| `ForkJournal.ClaudeForkJournal.Compact` | cc_remote/wrapper/claude_forks.py:253-260 | Makes room by dropping whole resolved groups; fails exactly when the journal is full of unresolved requests |
| `ForkJournal.ClaudeForkJournal.TerminalGroupForCompaction` | cc_remote/wrapper/claude_forks.py:278-300 | Returns a whole group resolved one way, or nothing when every row is unresolved |
| `ForkJournal.ClaudeForkJournal.ClaimSubmission` | cc_remote/wrapper/claude_forks.py:322-342 | Returns true only after "submitted" of the root is on disk, false when the root has left intent, and changes only that status |
| `ForkJournal.ClaudeForkJournal.MarkUncertain` | cc_remote/wrapper/claude_forks.py:350-366 | Only a submitted root becomes uncertain, and nothing else changes |
| `ForkJournal.ClaudeForkJournal.Complete` | cc_remote/wrapper/claude_forks.py:368-395 | Succeeds exactly for a submitted, uncertain or equally completed root, and gives the whole group that child |
| `ForkJournal.ClaudeForkJournal.Reject` | cc_remote/wrapper/claude_forks.py:397-417 | Succeeds exactly when the root is not complete, and gives the whole group one bounded error |
| `ForkJournal.ClaudeForkJournal.ResolveRows` | cc_remote/wrapper/claude_forks.py:380-392 | The loop rewrites every row of the marker and moves those rows to the end in order |
| `ForkJournal.ClaudeForkJournal.ResolveMarker` | cc_remote/wrapper/claude_forks.py:380-417 | All rows of the marker are resolved one way and saved, or nothing is |
| `ForkJournal.ClaudeForkJournal.Persist` | cc_remote/wrapper/claude_forks.py:429-457 | The file is replaced before the dictionary; a failed save leaves the dictionary and either file |
| `ForkJournal.ClaudeForkJournal.Reload` | cc_remote/wrapper/claude_forks.py:110-133 | Whatever was saved can be loaded again, and loading forgets no claim |
| `ForkJournal.BeginKeepsForest` | cc_remote/wrapper/claude_forks.py:262-275 | A new intent or alias keeps the alias forest and at most one open root for a source |
| `ForkJournal.OpenStepKeepsForest` | cc_remote/wrapper/claude_forks.py:334-341 | Submitting or marking uncertain keeps the forest |
| `ForkJournal.ResolveKeepsForest` | cc_remote/wrapper/claude_forks.py:380-392 | Resolving a group keeps every alias compatible with its root |
| `ForkJournal.CompactKeepsForest` | cc_remote/wrapper/claude_forks.py:254-260 | Dropping a resolved group leaves no alias without its root and loses no unresolved request |
| `ForkJournal.TerminalIffResolved` | cc_remote/wrapper/claude_forks.py:278-300 | In a forest a group can be compacted exactly when any of its rows is resolved |
| `ForkRows.GroupsAreTrees` | cc_remote/wrapper/claude_forks.py:182-207 | The rows of one marker are one root and its aliases: same source, resolved or unresolved together |
| `ScheduleRuns.DeletedIsNeverClaimed` | cc_remote/workspaces.py:593-630 | Over any run of the registry, late failure reports included, no run of a deleted or tombstoned schedule is claimed again |
| `ScheduleRuns.GoneForever` | cc_remote/workspaces.py:593-630 | A deleted schedule never comes back |
| `ScheduleRuns.OneActiveUntilLate` | cc_remote/workspaces.py:748-793 | Over any run of the registry a schedule keeps at most one active run exactly as long as no completion puts a run of it back beside another active one |
| `ScheduleRuns.WorkRegistry.ClaimDueSchedules` | cc_remote/workspaces.py:632-721 | Expires leases, queues the earliest due schedules, claims the earliest ready runs up to the limit, each with a fresh lease |
| `ScheduleRuns.WorkRegistry.QueueOccurrences` | cc_remote/workspaces.py:667-698 | The due rows are handled in order of their next run, up to the limit |
| `ScheduleRuns.WorkRegistry.ClaimReady` | cc_remote/workspaces.py:699-720 | Each ready run is claimed once, every other row is untouched |
| `ScheduleRuns.OrderByLimit` | cc_remote/workspaces.py:667-672 | ORDER BY with LIMIT: the smallest keys in order, all of them when there are fewer |
| `ScheduleRuns.WorkRegistry.CreateSchedule` | cc_remote/workspaces.py:574-591 | A new enabled schedule under an unused id |
| `ScheduleRuns.WorkRegistry.DeleteSchedule` | cc_remote/workspaces.py:593-630 | Queued and claimed runs go, a schedule with a running run stays as a tombstone |
| `ScheduleRuns.WorkRegistry.MarkScheduleRunning` | cc_remote/workspaces.py:723-734 | Only a claimed run starts running, with a new lease |
| `ScheduleRuns.WorkRegistry.RenewScheduleRun` | cc_remote/workspaces.py:736-746 | Only a claimed or running run gets a longer lease |
| `ScheduleRuns.WorkRegistry.CompleteSchedule` | cc_remote/workspaces.py:748-793 | A failure below the attempt limit is requeued; the row bounds always stay, and the one-active-run rule of the schedule is lost exactly by a late requeue |
| `ScheduleTables.CompletionIsSafeIff` | cc_remote/workspaces.py:777-782 | A completion leaves the one-active-run rule of every other schedule as it was; for its own schedule the rule survives if and only if a requeued run is the only active one |
| `ScheduleTables.CompletedOwn` | cc_remote/workspaces.py:748-793 | From any table: when exactly at most one run of the schedule is active after a completion |
| `ScheduleTables.CompletingActiveRunIsSafe` | cc_remote/workspaces.py:748-793 | Completing a queued, claimed or running run is always safe |
| `ScheduleTables.LateFailureBreaksOneActive` | cc_remote/workspaces.py:777-782 | A concrete registry: a failure report for a run that already succeeded leaves two active runs |
| `ScheduleTables.OccurKeeps` | cc_remote/workspaces.py:673-698 | A processed occurrence gets exactly one run row, so the ignored insert never happens; a busy schedule is left alone; a repeat moves past now by at most one period; the one-active-run rule stays where it held |
| `ScheduleTables.NextRunIsUnique` | cc_remote/workspaces.py:688-692 | The next run is the only time of the schedule's grid in the period after now |
| `ScheduleTables.ExpireKeeps` | cc_remote/workspaces.py:647-666 | Expired leases are requeued or failed, and attempts stay bounded, whatever runs are active: queued runs under three, no run over three |
| `ScheduleTables.ClaimKeeps` | cc_remote/workspaces.py:699-720 | A claim keeps all row bounds and is never of a deleted schedule, whatever runs are active |
| `ScheduleTables.DeleteKeeps` | cc_remote/workspaces.py:593-630 | Deleting keeps running rows and the runs of other schedules, and leaves no queued or claimed run |
| `ScheduleTables.LeaseKeeps` | cc_remote/workspaces.py:723-746 | Starting and renewing keep the row bounds and the one-active-run rule where it held |
| `ScheduleTables.CreateKeeps` | cc_remote/workspaces.py:574-591 | Creating keeps the row bounds and the one-active-run rule where it held, and revives no deleted schedule |
| `ScheduleTables.CompletedKeepsRest` | cc_remote/workspaces.py:748-793 | A completion keeps every bound but the one-active-run one, and removes a tombstoned schedule with all its runs |
| `RelayHub.NoStaleForward` | cc_remote/relay/pairing.py:474-497 | In every interleaving, once a connection of a client is registered no older connection of that client and machine forwards a frame |
| `RelayHub.DeliveryIsGapFree` | cc_remote/relay/pairing.py:293-304 | In every interleaving the wrapper frames a connection sent out are a prefix of those routed to it; queued bytes equal the sum of queued sizes within the caps; no frame with another connection's route id reaches it |
| `RelayHub.CapsHold` | cc_remote/relay/pairing.py:336-350 | Registered clients stay within the cap, open slots within the cap plus one, named wrappers within 256 |
| `RelayHub.RunKeepsInv` | cc_remote/relay/pairing.py:330-472 | Every run of interleaved steps keeps the hub invariant |
| `RelayHub.NextKeepsInv` | cc_remote/relay/pairing.py:270-533 | Every single step keeps it |
| `RelayHub.TargetIsOwner` | cc_remote/relay/pairing.py:283-297 | A routed frame goes only to the connection that owns the client id, and a stale route id has no target |
| `RelayConn.SentIsGapFree` | cc_remote/relay/forward.py:63-82 | What reached the socket is a prefix of what was routed to the connection |
| `RelayConn.ConnNextKeeps` | cc_remote/relay/forward.py:48-91 | Sending, taking, failing and stopping keep the byte count exact and the caps |
| `RelayConn.SendKeeps` | cc_remote/relay/forward.py:63-75 | A frame is queued whole or refused, and a refusal is the only way to fall behind |
| `RelayConn.ClientConn.constructor` | cc_remote/relay/forward.py:26-40 | Limits below their floors are raised to them |
| `RelayConn.ClientConn.Enqueue` | cc_remote/relay/forward.py:63-75 | Queues one complete frame, or refuses it exactly when the connection is closed or a cap would be passed |
| `RelayConn.ClientConn.Deliver` | cc_remote/relay/pairing.py:297-304 | A wrapper frame is queued, or its refusal is remembered |
| `RelayConn.ClientConn.TakeNext` | cc_remote/relay/forward.py:77-82 | The sender takes the oldest frame and gives back its bytes |
| `RelayConn.ClientConn.Sent` | cc_remote/relay/forward.py:82-91 | A sent frame is recorded, a failed send closes the connection |
| `RelayConn.ClientConn.Close` | cc_remote/relay/forward.py:48-50 | Only marks the connection closed: what it queued, took and sent stays |
| `RelayConn.ClientConn.StopSending` | cc_remote/relay/forward.py:48-61 | Closes first, so nothing is queued after, then ends the sender |
| `RelayServer.RelayServer.AdmitSlot` | cc_remote/relay/pairing.py:340-350 | A slot is given exactly while at most the cap are open |
| `RelayServer.RelayServer.RegisterClient` | cc_remote/relay/pairing.py:406-423 | A new client is refused exactly at the cap, a reconnect replaces its old connection |
| `RelayServer.RelayServer.DropClient` | cc_remote/relay/pairing.py:526-533 | Only the connection that still owns the id is removed; it is closed either way |
| `RelayServer.RelayServer.CheckOwnership` | cc_remote/relay/pairing.py:474-484 | True exactly for the owner; the send lock is then held until the send |
| `RelayServer.RelayServer.SendToWrapper` | cc_remote/relay/pairing.py:497-498 | Forwards for the connection that was checked |
| `RelayServer.RelayServer.OnWrapperFrame` | cc_remote/relay/pairing.py:270-304 | Routes to the owner or broadcasts, in one step, and leaves refusing connections to be dropped |
| `RelayServer.RelayServer.RouteAll` | cc_remote/relay/pairing.py:513-524 | Every target gets the frame or is marked for dropping, nobody else is touched |
| `RelayServer.RelayServer.ConnectWrapper` | cc_remote/relay/pairing.py:208-219 | One wrapper socket for a machine |
| `RelayServer.RelayServer.DisconnectWrapper` | cc_remote/relay/pairing.py:316-326 | An old socket cannot remove its successor |
| `BrokerSession.AttachIsGapFree` | cc_remote/claude_broker/session.py:533-582 | Snapshot plus received events is the retained suffix at attach time followed by a prefix of later output, all of it while subscribed |
| `BrokerSession.PTYSession.AppendHistory` | cc_remote/claude_broker/session.py:559-574 | Stored history is exactly the last bytes up to the limit, and its byte count is exact |
| `BrokerSession.TailOfTail` | cc_remote/claude_broker/session.py:559-574 | Keeping a bounded tail step by step is keeping the tail of everything |
| `BrokerSession.PTYSession.OnOutput` | cc_remote/claude_broker/session.py:584-601 | Output goes to history and to every subscriber, and full queues end their subscription |
| `BrokerSession.PTYSession.Broadcast` | cc_remote/claude_broker/session.py:576-582 | Every subscriber gets the event or overflows and leaves |
| `BrokerSession.PTYSession.Subscribe` | cc_remote/claude_broker/session.py:533-545 | A subscriber starts where its snapshot ends; it gets the keyboard exactly when it asks and no owner holds it |
| `BrokerSession.PTYSession.Unsubscribe` | cc_remote/claude_broker/session.py:547-557 | Leaving removes only that subscription, clears the keyboard by owner name as the table laws below assume, and keeps the session valid |
| `BrokerSession.PTYSession.TakeEvent` | cc_remote/claude_broker/session.py:576-582 | Taking an event frees one place and loses nothing |
| `BrokerSession.OfferKeepsSubs` | cc_remote/claude_broker/session.py:576-582 | One event, offered to all, keeps every subscription gap-free |
| `BrokerTable.RunKeepsOneKeyboard` | cc_remote/claude_broker/session.py:533-582 | When every attachment has a name of its own at most one subscriber holds the keyboard, after every run of calls and overflows |
| `BrokerTable.SendKeepsOneKeyboard` | cc_remote/claude_broker/session.py:576-582 | A broadcast that drops any number of full subscribers keeps that |
| `BrokerTable.LeaveKeepsOneKeyboard` | cc_remote/claude_broker/session.py:547-557 | So does a leave |
| `BrokerTable.JoinKeepsOneKeyboard` | cc_remote/claude_broker/session.py:533-545 | So does a join under a fresh name |
| `BrokerTable.LeaveKeepsKeyboardIff` | cc_remote/claude_broker/session.py:547-557 | After a leave at most one subscriber holds the keyboard, and the owner field is right, exactly when the name is not shared |
| `BrokerTable.JoinKeepsKeyboard` | cc_remote/claude_broker/session.py:533-545 | A join never hands out a second keyboard while the owner field is right, whatever the name |
| `BrokerTable.SharedOwnerGetsTwoKeyboards` | cc_remote/claude_broker/session.py:533-557 | A run of calls: two join under one name, the second leaves, a third joins, and two current subscribers hold the keyboard |
| `BrokerSession.ControlOutput.Append` | cc_remote/claude_broker/session.py:625-633 | The cursor returned is the length of all control text so far; the window keeps its tail |
| `BrokerSession.ControlOutput.Since` | cc_remote/claude_broker/session.py:635-637 | Returns the text since the cursor, or what is retained of it |
| `TuiOutbox.ReplaySendsEachOnce` | cc_remote/tui.py:472-519 | A full recovery resends every unacknowledged command exactly once under its own id |
| `TuiOutbox.ReplayKeepsOrder` | cc_remote/tui.py:472-519 | The queue order is kept within each durable session and among the other commands |
| `TuiOutbox.ReplaySwitchesFirst` | cc_remote/tui.py:495-511 | A command of a durable session is sent only while the last switch, queued ones included, was to that session |
| `TuiOutbox.ReplaySwitchesOnce` | cc_remote/tui.py:501-511 | The recovery itself switches to each target session exactly once |
| `TuiOutbox.ReplayRestoresFocus` | cc_remote/tui.py:492-519 | Queued switches included, the replay ends on the focused session exactly when no switch to an ephemeral session is queued |
| `TuiOutbox.TargetsFacts` | cc_remote/tui.py:489-501 | The targets are the durable sessions with queued commands and the focused one, without repeats |
| `TuiClient.Tui.RecoveryPreamble` | cc_remote/tui.py:472-519 | Sends the whole replay, or exactly the prefix the link takes |
| `TuiClient.Tui.SendReplay` | cc_remote/tui.py:489-519 | Groups and rest together put the specified replay on the wire, or its prefix |
| `TuiClient.Tui.RecoveryTargets` | cc_remote/tui.py:478-494 | The loop over the outbox finds exactly those targets in order |
| `TuiClient.Tui.SendGroups` | cc_remote/tui.py:501-511 | Switch then commands, session by session |
| `TuiClient.Tui.SendRest` | cc_remote/tui.py:512-519 | Everything no group has sent, in queue order |
| `TuiClient.Tui.Send` | cc_remote/tui.py:544-569 | A command is accepted exactly when it is queued already or fits all three caps, and then stays queued whatever the link does |
| `TuiClient.Tui.Enqueue` | cc_remote/tui.py:544-563 | The command of that id is in the queue exactly when it was accepted, and only a new one is appended |
| `TuiClient.Tui.Acknowledge` | cc_remote/tui.py:715-723 | An acknowledgement for this client removes exactly its command, with its bytes |
| `TuiClient.Tui.RekeyOutbox` | cc_remote/tui.py:521-542 | The loop renames the outbox in place as specified, with an exact byte count |
| `TuiClient.RekeyKeepsOutbox` | cc_remote/tui.py:521-542 | Renaming keeps every command, its id, the order and both caps |
| `TuiClient.RekeyLeavesNoOldName` | cc_remote/tui.py:538-540 | With room for the new texts no command keeps the old session name |
| `Transcript.ChunkingDoesNotMatter` | cc_remote/wrapper/claude_broker_history.py:63-112 | Fed in any chunks with the carried partial, the bytes give the events and the final partial of one read, as long as no open line at a boundary is too long |
| `Transcript.ShortLinesFit` | cc_remote/wrapper/claude_broker_history.py:15-16 | That holds whenever no line of the whole text is over the limit |
| `Transcript.ChunksAgreeIff` | cc_remote/wrapper/claude_broker_history.py:69-76 | Any sequence of chunks reads like the whole text, whatever the decoder, exactly when at every boundary the open line was carried whole, goes on, or has a skipped remainder, and the last partial line is that of the whole text |
| `Transcript.CutAgreesIff` | cc_remote/wrapper/claude_broker_history.py:69-76 | For a text cut once: exactly when the open line at the cut is within the limit or the piece behind it, up to its newline, is skipped |
| `Transcript.LaterRecordsAreRead` | cc_remote/wrapper/claude_broker_history.py:69-71 | After any chunks, every record behind the first newline of the next one is read as in the whole text, and the same partial is carried on; only the line across the cut can differ, by one event at most |
| `Transcript.OversizedPartialIsForgotten` | cc_remote/wrapper/claude_broker_history.py:75-76 | A too long open line is forgotten at a boundary, and what follows reads as a line of its own |
| `Transcript.ParseLifecycle` | cc_remote/wrapper/claude_broker_history.py:63-112 | The loop over the lines gives the started, completed and ordered events of the specification and the kept partial |
| `Transcript.SplitResumes` | cc_remote/wrapper/claude_broker_history.py:73-76 | Splitting can stop anywhere and resume from the open line |
| `Transcript.SplitJoins` | cc_remote/wrapper/claude_broker_history.py:73-74 | Splitting at newlines loses no byte |
| `Transcript.TailState` | cc_remote/wrapper/claude_broker_history.py:115-135 | Reads the end of the file from its first whole line and reports the newest turn there |
| `Transcript.TailIsSuffix` | cc_remote/wrapper/claude_broker_history.py:115-135 | From a line start the tail gives the newest events of the whole file, so the same answer when there is one |
| `LoginLimiter.AtMostCapInAnyWindow` | cc_remote/relay/server.py:176-206 | Any window of the configured length, wherever it starts, holds at most the cap of admissions of one address |
| `LoginLimiter.LoginRateLimiter.Limited` | cc_remote/relay/server.py:176-206 | Refuses exactly when one of the three caps stands against it on the pruned table, otherwise records the attempt; all bounds and the running total hold, and the window property for a clock that does not go back |
| `LoginLimiter.LoginRateLimiter.Cleanup` | cc_remote/relay/server.py:163-174 | Keeps the recent part of every list and recounts the total |
| `LoginLimiter.LoginRateLimiter.KeepAllRecent` | cc_remote/relay/server.py:166-174 | The loop over the addresses keeps exactly the recent part of each list and counts what is left |
| `LoginLimiter.LoginRateLimiter.PruneAddress` | cc_remote/relay/server.py:181-191 | Keeps the recent part of one list and adjusts the running total |
| `LoginLimiter.LoginRateLimiter.Admit` | cc_remote/relay/server.py:200-206 | Appends one attempt within the caps |
| `LoginLimiter.AdmitKeepsWindows` | cc_remote/relay/server.py:176-206 | An admission below the cap keeps the window property of every address |
| `LoginLimiter.PruneKeepsLog` | cc_remote/relay/server.py:182-184 | Forgetting old attempts loses nothing the window property needs |
| `LoginLimiter.AdmitKeepsLog` | cc_remote/relay/server.py:193-194 | Below the cap the attempt that many places back has left the window |
| `LoginLimiter.CleanKeepsWindows` | cc_remote/relay/server.py:163-174 | Periodic cleanup keeps the window property |
| `LoginLimiter.FreshIsSuffix` | cc_remote/relay/server.py:167-167 | Of a sorted list the recent part is its end |
| `LoginLimiter.StoredWithList` | cc_remote/relay/server.py:183-184 | The running total moves by the change of the one list |
| `CaddyTheorems.RenderTwice` | deploy/caddy_managed_block.py:227-292 | Rendering a rendered Caddyfile with the same site and domain gives it back if and only if the first rendering was steady: the old limits lines held no site marker, and they were inside the site block, or were not needed to close the global block and hid no servers option |
| `CaddyTheorems.FreshIsSteady` | deploy/caddy_managed_block.py:211-224 | In particular whenever there were no old limits lines |
| `CaddyTheorems.RenderTwiceApart` | deploy/caddy_managed_block.py:166-224 | When it is not, and the site was apart, the second rendering is an error, never another text |
| `CaddyTheorems.RenderTwiceSwallowed` | deploy/caddy_managed_block.py:166-224 | Old limits lines that held a site marker never render to the same text again |
| `CaddyTheorems.OneBlockEach` | deploy/caddy_managed_block.py:227-292 | The rendered text has exactly one limits block; it has exactly one site block if and only if the old limits lines held no site marker, and the limits block is inside the global braces if and only if a newline in place of the old limits lines is |
| `CaddyTheorems.SiteStays` | deploy/caddy_managed_block.py:227-292 | In that case neither site marker nor domain occurs outside the site block |
| `CaddyLimits.BlockInsideIff` | deploy/caddy_managed_block.py:34-90 | The limits block opens and closes nothing: it is inside the global braces exactly when a newline there is |
| `CaddyKept.OutsideIsKept` | deploy/caddy_managed_block.py:227-292 | Apart from the legacy whole-file case, everything outside the two old blocks is kept byte for byte; only separator newlines or a new global wrapper are added |
| `CaddyKept.SiteKeepsTheRest` | deploy/caddy_managed_block.py:246-292 | Only the old site block goes; a block added at the end comes with at most two newlines |
| `CaddyKept.LimitsKeepTheRest` | deploy/caddy_managed_block.py:166-224 | Only the old limits lines go; a block added inside comes with at most one newline, a block of its own with its wrapper |
| `CaddyIdempotence.LimitsTwice` | deploy/caddy_managed_block.py:166-224 | Rendering the limits again gives the same text exactly when the old limits lines were not needed to close the global block and hid no servers option, and otherwise fails |
| `CaddyIdempotence.RenderedParts` | deploy/caddy_managed_block.py:166-224 | A rendered text holds the limits block once, at a line start inside an open block, and the text around it decides as the placed text did |
| `CaddyRender.PlacedShape` | deploy/caddy_managed_block.py:246-292 | Every accepted Caddyfile becomes text around exactly one managed site block |
| `CaddyRender.Relocate` | deploy/caddy_managed_block.py:227-292 | Where the site block is after the limits have been rendered, wherever they went |
| `CaddySite.PlaceAround` | deploy/caddy_managed_block.py:258-274 | Placing the site again looks only outside the block |
| `CaddyUnsteady.ClosingRegionFails` | deploy/caddy_managed_block.py:175-209 | A concrete family of whole renderings: old limits lines that close a brace opened before them, in front of the site; the first rendering succeeds, the second fails |
| `CaddyUnsteady.SwallowedSiteIsLost` | deploy/caddy_managed_block.py:175-209 | A concrete family: limits markers around the site block; the rendered Caddyfile has no site |
| `CaddyTexts.ProgramTextsWellFormed` | deploy/caddy_managed_block.py:10-27 | The program's own markers and limits text meet everything the theorems ask of them |
| `CaddyLexer.GlobalBlockSpan` | deploy/caddy_managed_block.py:34-90 | The scanner finds the braces of the leading global block as specified, or the error |
| `CaddyLexer.HasTopLevelServers` | deploy/caddy_managed_block.py:106-163 | The loop computes the scan whose meaning ServersMeans gives |
| `CaddyServers.ServersMeans` | deploy/caddy_managed_block.py:106-163 | A top-level servers option is reported exactly when the block holds the word servers at depth 1, outside quotes and comments, ended by a separator or the end of the block, with no word ended before it on its line |
| `CaddyLexer.FindMeans` | deploy/caddy_managed_block.py:56-90 | The brace found closes the block and none before it does, quotes, comments and escapes skipped |
| `CaddyLexer.SkipLead` | deploy/caddy_managed_block.py:42-54 | White space and comments before the block are skipped |
| `CaddyLexer.ServersStay` | deploy/caddy_managed_block.py:106-163 | A hit is not undone by what follows |
| `CaddyMerge.LimitsRun` | deploy/caddy_managed_block.py:15-27 | The limits block does to the scanner what a newline does, so it moves no brace |
| `CaddyLimits.SpanThrough` | deploy/caddy_managed_block.py:34-90 | A stretch that acts like a newline does not change which brace closes the block |
| `CaddyLimits.MarkedPlace` | deploy/caddy_managed_block.py:93-103 | The marked lines are the place that is replaced |
| `CaddyLimits.RenderWithLimits` | deploy/caddy_managed_block.py:175-209 | Rendering a text that holds the block gives it back or fails |
| `CaddyInsert.CutLeavesNoMarker` | deploy/caddy_managed_block.py:211-224 | Cutting before the closing brace splits no marker line and makes none |
| `CaddyLines.MarkerLineSpans` | deploy/caddy_managed_block.py:93-103 | The loop gives the spans of the marker lines in order |
| `DotenvBreaks.FileRoundTripIff` | cc_portable_control/windows/win_config.py:356-394 | With distinct keys the parsed file is the map it was printed from if and only if no value holds a line separator |
| `DotenvBreaks.EntryRoundTripIff` | cc_portable_control/windows/win_config.py:356-394 | A single entry comes back if and only if its value holds no line separator |
| `DotenvBreaks.NoBreakComesBack` | cc_portable_control/windows/win_config.py:356-394 | No value read from a printed file holds a line separator, whatever was printed |
| `Dotenv.FileRoundTrip` | cc_portable_control/windows/win_config.py:356-394 | Parsing printed key=value lines gives the map they stand for, repeated keys included, for any values free of line separators |
| `Dotenv.NothingLost` | cc_portable_control/windows/win_config.py:371-394 | With distinct keys exactly the printed keys come back, each with its value |
| `Dotenv.ValueRoundTrip` | cc_portable_control/windows/win_config.py:268-282 | Reading a printed value gives the value, whatever its quotes, backslashes, dollars, signs and edge spaces |
| `Dotenv.LineRoundTrip` | cc_portable_control/windows/win_config.py:380-394 | A printed line parses to its key and value |
| `Dotenv.PrintedContents` | cc_portable_control/windows/win_config.py:333-333 | The lines of the printed file are the printed lines |
| `Dotenv.PassesEscape` | cc_portable_control/windows/win_config.py:277-281 | The three replacements one after another escape each character once |
| `Dotenv.UnescapeEscape` | cc_portable_control/windows/win_config.py:356-368 | Unescaping undoes escaping |
| `Dotenv.UnescapeDoubleQuoted` | cc_portable_control/windows/win_config.py:356-368 | The index loop unescapes as specified, unknown and trailing backslashes included |
| `Dotenv.ParseEnvLine` | cc_portable_control/windows/win_config.py:380-393 | One line parses as specified: blank lines, comments and lines without a key give nothing |
| `Dotenv.ParseEnvFile` | cc_portable_control/windows/win_config.py:371-394 | The loop over the lines builds the map, later lines winning |
| `Dotenv.NewlineIsLost` | cc_portable_control/windows/win_config.py:277-282 | A witness: what a value with a newline becomes |

## Left out

- CaddyKept.OutsideIsKept: does not cover the legacy whole-file case, in which the Caddyfile is the site template and is replaced by the managed block.
- CaddyTheorems.RenderTwice: asks for a domain without line breaks that does not occur in the managed limits text; the program gives no such guarantee, its callers do.
- Dotenv.FileRoundTrip: covers lines printed from a key and a value; the fixed comment lines of the first-run file and its bare empty optional values are not part of it.
- CheckpointJournal.CodexCheckpointJournal.FinishTurn: when the environment fails during the retention save, which of the two saved manifests is left is open, as it is on disk.
- Checkpoint paths are flat: no path is a directory prefix of another, so the refusals of unsafe paths and file/directory swaps are not modelled, nor is pruning of empty directories.
- Checkpoint details: Git subprocesses, blobs, filters, object-store size (a parameter says it is over the limit), file locks, turn-id and JSON shape checks, timestamps, reasons of tombstones, and which of several third-state paths an error names.
- The separately stored index snapshot of an open turn is kept inside the open turn.
- Checkpoint capture takes every file on disk, while `git add -A` skips ignored ones, so a turn that edits `.gitignore` changes what is captured; the inverse laws are about captured files.
- A file's kind is given by its Git mode; a permission is what `chmod` can restore.
- Fork journal: id and path patterns, file size checks, timestamps and the search of transcripts for a fork's result.
- Schedules: SQL, migrations, titles, prompts, projects, error texts; times are reals instead of floats.
- The relay hub object keeps each connection as a value and applies to it the functions that the methods of `ClientConn` are proved to compute; connection objects shared between handlers are not modelled.
- Relay: the WebSocket transport, authentication, device pairing, push notification of live turn ends, the wrapper's own hello and heartbeat, and cancellation of a handler between a refusal and the drop that follows it.
- Relay forwarding to an absent or broken wrapper is one forward step; the offline notice sent to the client is an ordinary notice.
- Broker sessions: process spawning, PTY reads, control and exit events, runtime control values, terminal input and confirmation timeouts.
- Terminal client: JSON is a frame with a session, a rename target and a size given by a parameter; queued texts that are not JSON, the cursors of the hello frame and the engine named in a switch are not modelled.
- TuiOutbox.ReplaySwitchesFirst: asks, as ReplayRestoresFocus does, that a queued switch is sent to the session it names (`AllHome`); the client builds no other switch frame (`cc_remote/tui.py:583`).
- Transcript: JSON decoding of one line is a parameter.
- Login limiter: the default sizes and the address of a request.
- Caddyfile: which non-ASCII characters count as letters is a parameter; reading and replacing the file is not modelled.
- Work projects, sources, plugins, artifacts, policy files, release scripts, configuration checks, process scans, rendering and commands of the terminal client, image checks, frame codec and pairing grants: mostly plumbing or easy members.
