# RunDock verification

A Dafny model of the parts of RunDock whose correctness depends on order: which of several tasks
may touch a managed process, what is on disk when the machine stops, which daemon owns the
service during a restart, and algorithms over text and streams that have an exact specification.

`dafny verify dfyconfig.toml` checks the whole project.

## What is modelled

**Process lifecycle** (`ManagedProcess`, `Lifecycle*`, `Restarter`). A managed process is a
record behind a write lock. `ManagedProcess` holds the record as a class with one method for each
write-lock section, and a function for each section that the method is proved against.
`Lifecycle` runs these functions as a transition system, and `LifecycleSections` carries out
every step of it by the methods, on the record in place. In the system every section is one step,
every await between two sections is a point where any other task may run, and whether a kill
succeeds is arbitrary. Tasks are a program counter with the generation they captured. Task 0 is
the explicit stop, which explicit requests wait for. The generation itself is not monotone,
because a failed stop restores the earlier one; the invariant is stated over the effective
generation, the one a stop in progress would go back to. A run may begin with any of the
registration functions, including the two outcomes of an adoption that leave a process Errored
with a tree nobody could kill (manager.rs:349-368 and 375-391). `LifecycleStamps` covers every
configuration; `LifecycleOwnership`, `LifecycleGuarantees` and `LifecycleCron` cover processes
that do not watch files; `LifecycleStops` says when a stop is refused and what it comes to;
`LifecycleScenarios` says, with the whole state afterwards, what the other requests and events
come to when nothing interferes; `LifecycleWatchRace` shows by a run of 23 steps that watching
files is what makes the difference.

**Stores** (`FileStore`, `StateTransaction`, `TelegramBot`). A file is absent, corrupt or a
document. One replacement, rename or removal is atomic; it may succeed, fail with or without
having taken effect, or the machine may stop around it, which ends every method above it. The
file system counts these troubles, and read-backs that differ; success is promised of every
method for runs without any. On top of that are the last-known-good store, the two-store
transaction with its stages, marker and recovery, and the Telegram checkpoint with the polling
loop that uses it.

**Daemon restart** (`Handoff`). The loop of the old daemon runs against an environment that may
record a shutdown, claim a free PID file for a replacement, or let a replacement die, between any
two of its steps. What chance decides (the moves of others, whether a file operation or a kill
works, what a look at the replacement finds) is a parameter, so each outcome is claimed exactly.
A replacement that was rejected before it was armed and could not be killed is a stray, which may
compete for the PID file as well. The claims are about the log of what happened.

**Text and streams** (`Markup`, `Paginator*`, `TailReader`, `MergedLogs`, `LineDecoding`,
`OutputLines`, `SseLines`, `Utf8Decoding`, `ArgumentTemplate`, `LogStats`). Loops over buffers
and chunks are methods proved against a function of the whole input; the lemmas are about that
function. Bytes are numbers below 256, characters have a UTF-8 width.

**Graphs** (`ProcessTree`). The closure taken when a tree is terminated on Windows, and the stack
walk that sums a process tree, both against paths of parent links.

## Where the code and its promises differ

- In watch mode two Restart events of one spawn can overlap. `mark_respawn_failed` then accepts
  the generation after the one it was sent for although that spawn is somebody else's, and drops
  a live tree (`LifecycleWatchRace`).
- The runs of a cron process can overlap (`LifecycleCron`). A run that is stopped, disabled and
  enabled between the spawn of its child and the commit of its tree leaves a live tree behind a
  sleeping process; so does one whose pre_start hook outlasts all that, even if nothing was alive
  in between, because no check stands between the hook and the spawn. `RunsOverlapIffNotIdle`
  says exactly when it can happen.
- With file watching a process that is to run can refuse every stop: a stop that gave up waiting
  for another cleanup restores Errored and the desired flag after that cleanup has removed the
  PID (`LifecycleStops.WatchedProcessRefusesToStop`, `LifecycleStops.StoppableIffNotWatched`).
- A write that begins without a good primary and stops between its last two replacements leaves a
  backup three values old (`FileStore.DisorderlyWriteExposesThirdLast`).
- Pagination does not end when a tag is so long that, once reopened, no page has room for the
  next token (`PaginatorGuarantees.EndsIffRoomEverywhere`, `PaginatorMessages.LongTagNeverEnds`);
  and closers appended after a dangling `<` become part of a tag (`PaginatorPages.PagesReadBack`,
  `PaginatorMessages.DanglingPageMisreads`). No message the daemon sends is of either kind
  (`PaginatorMessages.MessagesPaginate`).
- Of a log whose last 8 MiB hold fewer lines than asked for, the older ones are not shown
  (`TailReader.ReadsTheLastLines`, `MergedLogs.OneLogIsReadIff`).
- The log stream decodes each chunk on its own, and a character cut by a chunk boundary is lost
  (`Utf8Decoding.ChunksDecodeIff`).
- The sum over a process tree does not end when the root is its own descendant, which a reused
  parent PID can bring about (`ProcessTree.EndsIffRootIsNotItsDescendant`,
  `ProcessTree.TwoParentsNeverEnd`).
- After a release that failed half-way the replacement may claim the PID file; `ensure_owned`
  then refuses its record even once it is dead, and the old daemon ends with an error
  (`Handoff.HalfReleaseIsRefused`).

## Model

| member | source | states |
|---|---|---|
| LifecycleStamps.StopIsSticky | src/process/manager.rs:629-730 | From any reachable state, in every interleaving: once a stop has committed, no sequence of background steps (queued events, respawns in flight, cron ticks, the adopted-PID watcher, cleanup retries) changes Stopped, the absent PID, the cleared desired flag or the generation |
| LifecycleStamps.StopConcludes | src/process/manager.rs:677-713 | A stop ends on the generation it took: it commits Stopped with no PID and no tree, or restores exactly the status and the generation it found |
| LifecycleStops.StopIsRefusedIff | src/process/manager.rs:629-652 | In every reachable state with no stop in progress: a stop is refused exactly to a process that is Stopped and not to run, or Errored without a PID |
| LifecycleStops.StoppableIffNotWatched | src/process/manager.rs:629-652 | In all reachable states a process that has a PID or is to run can be stopped, if and only if the configuration does not watch files |
| LifecycleStops.WatchedProcessRefusesToStop | src/process/manager.rs:679-690 | The run on which it fails: a stop that gave up is rolled back after another task has killed the tree, and leaves an Errored process that is to run, has no PID and refuses every stop |
| LifecycleStops.StopKillsWhatIsOnRecord | src/process/manager.rs:629-713 | What an accepted stop comes to, with the whole state afterwards: the tree on record, or the identified PID, is killed and the process Stopped; if the kill fails everything is as it was, but that the process is to run |
| LifecycleStops.TreesCanBeStopped | src/process/manager.rs:629-713 | From every reachable state with a tree on record, no request and no cleanup in progress, the stop, its claim, a kill that succeeds and its commit are a possible run, which ends Stopped and not to run with that tree dead |
| LifecycleStamps.FreshStamp | src/process/manager.rs:1453-1491 | No ABA: the generation given to a spawn was given to no earlier spawn and is carried by no queued event and no task in flight, although a failed stop restores an earlier generation |
| LifecycleStamps.EventActsOnItsSpawn | src/process/manager.rs:1938-2199 | A task that changes the record carries the record's generation, and no later spawn has begun: an event acts only on the spawn that produced it |
| LifecycleStamps.StaleTaskIsInert | src/process/manager.rs:2201-2238 | A task whose stamp is not current changes nothing, unless it gives back a tree it holds or reports a failed respawn |
| LifecycleStamps.StampedStep | src/process/manager.rs:650-687 | The invariant behind the stamps: every step keeps them ordered, and the generation a failed stop would restore to (or the current one) never decreases |
| LifecycleStamps.ReachableIsStamped | src/process/manager.rs:650-687 | Every reachable state of every configuration satisfies that invariant |
| LifecycleStamps.OneCleanupRun | src/process/manager.rs:182-268 | Over every run at most one task holds the cleanup flag, and the flag is set exactly while one does |
| LifecycleStamps.FlagFollowsHolder | src/process/manager.rs:192-265 | Only the task that set the cleanup flag clears it |
| LifecycleOwnership.SoundStep | src/process/manager.rs:1843-1935 | Without file watching every step of every interleaving keeps the whole ownership invariant: who may hold which tree, which generations may be pending beside each other, what each stage knows about the record |
| LifecycleOwnership.SoundRun | src/process/manager.rs:1843-1935 | The ownership invariant holds along every run |
| LifecycleGuarantees.NothingIsLostWithoutWatch | src/process/manager.rs:1581-1797 | No live tree is lost: in every reachable state every spawned or adopted tree is confirmed dead, or held by the record, by the spawning task, by the one cleanup holder or by a retry task, or the record has the PID and the identity to kill it by |
| LifecycleWatchRace.WatchModeLosesATree | src/process/manager.rs:2223-2238 | With file watching it fails: a concrete run in which two Restart events of one spawn overlap and the failure report of one respawn drops the live tree of the other |
| LifecycleWatchRace.TreesAreSafeIffNotWatched | src/process/manager.rs:2223-2238 | Live trees are safe in every run if and only if the configuration does not watch files |
| LifecycleGuarantees.RespawnFailureIsOwn | src/process/manager.rs:2223-2238 | Without file watching a respawn failure that applies concerns its own spawn, and the record holds no tree |
| LifecycleCron.SleepingIsClear | src/process/manager.rs:2334-2365 | A sleeping process has no PID, no identity and no tree, every task of an earlier run carries an earlier generation, and all trees are dead exactly if those held by tasks are |
| LifecycleCron.CronRunsCanOverlap | src/process/manager.rs:2519-2618 | For every scheduled process a concrete run after which two runs have a live tree each: the first one was stopped, disabled and enabled between the spawn of its child and the commit of its tree |
| LifecycleCron.StaleSpawnOverlaps | src/process/manager.rs:2459-2519 | A second run in which nothing is alive at a tick, nothing is stopped, disabled or enabled afterwards, and the next tick finds a live tree: no check stands between the pre_start hook of a cron run and its spawn |
| LifecycleCron.RunsOverlapIffNotIdle | src/process/manager.rs:2334-2630 | Exactly when runs can overlap: wherever a tick is possible, a later tick (with no stop and no change of the enabled flag before it) can find a live tree if and only if one is alive now or a spawn begun earlier has not launched yet |
| LifecycleGuarantees.FailedCronRunStaysDown | src/process/manager.rs:2243-2282 | After a cron run whose tree cleanup failed, no background step returns the process to Sleeping, and no tick starts it again |
| LifecycleGuarantees.RestartBudget | src/process/manager.rs:1989-2015 | Crash restarts never push the counter above the larger of its first value and max_restarts |
| LifecycleGuarantees.AlwaysCrashingEndsErrored | src/process/manager.rs:2117-2180 | A process that always crashes while cleanups and respawns succeed is Errored, with the counter at its limit, after exactly the steps its remaining budget allows |
| LifecycleGuarantees.StartedAndAlwaysCrashing | src/process/manager.rs:733-752 | The same from an explicit start: nine steps for each restart still allowed and eight more |
| LifecycleGuarantees.CrashProceeds | src/process/restarter.rs:46-93 | That crash loop is never stuck before it is over |
| LifecycleScenarios.StartIsRefusedIff | src/process/manager.rs:733-752 | In every reachable state a start is refused exactly to a process that is disabled, has a PID or is neither Stopped nor Errored |
| LifecycleScenarios.StartComesUp | src/process/manager.rs:1453-1797 | An accepted start whose steps succeed: the whole state afterwards, with a new generation, the PID, identity and tree of the new child on record, Running or Watching, and its exit watched |
| LifecycleScenarios.TickComesUp | src/process/manager.rs:2334-2519 | A cron tick of a sleeping process: a new generation, and the run comes up |
| LifecycleScenarios.ExitComesToRest | src/process/manager.rs:2054-2115 | A clean exit, or any exit of a process that is not to be restarted: Stopped (Sleeping with a schedule), nothing on record, the tree dead and the counter as it was; if the tree could not be killed, Errored with all that is needed to stop it |
| LifecycleScenarios.CronRunComesToRest | src/process/manager.rs:2243-2313 | The end of a cron run, whatever its exit code: back to sleep with its tree dead, or Errored if it could not be killed |
| LifecycleScenarios.AdoptedExitComesToRest | src/process/manager.rs:500-588 | The exit of an adopted process: at rest with its tree dead, then restarted if its policy and its budget allow it, and otherwise reported |
| LifecycleScenarios.RestartClears | src/process/manager.rs:1941-2015 | A queued restart kills the tree, raises the counter by one and goes on to a respawn; if the kill fails everything is as it was |
| LifecycleScenarios.CleanupBegins | src/process/manager.rs:192-230 | A cleanup of the current spawn waits exactly while another one runs; one with nothing on record succeeds at once, and one with a PID but no identity fails |
| LifecycleScenarios.RespawnComesUp | src/process/manager.rs:2017-2024 | The respawn comes up under the next generation |
| LifecycleScenarios.RespawnFails | src/process/manager.rs:2017-2034 | A respawn that cannot begin leaves the process Errored, not to run, with nothing on record |
| LifecycleScenarios.GivenUpIsRetained | src/process/manager.rs:1843-1935 | A child that has to be given up and cannot be killed: Errored, with its PID on record, its identity as far as it was captured, and a retry under way |
| LifecycleScenarios.GivenUpIsReleased | src/process/manager.rs:1843-1935 | If it could be killed: Errored and not to run, with no PID on record, the tree dead and no retry |
| LifecycleScenarios.RetryReleases | src/process/manager.rs:1880-1935 | A retry that kills the retained child leaves the process Stopped without PID; one that fails still captures a missing identity |
| LifecycleScenarios.DisableAndEnable | src/process/manager.rs:930-1022 | Disabling a process at rest clears it and moves the generation on; enabling it again puts a scheduled process to sleep and leaves any other as it is |
| LifecycleScenarios.DisabledNeverComesUp | src/process/manager.rs:1453-1797 | While a process is disabled no spawn begins, no restart is accepted, and a spawn in flight is not published and takes no tree, except for a cron run, whose commit does not look at the flag |
| Restarter.BackoffIsMonotoneAndCapped | src/process/restarter.rs:38-42 | Each backoff is at least the one before it and at most 60 seconds |
| Restarter.BackoffDoubles | src/process/restarter.rs:38-42 | The delay doubles with each of the first eight attempts, is at most 256 times the base and at most a minute; saturation at 64 bits makes no difference |
| LifecycleSections.ProcessManager.Perform | src/process/manager.rs:182-2730 | One write-lock section, run on the record in place by the method of that section, has exactly the effect of one step of the transition system, and a step that is not possible changes nothing: what is proved of steps holds of the sections |
| LifecycleSections.Live | src/process/manager.rs:182-2730 | Whatever is attempted on a registered process in any order, the sections leave a reachable state: the stamps are in order, and without file watching no live tree is lost |
| ManagedProcesses.ManagedProcess.SpawnSection | src/process/manager.rs:1453-1491 | The start of a spawn: refused for a disabled, a running or a superseded process, else a fresh generation |
| ManagedProcesses.ManagedProcess.ReleaseSection | src/process/manager.rs:231-265 | The end of a cleanup clears the flag and gives an unkilled tree back unless the record has moved on |
| FileStore.FileSystem.WriteWithBackup | src/config/atomic_file.rs:144-209 | A write with a recovery copy, wherever it stops: the copy is in place before the primary changes, and the primary is the old, the new or the previous document; it succeeds if nothing goes wrong |
| FileStore.FileSystem.WriteBare | src/config/atomic_file.rs:144-209 | A write without a recovery copy is one atomic replacement; success means that it happened, and without trouble it succeeds |
| FileStore.Load | src/config/atomic_file.rs:261-316 | Loading returns what the first valid candidate holds, fails exactly when there is none, never changes what a load returns, and without trouble leaves a valid primary with a valid backup |
| FileStore.WriterRefusesIffLoaderFails | src/config/atomic_file.rs:369-413 | The writer refuses the existing files exactly when the loader would fail on them |
| FileStore.WriteJson | src/config/atomic_file.rs:369-413 | A refused write leaves both files untouched; any other leaves one of the listed pairs, a completed one a determined pair. An acceptable value is written if and only if nothing goes wrong |
| FileStore.WriteIsAllOrNothing | src/config/atomic_file.rs:369-413 | At every point a write can be interrupted, a load returns the old or the new document |
| FileStore.CompletedWriteLoads | src/config/atomic_file.rs:369-413 | After a completed write a load returns the written document |
| FileStore.OneMoreIsValid | src/daemon/state.rs:56-75 | What validation of whole documents amounts to: one more application or project is accepted if and only if it is acceptable itself, its ID is new, and there are fewer than a thousand |
| FileStore.NewStoreIsEmpty | src/config/atomic_file.rs:278-290 | A store without files loads as the empty document of its type, and its first write leaves a primary only |
| FileStore.LastKnownGoodIffOrderly | src/config/atomic_file.rs:261-413 | Once a valid backup exists, a run of writes, loads and damage to the primary stays within the last two written values if and only if no write that began without a good primary and on an older backup is cut short between its last two replacements |
| FileStore.StaysLastKnownGoodIff | src/config/atomic_file.rs:369-413 | The same for a single event: exactly the orderly ones keep the store within the last two values |
| FileStore.LastOrSecondLast | src/config/atomic_file.rs:261-316 | A store that stayed within them loads the last or the second-last written value |
| FileStore.DisorderlyWriteExposesThirdLast | src/config/atomic_file.rs:402-413 | A concrete run, with one write cut short like that, loads the third-last value |
| FileStore.OneChangeAtATime | src/config/atomic_file.rs:261-413 | Even then each event changes the loaded document by at most one step: to the value being written, or back past the last change |
| StateTransaction.ApplyPair | src/config/state_transaction.rs:150-164 | Both primaries are brought to the pair; wherever it stops both stores stay loadable |
| StateTransaction.RefreshBackup | src/config/atomic_file.rs:221-239 | A backup is refreshed only from a valid primary |
| StateTransaction.RefreshPairBackups | src/config/state_transaction.rs:138-148 | Both backups equal their primaries, which do not change |
| StateTransaction.Cleanup | src/config/state_transaction.rs:52-95 | The marker goes first: until it is gone nothing else has changed, and only its move can fail the call |
| StateTransaction.MarkerDecides | src/config/state_transaction.rs:172-193 | While a transaction is open its marker names the settled pair: a turned marker the staged next pair, an unturned one the staged previous pair, and there is no other kind of marker |
| StateTransaction.SettlesOnOne | src/config/state_transaction.rs:172-193 | The files determine the settled pair |
| StateTransaction.RecoverPaths | src/config/state_transaction.rs:172-193 | Recovery can stop anywhere and be repeated, and still settles on the same pair; a completed one leaves no marker and, after a rollback, both backups equal to the restored primaries. Without trouble it completes, whatever marker it finds, and leaves nothing of the transaction |
| StateTransaction.Prepare | src/config/state_transaction.rs:212-233 | Wherever staging stops, recovery still settles on the previous pair |
| StateTransaction.Compensate | src/config/state_transaction.rs:234-266 | A failed commit that is compensated settles on the previous pair, or on the next one if the marker had already turned; without trouble the previous pair is back in all four files and nothing is left of the transaction |
| StateTransaction.Execute | src/config/state_transaction.rs:234-266 | A prepared transaction settles on exactly one of the two pairs wherever it stops, the one its marker names. Without trouble it returns Ok with the next pair installed and nothing left of the transaction; after a single failure it has rolled back completely, or the next pair is settled |
| StateTransaction.Commit | src/config/state_transaction.rs:197-266 | Two-store atomicity: whatever fails and wherever the machine stops, a later recovery and load yield exactly the previous or exactly the next pair, and Ok means the next one. A valid pair is committed whenever nothing goes wrong |
| StateTransaction.Reopen | src/config/state_transaction.rs:167-193 | A completed start-up finds exactly the settled pair, and without trouble it completes |
| StateTransaction.Lifetime | src/config/state_transaction.rs:197-266 | Over any series of commits and interrupted restarts the stores settle on the first pair or on one ever committed, and on the last one if its commit returned Ok; without trouble that is so |
| TelegramCheckpoints.SaveAt | src/config/telegram_checkpoint.rs:68-79 | A save installs the checkpoint or leaves the record as it was. It is refused for an unreadable store, an invalid checkpoint and one that moves backwards, and for nothing else unless something goes wrong |
| TelegramCheckpoints.NeverBackwards | src/config/telegram_checkpoint.rs:49-57 | For one token the recorded offset never decreases, whichever saves take effect |
| TelegramCheckpoints.CompetingSavesEndAtTheMaximum | src/config/telegram_checkpoint.rs:49-79 | Competing saves for one token, in any order, end at the maximum |
| TelegramCheckpoints.LostIffAnotherTokenIsSaved | src/config/telegram_checkpoint.rs:49-57 | The offset of a token is lost exactly when a checkpoint of another token takes effect |
| TelegramBot.HandleBatch | src/telegram/bot.rs:229-290 | Handling one batch: the updates handled are the accepted ones in order, and the record covers all of them but possibly the last; without trouble it stops early only for a shutdown or the largest possible ID, with all on record |
| TelegramBot.Run | src/telegram/bot.rs:96-291 | One session of the polling loop, ended by anything: what was handled is a prefix of the updates at or above the recorded positions, and all of them if nothing went wrong and no shutdown came; an unreadable checkpoint handles nothing |
| TelegramBot.NewUpdatesAreAccepted | src/telegram/bot.rs:229-290 | No new update is missed and no old one handled: of updates of one token in increasing order exactly those from the recorded position on are accepted |
| TelegramBot.IdsIncreaseWithinToken | src/telegram/bot.rs:229-295 | While one token stays in use the handled update IDs strictly increase |
| TelegramBot.TokenReturnRepeats | src/telegram/bot.rs:157-164 | Returning to a token after another one was used handles its updates again |
| TelegramBot.RecordsNeverMoveBack | src/config/telegram_checkpoint.rs:49-79 | Over any number of sessions of one token the record never moves back |
| TelegramBot.OnlyTheLastUpdateCanRepeat | src/telegram/bot.rs:229-295 | Whatever crashes end the sessions, an update is handled again only if it was the last of its session and its save was not completed: each crash redispatches at most one update |
| TelegramBot.RunAgainAndAgain | src/telegram/bot.rs:96-291 | Sessions one after another over one file system form such a series |
| Handoff.Run | src/daemon/mod.rs:179-372 | The whole loop against replacements and an external shutdown acting at any time. The service is handed over if and only if the commit is on record before any shutdown, and only after a successful final save; a shutdown recorded first ends this daemon. Every replacement taken up is stopped, or the service is handed over to it, and never both. The server is entered only with this daemon's own record on file and no armed replacement alive; an exit leaves none and no own record; only own or dead records are removed |
| Handoff.Round | src/daemon/mod.rs:245-372 | Once round the loop: an attempt is pending exactly if a request armed one, and the whole outcome follows from the save, the server and the chances met |
| Handoff.Hand | src/daemon/mod.rs:282-367 | One pending attempt, decided exactly: the service is handed over if and only if the final save worked, the server ended well and the replacement takes over in time; this daemon serves again if and only if the save failed, or the server ended well and the replacement did not get ready, and in either case the cancellation works out: the replacement confirmed dead, the own record on file, no shutdown |
| Handoff.HealthyReplacementTakesOver | src/daemon/mod.rs:311-353 | A replacement that claims the released file, reports ready and answers takes over, if no shutdown is requested |
| Handoff.ReadyIffFound | src/daemon/mod.rs:126-175 | The wait succeeds if and only if at some look the replacement, alive until then, has reported ready and answers, with no shutdown, no unreadable report and no deadline before |
| Handoff.OwnRecordIsReleased | src/daemon/mod.rs:62-76 | The own record is released by the first attempt that works, also after one that only moved it aside, and stays while no attempt moves it |
| Handoff.FilesAreClaimed | src/utils/pid.rs:17-70 | A free file is claimed, a dead owner's record first removed, and a live owner's record left alone |
| Handoff.ThisDaemonServesOn | src/daemon/mod.rs:316-367 | A replacement that did not get ready is stopped and this daemon serves on, if its end is confirmed and the file is free or still its own |
| Handoff.Conclude | src/daemon/mod.rs:331-353 | From a ready replacement: the service is handed over if and only if the commit comes before any shutdown and the lock is sound, and otherwise the replacement is stopped, on an exit as on an error |
| Handoff.Cancel | src/daemon/mod.rs:282-297 | A cancelled restart stops the replacement first, and resumes service only with it confirmed dead, its own record on file and no shutdown recorded |
| Handoff.Offer | src/daemon/mod.rs:314-331 | The record is released before the replacement is waited for, and both outcomes are those of the attempts and looks met; readiness implies that it had claimed the PID file |
| Handoff.WaitForReplacementReady | src/daemon/mod.rs:126-175 | Success means the replacement reported ready and no shutdown was recorded at the last look |
| Handoff.HalfReleaseIsRefused | src/daemon/mod.rs:45-76 | Concrete steps after which a daemon with no shutdown recorded and no replacement alive still refuses to resume: a release that moved the record aside without deleting it, a replacement that claimed the file and was killed |
| Handoff.DaemonState.RequestShutdown | src/daemon/state.rs:305-314 | An external shutdown is recorded for good |
| Handoff.DaemonState.CommitRestartHandoff | src/daemon/state.rs:331-343 | The commit wins exactly if no external shutdown is recorded (and the lock is sound) |
| Handoff.DaemonState.ArmRestart | src/daemon/state.rs:345-360 | One attempt at a time: a second one is refused and its replacement killed |
| Handoff.DaemonState.TakeRestartAttempt | src/daemon/state.rs:362-364 | The attempt is handed out once |
| Handoff.DaemonState.ResumeAfterFailedRestart | src/daemon/state.rs:366-372 | The restart flags are cleared, and service resumes exactly if no external shutdown is recorded |
| Handoff.DaemonState.Restart | src/api/routes/system.rs:661-750 | A restart request arms a fresh replacement, or arms none: then it is dead, or a stray if it could not be killed |
| Handoff.DaemonState.Serve | src/daemon/mod.rs:246-256 | Serving keeps the record, arms an attempt exactly if a request prepares one, and ends normally only on a shutdown or with an armed replacement |
| Handoff.DaemonState.Interfere | src/lib.rs:103-161 | What others may do, move by move: a replacement claims the PID file only when it is free or its owner is dead, and never takes it from this daemon |
| Handoff.DaemonState.StopReplacement | src/daemon/mod.rs:86-124 | A confirmed stop means the replacement is dead; an unconfirmed one is an error |
| Handoff.DaemonState.WritePidFile | src/utils/pid.rs:17-70 | The file is claimed with a fresh token exactly as the attempts allow; a live owner is an error and keeps its record |
| Handoff.DaemonState.RemovePidFile | src/utils/pid.rs:72-114 | Only the record with this PID and token is removed; an absent file counts as removed |
| Handoff.PidFileGuard.Release | src/daemon/mod.rs:28-37 | Releasing an inactive guard does nothing; a failure keeps the guard active |
| Handoff.PidFileGuard.Reacquire | src/daemon/mod.rs:39-43 | Success puts a fresh own record on file |
| Handoff.PidFileGuard.EnsureOwned | src/daemon/mod.rs:45-60 | Only an own record, or a missing one that is written again, counts as owned; any other record is refused even if its owner is dead |
| Handoff.PidFileGuard.ReleaseWithRetry | src/daemon/mod.rs:62-76 | Six attempts while others act, decided exactly: success leaves no own record, failure keeps the guard active |
| Paginator.PaginateMessage | src/telegram/commands.rs:29-121 | Over 64 KiB is an error, up to 4,000 bytes one page; otherwise the greedy pagination of the tokens, page by page |
| PaginatorGuarantees.EndsIffRoomEverywhere | src/telegram/commands.rs:50-111 | The loop ends if and only if, wherever tags are open, a page with just those tags reopened has room for the next token and the closers after it |
| PaginatorGuarantees.PagesAreLossless | src/telegram/commands.rs:29-121 | The chunks of the pages joined are the text, and a page is the reopened tags, its chunk, and the closers |
| PaginatorGuarantees.PagesFit | src/telegram/commands.rs:95-108 | A page is over 4,000 bytes exactly if it is a single token outside all tags that no page could hold |
| PaginatorGuarantees.PagesAreFull | src/telegram/commands.rs:95-108 | A page that is not the last could not have held the next token and the closers after it within 4,000 bytes |
| PaginatorGuarantees.PagingIsUnique | src/telegram/commands.rs:95-108 | The greedy specification determines the cuts and the pages |
| PaginatorGuarantees.TokensKeepTheirTags | src/telegram/commands.rs:66-111 | Every token is shown under exactly the tags open at that point of the original text |
| PaginatorGuarantees.PagesAreBalanced | src/telegram/commands.rs:97-119 | A page is the text of its tokens, and they leave no tag open |
| PaginatorPages.PagesReadBack | src/telegram/commands.rs:52-119 | Read on its own a page gives back those tokens if and only if no tag is open at its end or no '<' of its chunk is left without a '>' |
| Markup.TokensAreLossless | src/telegram/commands.rs:52-65 | Tokens are non-empty and together are the text, so no tag or entity token is split |
| PaginatorPages.HeadOfTag | src/telegram/commands.rs:52-56 | A tag is one token, however long |
| PaginatorPages.HeadOfEntity | src/telegram/commands.rs:57-61 | An entity whose semicolon is within the first 17 bytes is one token, and any other is not |
| PaginatorPages.TagEffects | src/telegram/commands.rs:67-93 | Exactly nine tag names open, any name closes, and self-closing tags and declarations do neither |
| PaginatorPages.TagsWithAttributes | src/telegram/commands.rs:78-92 | Attributes make no difference to what a tag does |
| PaginatorPages.CloserClosesItsTag | src/telegram/commands.rs:69-77 | A closing tag closes the last open tag of its name with everything opened after it, and nothing if there is none |
| PaginatorPages.EscapeHtmlIsPerCharacter | src/telegram/commands.rs:976-980 | The three replacements of escape_html do not interfere: they escape character by character |
| PaginatorPages.EscapingIsInjective | src/telegram/commands.rs:976-980 | Different texts are escaped differently |
| PaginatorPages.EscapedReadsBack | src/telegram/commands.rs:976-980 | Whatever the text, a reader of HTML, who turns the three entities back into their characters, sees just that text |
| PaginatorPages.EscapeHtmlBounded | src/telegram/commands.rs:982-997 | The result is the escaped form of the longest prefix that fits, which a reader of HTML sees as that prefix, and the flag says whether something was left off |
| PaginatorMessages.MessagesPaginate | src/telegram/commands.rs:174-935 | Every message that is sent is escaped text, bare or between a tag and its closer. For all of these the loop ends, every page is at most 4,000 bytes, and every page on its own reads as its tags and its part of the message and leaves nothing open |
| PaginatorMessages.PagesShowTheText | src/telegram/commands.rs:29-121 | However a message is paged, what a reader sees on its pages, one after the other, is its raw text, character for character |
| PaginatorMessages.LongTagNeverEnds | src/telegram/commands.rs:95-108 | The input on which the loop never ends: within the 64 KiB, a link tag of 4,001 bytes or more and one more character |
| PaginatorMessages.DanglingPageMisreads | src/telegram/commands.rs:52-119 | The input whose first page misreads however it is paged: a bold tag, a '<' without '>', and more text than one page holds |
| TailReader.ReadLastLines | src/logging/reader.rs:16-50 | The backward chunk scan returns the last n complete lines within the last 8 MiB, wherever the chunks fall |
| TailReader.ReadsTheLastLines | src/logging/reader.rs:37-49 | Those are the last n lines of the file if and only if 8 MiB hold the whole file or n of its complete lines, and otherwise its last complete lines |
| TailReader.WrittenLinesAreRead | src/logging/reader.rs:43-44 | Whatever lines are written, each with either line ending, are read again, and an unterminated rest is a line of its own |
| LineDecoding.LinesDecode | src/logging/reader.rs:43-44 | Decoding and splitting into lines can be exchanged: the lines of the decoded text are the decoded lines of bytes |
| MergedLogs.ReadMergedLogs | src/logging/reader.rs:205-224 | The result is the last n of the stably sorted entries of the two ends |
| MergedLogs.TailsAreEnough | src/logging/reader.rs:205-224 | For logs in time order whose tails hold enough lines that equals the last n of the stable sort of both whole files |
| MergedLogs.OneLogIsReadIff | src/logging/reader.rs:205-224 | For one log on its own the condition is exact: the result is that of the whole file if and only if 8 MiB hold the whole file or n of its lines |
| MergedLogs.OneLongLineIsMissed | src/logging/reader.rs:46-48 | The input on which it fails: of a log of more than 8 MiB without a line feed nothing is shown |
| MergedLogs.UnsortedTailsCanMiss | src/logging/reader.rs:218-223 | Out of order it can differ |
| MergedLogs.SortingIsMerging | src/logging/reader.rs:218-219 | Stably sorting one sorted list after another is merging them, the first list first on ties |
| MergedLogs.StableSortIsAStableSort | src/logging/reader.rs:218-219 | The sort orders by timestamp, keeps every entry, and keeps entries of equal timestamp in their old order |
| MergedLogs.LogLineParses | src/logging/reader.rs:193-202 | A line with a timestamp in brackets is split into timestamp and content, and any line that does not begin with a bracket is all content |
| MergedLogs.LeqIsLexicographic | src/logging/reader.rs:219-219 | Timestamps are compared in dictionary order: a prefix first, else by the first difference |
| MergedLogs.EntriesAreLinesOfTheirStream | src/logging/reader.rs:212-217 | Every entry shown is a line of the log of its own stream |
| OutputLines.ForwardBoundedOutput | src/process/runner.rs:55-110 | However the stream is cut into chunks, the emitted lines are those of the whole stream; a failing read drops the unterminated line |
| OutputLines.ForwardedLinesAreTheLines | src/process/runner.rs:55-137 | Line by line they are the lines of the text, or prefixes of 64 KiB marked as truncated |
| OutputLines.ReadBoundedOutputLine | src/tunnel/mod.rs:386-425 | One call returns the first line of the remaining stream, oversized, the end or the error, and consumes exactly that line, for every chunking |
| OutputLines.FirstLineIsALine | src/tunnel/mod.rs:386-425 | A returned line is the next line of the text; only an unterminated last line loses a trailing carriage return |
| OutputLines.FirstLineIsReported | src/tunnel/mod.rs:386-425 | A line below 64 KiB is returned and one above reported as oversized, and either way the next call goes on with the next line |
| SseLines.DrainSseLines | src/client/daemon_client.rs:12-28 | Draining a buffer delivers its terminated lines and keeps the rest, or fails exactly where the whole text fails |
| SseLines.StreamLogs | src/client/daemon_client.rs:333-366 | What is delivered, and whether it ends with a size error, is what the text of the chunks decoded one by one amounts to; if no chunk ends inside a character it is what the bytes as a whole amount to, for every partition into chunks |
| Utf8Decoding.ChunksDecodeIff | src/client/daemon_client.rs:359-366 | Decoding chunk by chunk gives the text of the whole if and only if no chunk ends inside a character (or inside as much of one as there is) |
| Utf8Decoding.WholeLinesAreUncut | src/client/daemon_client.rs:359-366 | Chunks that end after a line feed, or any ASCII byte, meet that condition |
| Utf8Decoding.CutLetter | src/client/daemon_client.rs:364-364 | The input on which it fails: a letter of two bytes in two chunks becomes two replacement characters |
| Utf8Decoding.DecodeEncoded | src/client/daemon_client.rs:364-364 | Decoding the UTF-8 encoding of any text gives the text, and its length is the size that all byte limits count |
| SseLines.SucceedsIffBounded | src/client/daemon_client.rs:12-28 | The stream succeeds if and only if no piece between line feeds is over 1 MiB, and then delivers the payloads of all terminated lines |
| SseLines.EventsAreDelivered | src/client/daemon_client.rs:12-28 | Every event sent is delivered, in order, as the line it carries, for any lines without a line feed, within 1 MiB and not ending in white space |
| Utf8.TrimTakesWhiteEnds | src/client/daemon_client.rs:18-18 | Trimming takes the white space off both ends, all of it and nothing else |
| ArgumentTemplate.ParseArgumentTemplate | src/tunnel/mod.rs:335-371 | The parser computes the specified split; a result has no empty argument and is within the limits |
| ArgumentTemplate.ParsedArgumentsAreProper | src/tunnel/mod.rs:335-371 | No input ever yields an empty argument or exceeds the limits |
| ArgumentTemplate.ParseRendered | src/tunnel/mod.rs:335-371 | Parsing the quoted rendering of any list gives its non-empty arguments, or the limit error |
| ArgumentTemplate.RoundTripIff | src/tunnel/mod.rs:335-371 | The round trip is exact for exactly the lists without an empty argument within the limits |
| ArgumentTemplate.TemplatesParse | src/tunnel/mod.rs:335-371 | However arguments are written, in adjacent pieces that are bare, escaped, or in single or double quotes, with any white space around them, the template parses to their non-empty values, or to the limit error; a backslash before any other character stands for itself |
| ArgumentTemplate.WordsParseToThemselves | src/tunnel/mod.rs:335-371 | Words without quotes, backslashes and white space parse to exactly those words, and one word alone to itself |
| ArgumentTemplate.OpenQuoteIsReported | src/tunnel/mod.rs:359-363 | A quote left open behind any template is the error, and names that quote |
| Utf8.WhiteIsListed | src/tunnel/mod.rs:344-344 | White space is exactly the 25 characters of the Unicode property |
| ProcessTree.WindowsDescendants | src/process/tree.rs:287-300 | The fixpoint ends and is exactly the processes reachable from the root by parent links |
| ProcessTree.SumProcessTree | src/process/manager.rs:2974-2988 | The stack walk sums the usage of every process of the tree exactly once |
| ProcessTree.EqualUsagesMultiply | src/process/manager.rs:2974-2988 | What the sum means: n processes of equal usage use n times as much |
| ProcessTree.EndsIffRootIsNotItsDescendant | src/process/manager.rs:2974-2988 | With one parent for each process, the walk ends if and only if the root is not its own descendant |
| ProcessTree.TwoParentsNeverEnd | src/process/manager.rs:2974-2988 | The tables on which it does not: two processes, each the parent of the other |
| ProcessTree.ChildrenAreLinked | src/process/manager.rs:2807-2813 | The children map lists each child of a process once |
| LogStats.LogStatsState.constructor | src/models/log_stats.rs:40-47 | A new accumulator has recorded nothing |
| LogStats.LogStatsState.Record | src/models/log_stats.rs:50-76 | Recording keeps the open bucket and the history in step with the grouping of everything recorded |
| LogStats.LogStatsState.Snapshot | src/models/log_stats.rs:79-91 | A snapshot is the last at most 289 groups of all recorded lines |
| LogStats.GroupsAreExact | src/models/log_stats.rs:50-98 | The groups are in strictly increasing window order, hold exactly the lines of their window, are non-empty, and miss no window that has lines |
| LogStats.InOrderCountsPlainly | src/models/log_stats.rs:50-98 | For timestamps that never go back a line is counted in its own 300-second window |
| LogStats.OneWindow | src/models/log_stats.rs:50-98 | Lines of one window make one bucket, with as many lines of the stream as were recorded |

## Left out

- LifecycleGuarantees.NothingIsLostWithoutWatch: is stated for configurations that do not watch files; with watching it is false, as TreesAreSafeIffNotWatched says.
- LifecycleCron.RunsOverlapIffNotIdle: is stated for configurations that do not watch files, because it rests on the ownership invariant, and so is SleepingIsClear.
- LifecycleStops.TreesCanBeStopped: is stated for configurations that do not watch files; with watching a stop may be refused, as StoppableIffNotWatched says.
- LifecycleScenarios.StartComesUp: like the other runs there, says what happens when every step succeeds and no other task moves in between; what holds in every interleaving is said by the other lifecycle modules.
- Handoff.FilesAreClaimed: is stated without moves of others between the two looks; the exact function of all of them is the contract of WritePidFile.
- LifecycleGuarantees.RestartBudget: is stated without manual restarts, counter resets and file watching, each of which may raise or reset the counter.
- ManagedProcesses.ManagedProcess.EnabledSection: joins the two sections of set_enabled that surround the start of a cron scheduler. Putting the flag back after a failed stop or a failed start of the scheduler is a step of its own, which may come at any time.
- ManagedProcesses.ManagedProcess.SpawnSection: joins the spawn precheck and the write section, which the source runs one after the other without checking PID and status again.
- FileStore.LastOrSecondLast: holds of orderly runs only; LastKnownGoodIffOrderly says exactly which those are, and OneChangeAtATime what holds of the others.
- TelegramBot.OnlyTheLastUpdateCanRepeat: is stated for one token; TokenReturnRepeats shows what changing tokens does.
- Paginator.PaginateMessage: is called only where the loop ends; EndsIffRoomEverywhere says exactly where that is.
- ProcessTree.SumProcessTree: is called only where the walk ends; its sums are real numbers, so rounding of 32-bit floats is not modelled.
- MergedLogs.TailsAreEnough: is stated for at most 5,000 lines, which is what the callers ask for, for logs in time order, and for tails that hold enough lines; UnsortedTailsCanMiss and OneLogIsReadIff show what happens otherwise.
- Restoring snapshots, deleting, updating and manually restarting a process: they change the record outside the lifecycle sections modelled here. Deletion skips the stop of an entry that is already stopping.
- Concurrent explicit requests: at most one stop is in progress and other explicit requests wait for it, as the state mutation lock arranges.
- Scheduler handles, hooks, health checks and notifications: a cron tick may come at any time, whether or not its scheduler has been cancelled.
- The forwarder of file changes of an adopted process is taken to fire whatever the status.
- The result of a kill is decided in the step that records it. A confirmed kill means that the whole tree is dead, and the lifecycle model never reuses a PID.
- Generations, counters and byte counts are unbounded; wrap-around is not modelled.
- JSON text: documents are valid or invalid values, and a file that does not parse is corrupt. The size limit is one of the arbitrary reasons for which a write fails.
- Damage to files in the middle of a two-store transaction: backups belong to single files, so nothing is claimed about the pair.
- Handoff.DaemonState.ArmRestart: takes a replacement that is refused because another attempt is pending to be dead once it was waited for.
- The moment between the last look at a PID record and its removal, in which its content could still change.
- A restart request that is still running when the server has already ended.
- The timing of waits: a deadline may pass at any look, and a loop with a deadline looks a bounded number of times.
- Handoff files: readiness is a flag of the replacement, and removing its file has no effect.
- Output lines and the lines of a tunnel are bytes; LineDecoding says what decoding makes of lines.
- Which handled updates carry an authorised command: a handled update is one that passes the offset filter.
- HTTP routes, DNS, authentication, the desktop shell, the user interface, command-line parsing, configuration cascades and formatters: they would only add easy members.
