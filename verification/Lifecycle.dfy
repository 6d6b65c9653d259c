/** The lifecycle protocol of one managed process as a transition system
    (src/process/manager.rs, src/process/restarter.rs).

    One write-lock section is one step. A task is what an async function still has to do
    after its last section, with the values it captured there. A queued event is a task.
    The result of an OS kill, of a hook and of a log-file open is chosen by the step. */
module Lifecycle {
  import opened Wrappers
  import opened ManagedProcesses

  /** Why a tree is being cleaned up, with what the caller captured before. */
  datatype Purpose =
    | ForStop(previousStatus: Status, previousGeneration: nat)
    | ForRestart(restartedFrom: Status)
    | ForExit
    | ForMax(count: nat)
    | ForCron
    | ForAdopted

  datatype Origin = Requested | Respawned(previous: nat) | CronRun | Adopted

  datatype Task =
    | Restarting(stamp: nat)                                   // a queued Restart event
    | Ended(stamp: nat, purpose: Purpose)                      // a queued exit event
    | Cleaning(stamp: nat, purpose: Purpose, hold: Hold)       // inside terminate_retained_process_tree
    | Cleaned(stamp: nat, purpose: Purpose)                    // it returned Ok
    | CleanFailed(stamp: nat, purpose: Purpose)                // it returned an error
    | Respawning(stamp: nat)                                   // about to call do_spawn with this stamp
    | RespawnFailing(stamp: nat, spawned: bool)                // about to call mark_respawn_failed
    | Preparing(stamp: nat, origin: Origin)                    // hooks and environment, no child yet
    | Holding(stamp: nat, origin: Origin, tree: nat)           // child spawned, PID not published
    | Published(stamp: nat, origin: Origin, tree: nat)         // PID published, tree not handed over
    | Discarding(stamp: nat, origin: Origin, tree: nat, identified: bool)   // cleanup_failed_spawn
    | Retrying(retained: Option<nat>, tree: nat, identified: bool)          // its background retry loop
    | Attached(stamp: nat, origin: Origin, count: nat)         // watch_and_restart or the adopted watcher

  /** `trees` counts the trees spawned so far, `dead` those whose death was confirmed, and
      `history` lists the generations stamped on spawns, oldest first. Task 0 is the explicit
      stop in progress, if there is one. */
  datatype State = State(rec: Record, tasks: map<nat, Task>, trees: nat, dead: set<nat>, history: seq<nat>)

  datatype Step =
    // explicit requests
    | Start(id: nat)
    | Stop
    | Enable(on: bool)
    | Flag(on: bool)
    // background
    | Claim(id: nat)
    | GiveUp(id: nat)
    | Kill(id: nat, killed: bool)
    | Conclude(id: nat)
    | Restart(id: nat)
    | End(id: nat)
    | Respawn(id: nat, logsOpen: bool)
    | FailRespawn(id: nat)
    | FailPreparation(id: nat)
    | Abandon(id: nat)
    | Launch(id: nat)
    | Abort(id: nat, identified: bool)
    | Expose(id: nat)
    | Commit(id: nat)
    | Discard(id: nat, killed: bool, retry: nat)
    | Retry(id: nat, killed: bool)
    | Exit(id: nat, code: Option<int>)
    | FileChange(id: nat, adopted: bool)
    | Tick(id: nat)

  predicate Explicit(step: Step) {
    step.Start? || step.Stop? || step.Enable? || step.Flag?
  }

  /** The task a step moves or creates. */
  function Mover(step: Step): nat {
    match step
    case Stop => 0
    case Enable(_) => 0
    case Flag(_) => 0
    case _ => step.id
  }

  /** What one step does: the new record, what becomes of the moving task, a task it leaves
      behind, trees confirmed dead, whether a tree was spawned, whether a spawn was stamped. */
  datatype Outcome = Outcome(
    rec: Record, task: Option<Task>, left: Option<Task>, dead: set<nat>, launched: bool, stamped: bool)

  function Becomes(rec: Record, task: Option<Task>): Outcome {
    Outcome(rec, task, None, {}, false, false)
  }

  function Move(rec: Record, task: Task): Option<Outcome> {
    Some(Becomes(rec, Some(task)))
  }

  // ---- Explicit requests ----

  function SpawnBegun(rec: Record, origin: Origin): Outcome {
    Outcome(rec, Some(Preparing(rec.generation, origin)), None, {}, false, true)
  }

  function StartAct(r: Record): Option<Outcome> {
    match BeginSpawn(r, None)
    case None => None
    case Some(rec) => Some(SpawnBegun(rec, Requested))
  }

  function StopAct(r: Record): Option<Outcome> {
    if !Stoppable(r) then None
    else
      var rec := BeginStop(r);
      Move(rec, Cleaning(rec.generation, ForStop(r.status, r.generation), Waiting))
  }

  // ---- terminate_retained_process_tree ----

  function ClaimAct(r: Record, t: Task): Option<Outcome> {
    if !t.Cleaning? || !t.hold.Waiting? then None
    else
      var (rec, claim) := ClaimCleanup(r, t.stamp);
      match claim
      case Busy => None
      case Took(hold) => Move(rec, Cleaning(t.stamp, t.purpose, hold))
      case Nothing => Move(rec, Cleaned(t.stamp, t.purpose))
      case _ => Move(rec, CleanFailed(t.stamp, t.purpose))
  }

  /** Another cleanup has held the flag for six seconds. */
  function GiveUpAct(r: Record, t: Task): Option<Outcome> {
    if !t.Cleaning? || !t.hold.Waiting? || !r.cleaning then None
    else Move(r, CleanFailed(t.stamp, t.purpose))
  }

  function HeldTree(hold: Hold): nat
    requires !hold.Waiting?
  {
    if hold.Guard? then hold.tree else hold.pid
  }

  function KillAct(r: Record, t: Task, killed: bool): Option<Outcome> {
    if !t.Cleaning? || t.hold.Waiting? then None
    else
      var rec := FinishCleanup(r, t.hold, killed);
      if killed
      then Some(Becomes(rec, Some(Cleaned(t.stamp, t.purpose))).(dead := {HeldTree(t.hold)}))
      else Move(rec, CleanFailed(t.stamp, t.purpose))
  }

  /** The section each caller runs on the result of its cleanup. */
  function ConcludeAct(cfg: Config, r: Record, t: Task): Option<Outcome> {
    match t
    case CleanFailed(stamp, purpose) => Some(Becomes(FailedRecord(r, stamp, purpose), None))
    case Cleaned(stamp, purpose) => Some(CleanOutcome(cfg, r, stamp, purpose))
    case _ => None
  }

  function FailedRecord(r: Record, stamp: nat, purpose: Purpose): Record {
    match purpose
    case ForStop(previousStatus, previousGeneration) => RollBackStop(r, stamp, previousStatus, previousGeneration)
    case ForRestart(previousStatus) => RestoreAfterFailedRestart(r, stamp, previousStatus)
    case ForExit => RecordExitFailure(r, stamp)
    case ForMax(_) => RecordExitFailure(r, stamp)
    case ForCron => RecordCleanupFailure(r, stamp)
    case ForAdopted => RecordCleanupFailure(r, stamp)
  }

  function CleanOutcome(cfg: Config, r: Record, stamp: nat, purpose: Purpose): Outcome {
    match purpose
    case ForStop(_, _) => Becomes(CommitStop(r, stamp), None)
    case ForRestart(_) =>
      var (rec, respawn) := ClearForRespawn(r, stamp);
      Becomes(rec, if respawn then Some(Respawning(stamp)) else None)
    case ForExit => Becomes(RecordExit(r, cfg, stamp), None)
    case ForMax(count) => Becomes(RecordMaxRestarts(r, stamp, count), None)
    case ForCron => Becomes(FinishCronRun(r, stamp), None)
    case ForAdopted =>
      Becomes(RecordAdoptedExit(r, cfg, stamp), if Current(r, stamp) then AfterAdoptedExit(cfg, r, stamp) else None)
  }

  function AfterAdoptedExit(cfg: Config, r: Record, stamp: nat): Option<Task> {
    if cfg.cron then None
    else if cfg.autorestart && r.enabled && r.restartCount < cfg.maxRestarts then Some(Restarting(stamp))
    else Some(Ended(stamp, ForExit))
  }

  // ---- restart_loop ----

  function RestartAct(r: Record, t: Task): Option<Outcome> {
    if !t.Restarting? then None
    else
      match BeginRestart(r, t.stamp)
      case None => Some(Becomes(r, None))
      case Some(rec) => Move(rec, Cleaning(t.stamp, ForRestart(r.status), Waiting))
  }

  predicate StillRelevant(r: Record, stamp: nat, purpose: Purpose) {
    match purpose
    case ForExit => Current(r, stamp)
    case ForMax(count) => Current(r, stamp) && r.restartCount == count
    case _ => true
  }

  function EndAct(r: Record, t: Task): Option<Outcome> {
    if !t.Ended? then None
    else if StillRelevant(r, t.stamp, t.purpose) then Move(r, Cleaning(t.stamp, t.purpose, Waiting))
    else Some(Becomes(r, None))
  }

  function RespawnAct(r: Record, t: Task, logsOpen: bool): Option<Outcome> {
    if !t.Respawning? then None
    else
      var begun := BeginSpawn(r, Some(t.stamp));
      if begun.None? || !logsOpen then Move(r, RespawnFailing(t.stamp, false))
      else Some(SpawnBegun(begun.value, Respawned(t.stamp)))
  }

  function FailRespawnAct(r: Record, t: Task): Option<Outcome> {
    if !t.RespawnFailing? then None else Some(Becomes(MarkRespawnFailed(r, t.stamp), None))
  }

  // ---- do_spawn_with_event_inner and the cron run ----

  function AfterFailedSpawn(origin: Origin): Option<Task> {
    if origin.Respawned? then Some(RespawnFailing(origin.previous, true)) else None
  }

  function FailPreparationAct(r: Record, t: Task): Option<Outcome> {
    if !t.Preparing? then None else Some(Becomes(MarkErrored(r, t.stamp), AfterFailedSpawn(t.origin)))
  }

  /** A cron run that finds itself cancelled before it has a child just returns. */
  function AbandonAct(r: Record, t: Task): Option<Outcome> {
    if !t.Preparing? || !t.origin.CronRun? || Admits(r, t.stamp) then None else Some(Becomes(r, None))
  }

  function LaunchAct(r: Record, t: Task, tree: nat): Option<Outcome> {
    if !t.Preparing? then None
    else Some(Becomes(r, Some(Holding(t.stamp, t.origin, tree))).(launched := true))
  }

  /** No identity could be captured, or a watcher or scheduler could not be attached. */
  function AbortAct(r: Record, t: Task, identified: bool): Option<Outcome> {
    match t
    case Holding(stamp, origin, tree) => Move(r, Discarding(stamp, origin, tree, identified))
    case Published(stamp, origin, tree) => Move(r, Discarding(stamp, origin, tree, true))
    case _ => None
  }

  function ExposeAct(r: Record, t: Task): Option<Outcome> {
    if !t.Holding? then None
    else if t.origin.CronRun? then
      match CommitCronRun(r, t.stamp, t.tree)
      case None => Move(r, Discarding(t.stamp, t.origin, t.tree, true))
      case Some(rec) => Move(rec, Attached(t.stamp, t.origin, rec.restartCount))
    else
      match Publish(r, t.stamp, t.tree)
      case None => Move(r, Discarding(t.stamp, t.origin, t.tree, true))
      case Some(rec) => Move(rec, Published(t.stamp, t.origin, t.tree))
  }

  function CommitAct(cfg: Config, r: Record, t: Task): Option<Outcome> {
    if !t.Published? then None
    else
      match CommitSpawn(r, cfg, t.stamp, t.tree)
      case None => Move(r, Discarding(t.stamp, t.origin, t.tree, true))
      case Some(rec) => Move(rec, Attached(t.stamp, t.origin, rec.restartCount))
  }

  function DiscardAct(r: Record, t: Task, killed: bool): Option<Outcome> {
    if !t.Discarding? then None
    else
      var rec := DiscardSpawn(r, t.stamp, t.tree, t.identified, killed);
      var retained := if r.generation == t.stamp then Some(rec.generation) else None;
      Some(Outcome(rec, AfterFailedSpawn(t.origin),
                   if killed then None else Some(Retrying(retained, t.tree, t.identified)),
                   if killed then {t.tree} else {}, false, false))
  }

  /** A failed attempt may still capture the identity the first attempt lacked. */
  function RetryAct(r: Record, t: Task, killed: bool): Option<Outcome> {
    if !t.Retrying? then None
    else if killed then Some(Becomes(ReleaseRetained(r, t.retained, t.tree), None).(dead := {t.tree}))
    else if t.identified then Move(r, t)
    else Move(CaptureIdentity(r, t.retained, t.tree), t.(identified := Retains(r, t.retained, t.tree)))
  }

  // ---- Sources of events ----

  /** watch_and_restart decides from the policy captured at spawn time. */
  function Verdict(cfg: Config, stamp: nat, count: nat, code: Option<int>): Task {
    if code == Some(0) || cfg.cron || !cfg.autorestart then Ended(stamp, ForExit)
    else if count >= cfg.maxRestarts then Ended(stamp, ForMax(count))
    else Restarting(stamp)
  }

  function ExitAct(cfg: Config, r: Record, t: Task, code: Option<int>): Option<Outcome> {
    if !t.Attached? then None
    else
      match t.origin
      case Adopted => Move(r, Cleaning(t.stamp, ForAdopted, Waiting))
      case CronRun => Move(r, Ended(t.stamp, ForCron))
      case _ => Move(r, Verdict(cfg, t.stamp, t.count, code))
  }

  /** A file watcher sends a Restart event stamped with the generation it reads. The
      forwarder of an adopted process does not look at the status. */
  function FileChangeAct(cfg: Config, r: Record, adopted: bool): Option<Outcome> {
    if !cfg.watch || !r.desired || !(adopted || r.status.Running? || r.status.Watching?) then None
    else Move(r, Restarting(r.generation))
  }

  function TickAct(cfg: Config, r: Record): Option<Outcome> {
    match BeginCronRun(r)
    case None => None
    case Some(rec) => if cfg.cron then Some(SpawnBegun(rec, CronRun)) else None
  }

  // ---- One step ----

  /** A step that creates its task. */
  function CreatorAct(cfg: Config, r: Record, step: Step): Option<Outcome> {
    match step
    case Start(_) => StartAct(r)
    case Stop => StopAct(r)
    case Enable(on) => Some(Becomes(SetEnabled(r, cfg, on), None))
    case Flag(on) => Some(Becomes(r.(enabled := on), None))
    case FileChange(_, adopted) => FileChangeAct(cfg, r, adopted)
    case Tick(_) => TickAct(cfg, r)
    case _ => None
  }

  /** A step of a task already in flight. */
  function TaskAct(cfg: Config, r: Record, trees: nat, t: Task, step: Step): Option<Outcome> {
    match step
    case Claim(_) => ClaimAct(r, t)
    case GiveUp(_) => GiveUpAct(r, t)
    case Kill(_, killed) => KillAct(r, t, killed)
    case Conclude(_) => ConcludeAct(cfg, r, t)
    case Restart(_) => RestartAct(r, t)
    case End(_) => EndAct(r, t)
    case Respawn(_, logsOpen) => RespawnAct(r, t, logsOpen)
    case FailRespawn(_) => FailRespawnAct(r, t)
    case FailPreparation(_) => FailPreparationAct(r, t)
    case Abandon(_) => AbandonAct(r, t)
    case Launch(_) => LaunchAct(r, t, trees)
    case Abort(_, identified) => AbortAct(r, t, identified)
    case Expose(_) => ExposeAct(r, t)
    case Commit(_) => CommitAct(cfg, r, t)
    case Discard(_, killed, _) => DiscardAct(r, t, killed)
    case Retry(_, killed) => RetryAct(r, t, killed)
    case Exit(_, code) => ExitAct(cfg, r, t, code)
    case _ => None
  }

  predicate Creates(step: Step) {
    Explicit(step) || step.FileChange? || step.Tick?
  }

  /** Explicit requests wait for a stop in progress; new tasks take unused numbers. */
  predicate Ready(s: State, step: Step) {
    && (Explicit(step) ==> 0 !in s.tasks)
    && (step.Start? || step.FileChange? || step.Tick? ==> step.id != 0 && step.id !in s.tasks)
    && (!Creates(step) ==> step.id in s.tasks)
    && (step.Discard? ==> step.retry != 0 && step.retry !in s.tasks)
  }

  function Act(cfg: Config, s: State, step: Step): Option<Outcome> {
    if !Ready(s, step) then None
    else if Creates(step) then CreatorAct(cfg, s.rec, step)
    else TaskAct(cfg, s.rec, s.trees, s.tasks[step.id], step)
  }

  function Settle(s: State, step: Step, o: Outcome): State {
    var moved := if o.task.Some? then s.tasks[Mover(step) := o.task.value] else s.tasks - {Mover(step)};
    State(o.rec,
          if step.Discard? && o.left.Some? then moved[step.retry := o.left.value] else moved,
          if o.launched then s.trees + 1 else s.trees,
          s.dead + o.dead,
          if o.stamped then s.history + [o.rec.generation] else s.history)
  }

  function Next(cfg: Config, s: State, step: Step): Option<State> {
    match Act(cfg, s, step)
    case None => None
    case Some(o) => Some(Settle(s, step, o))
  }

  /** The state after a whole run, if every step of it is possible. */
  function Run(cfg: Config, s: State, steps: seq<Step>): Option<State>
    decreases |steps|
  {
    if steps == [] then Some(s)
    else
      match Next(cfg, s, steps[0])
      case None => None
      case Some(t) => Run(cfg, t, steps[1..])
  }

  // ---- Where a run may begin ----

  /** register_stopped, register_sleeping and register_running_adopted. The last one leaves a
      process Errored whose tree it could not take over, or took over but could not preserve,
      and in either case could not kill. */
  datatype Origination = AsStopped | AsSleeping | AsAdopted | AsErrored(guarded: bool)

  function Initial(cfg: Config, how: Origination, enabled: bool, count: nat): State {
    match how
    case AsStopped => State(Record(Stopped, None, false, None, false, false, 0, count, enabled), map[], 0, {}, [])
    case AsSleeping => State(Record(Sleeping, None, false, None, false, true, 1, count, enabled), map[], 0, {}, [])
    case AsAdopted =>
      State(Record(if cfg.watch then Watching else Running, Some(0), true, Some(0), false, true, 1, count, enabled),
            map[1 := Attached(1, Adopted, count)], 1, {}, [1])
    case AsErrored(guarded) =>
      State(Record(Errored, Some(0), true, if guarded then Some(0) else None, false, false, 1, count, enabled),
            map[], 1, {}, [])
  }

  ghost predicate Reachable(cfg: Config, s: State) {
    exists how, enabled, count, steps :: Run(cfg, Initial(cfg, how, enabled, count), steps) == Some(s)
  }

  // ---- Putting runs together ----

  lemma {:induction false} RunExtends(cfg: Config, s: State, steps: seq<Step>, more: seq<Step>)
    requires Run(cfg, s, steps).Some?
    ensures Run(cfg, s, steps + more) == Run(cfg, Run(cfg, s, steps).value, more)
    decreases |steps|
  {
    if steps == [] {
      assert steps + more == more;
    } else {
      assert (steps + more)[0] == steps[0] && (steps + more)[1..] == steps[1..] + more;
      RunExtends(cfg, Next(cfg, s, steps[0]).value, steps[1..], more);
    }
  }

  /** One more step at the end of a run. */
  lemma Extend(cfg: Config, origin: State, steps: seq<Step>, s: State, step: Step, t: State)
    requires Run(cfg, origin, steps) == Some(s) && Next(cfg, s, step).Some?
    requires var n := Next(cfg, s, step).value;
      n.rec == t.rec && n.tasks == t.tasks && n.trees == t.trees && n.dead == t.dead && n.history == t.history
    ensures Run(cfg, origin, steps + [step]) == Some(t)
  {
    RunExtends(cfg, origin, steps, [step]);
    assert [step][1..] == [];
    assert Run(cfg, t, []) == Some(t);
  }

  lemma RunBegins(cfg: Config, s: State)
    ensures Run(cfg, s, []) == Some(s)
  {
  }
}
