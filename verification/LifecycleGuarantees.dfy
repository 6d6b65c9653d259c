/** What the ownership invariant means for a process without watch mode. */
module LifecycleGuarantees {
  import opened Wrappers
  import opened ManagedProcesses
  import opened Lifecycle
  import opened LifecycleStamps
  import opened LifecycleOwnership

  function Max(a: nat, b: nat): nat {
    if a < b then b else a
  }

  lemma ReachableIsSound(cfg: Config, s: State) returns (limit: nat)
    requires !cfg.watch && Reachable(cfg, s)
    ensures Sound(cfg, s, limit)
  {
    var how, enabled, count, steps :| Run(cfg, Initial(cfg, how, enabled, count), steps) == Some(s);
    limit := Max(count, cfg.maxRestarts);
    InitialIsSound(cfg, how, enabled, count, limit);
    SoundRun(cfg, Initial(cfg, how, enabled, count), steps, limit);
  }

  /** No interleaving loses a live tree. */
  lemma NothingIsLostWithoutWatch(cfg: Config, s: State)
    requires !cfg.watch && Reachable(cfg, s)
    ensures NoTreeLost(s)
  {
    var limit := ReachableIsSound(cfg, s);
    SoundLosesNoTree(cfg, s, limit);
  }

  /** Crash restarts never push the counter above the larger of its first value and the limit. */
  lemma RestartBudget(cfg: Config, how: Origination, enabled: bool, count: nat, steps: seq<Step>)
    requires !cfg.watch && Run(cfg, Initial(cfg, how, enabled, count), steps).Some?
    ensures Run(cfg, Initial(cfg, how, enabled, count), steps).value.rec.restartCount <= Max(count, cfg.maxRestarts)
  {
    var limit := Max(count, cfg.maxRestarts);
    InitialIsSound(cfg, how, enabled, count, limit);
    SoundRun(cfg, Initial(cfg, how, enabled, count), steps, limit);
  }

  /** A failed respawn only ever concerns its own spawn. */
  lemma RespawnFailureIsOwn(cfg: Config, s: State, id: nat)
    requires !cfg.watch && Reachable(cfg, s) && id in s.tasks && s.tasks[id].RespawnFailing?
    requires RespawnFailureApplies(s.rec, s.tasks[id].stamp)
    ensures s.rec.generation == LineStamp(s.tasks[id])
    ensures s.rec.tree.None?
  {
    var limit := ReachableIsSound(cfg, s);
    assert id != 0 && 0 !in s.tasks;
    assert TaskOk(cfg, s.rec, StopTask(s), s.tasks[id]);
  }

  // ---- A cron run whose tree cleanup failed ----

  /** Not desired, not sleeping, and no request in progress to change that. */
  ghost predicate Down(cfg: Config, s: State, limit: nat) {
    Sound(cfg, s, limit) && 0 !in s.tasks && !s.rec.desired && s.rec.status != Sleeping
  }

  lemma DownCleanup(cfg: Config, r: Record, trees: nat, limit: nat, t: Task, step: Step)
    requires Movable(cfg, r, None, limit, t) && TaskAct(cfg, r, trees, t, step).Some? && CleanupStep(step)
    requires !r.desired && r.status != Sleeping
    ensures !TaskAct(cfg, r, trees, t, step).value.rec.desired
    ensures TaskAct(cfg, r, trees, t, step).value.rec.status != Sleeping
  {
  }

  lemma DownTask(cfg: Config, r: Record, trees: nat, limit: nat, t: Task, step: Step)
    requires Movable(cfg, r, None, limit, t) && TaskAct(cfg, r, trees, t, step).Some?
    requires !r.desired && r.status != Sleeping
    ensures !TaskAct(cfg, r, trees, t, step).value.rec.desired
    ensures TaskAct(cfg, r, trees, t, step).value.rec.status != Sleeping
  {
    if CleanupStep(step) {
      DownCleanup(cfg, r, trees, limit, t, step);
    }
  }

  lemma DownStep(cfg: Config, s: State, step: Step, limit: nat)
    requires Down(cfg, s, limit) && !Explicit(step) && Next(cfg, s, step).Some?
    ensures Down(cfg, Next(cfg, s, step).value, limit) && !step.Tick?
  {
    SoundStep(cfg, s, step, limit);
    if !Creates(step) {
      DownTask(cfg, s.rec, s.trees, limit, s.tasks[step.id], step);
    }
  }

  lemma {:induction false} DownRun(cfg: Config, s: State, steps: seq<Step>, limit: nat)
    requires Down(cfg, s, limit) && Run(cfg, s, steps).Some?
    requires forall i :: 0 <= i < |steps| ==> !Explicit(steps[i])
    ensures Down(cfg, Run(cfg, s, steps).value, limit)
    ensures forall i :: 0 <= i < |steps| ==> !steps[i].Tick?
    decreases |steps|
  {
    if steps != [] {
      DownStep(cfg, s, steps[0], limit);
      DownRun(cfg, Next(cfg, s, steps[0]).value, steps[1..], limit);
    }
  }

  lemma FailedCronRunIsDown(cfg: Config, s: State, id: nat, limit: nat)
    requires Sound(cfg, s, limit) && id in s.tasks && Next(cfg, s, Conclude(id)).Some?
    requires s.tasks[id].CleanFailed? && s.tasks[id].purpose.ForCron? && Current(s.rec, s.tasks[id].stamp)
    ensures Down(cfg, Next(cfg, s, Conclude(id)).value, limit)
  {
    SoundStep(cfg, s, Conclude(id), limit);
    assert id != 0 && 0 !in s.tasks;
    var o := ConcludeAct(cfg, s.rec, s.tasks[id]).value;
    assert o.rec.status == Errored && !o.rec.desired;
  }

  /** Once the cleanup of a cron run has failed, no background step puts the process back
      to sleep, so no tick starts another run before an explicit request. */
  lemma FailedCronRunStaysDown(cfg: Config, s: State, id: nat, steps: seq<Step>)
    requires !cfg.watch && Reachable(cfg, s)
    requires id in s.tasks && s.tasks[id].CleanFailed? && s.tasks[id].purpose.ForCron?
    requires Current(s.rec, s.tasks[id].stamp)
    requires Run(cfg, s, [Conclude(id)] + steps).Some?
    requires forall i :: 0 <= i < |steps| ==> !Explicit(steps[i])
    ensures var t := Run(cfg, s, [Conclude(id)] + steps).value; t.rec.status != Sleeping && !t.rec.desired
    ensures forall i :: 0 <= i < |steps| ==> !steps[i].Tick?
  {
    var limit := ReachableIsSound(cfg, s);
    var all := [Conclude(id)] + steps;
    assert all[0] == Conclude(id) && all[1..] == steps;
    FailedCronRunIsDown(cfg, s, id, limit);
    DownRun(cfg, Next(cfg, s, Conclude(id)).value, steps, limit);
  }

  // ---- A process that always crashes ----

  /** The steps left to a process that always crashes while every cleanup and respawn works. */
  predicate Crashing(step: Step) {
    match step
    case Exit(_, code) => code != Some(0)
    case Kill(_, killed) => killed
    case Respawn(_, logsOpen) => logsOpen
    case Claim(_) => true
    case Conclude(_) => true
    case Restart(_) => true
    case End(_) => true
    case Launch(_) => true
    case Expose(_) => true
    case Commit(_) => true
    case _ => false
  }

  predicate CrashConfig(cfg: Config) {
    !cfg.watch && !cfg.cron && cfg.autorestart
  }

  predicate Restarted(origin: Origin) {
    origin.Requested? || origin.Respawned?
  }

  /** One line of tasks, at one of the stages of the crash loop. */
  predicate CrashStage(cfg: Config, r: Record, t: Task) {
    && Line(t) && !t.RespawnFailing? && Admits(r, t.stamp) && (r.cleaning <==> Holder(t))
    && match t
       case Attached(_, origin, count) =>
         Restarted(origin) && count == r.restartCount && r.status != Stopping && r.tree.Some? && r.pid == r.tree
       case Restarting(_) => r.restartCount < cfg.maxRestarts && r.status != Stopping && r.tree.Some? && r.pid == r.tree
       case Ended(_, purpose) =>
         cfg.maxRestarts <= r.restartCount && purpose == ForMax(r.restartCount) && r.tree.Some? && r.pid == r.tree
       case Cleaning(_, purpose, hold) =>
         CrashPurpose(cfg, r, purpose) && HoldOk(r, hold) && !hold.Identity?
         && (hold.Waiting? ==> r.tree.Some? && r.pid == r.tree)
       case Cleaned(_, purpose) => CrashPurpose(cfg, r, purpose) && Clear(r)
       case Respawning(_) => Clear(r) && r.restartCount <= cfg.maxRestarts
       case Preparing(_, origin) => Restarted(origin) && Clear(r)
       case Holding(_, origin, _) => Restarted(origin) && Clear(r)
       case Published(_, origin, tree) => Restarted(origin) && r.tree.None? && r.pid == Some(tree)
       case _ => false
  }

  predicate CrashPurpose(cfg: Config, r: Record, purpose: Purpose) {
    if r.restartCount < cfg.maxRestarts then purpose.ForRestart? else purpose == ForMax(r.restartCount)
  }

  /** How many steps are left: nine for each restart still allowed, and the last five. */
  function Remaining(cfg: Config, r: Record, t: Task): nat {
    var restarts := if r.restartCount < cfg.maxRestarts then cfg.maxRestarts - r.restartCount else 0;
    9 * restarts + match t
      case Respawning(_) => 9
      case Preparing(_, _) => 8
      case Holding(_, _, _) => 7
      case Published(_, _, _) => 6
      case Attached(_, _, _) => 5
      case Restarting(_) => 4
      case Ended(_, _) => 4
      case Cleaning(_, _, hold) => if hold.Waiting? then 3 else 2
      case _ => 1
  }

  lemma CrashTask(cfg: Config, r: Record, trees: nat, t: Task, step: Step)
    requires CrashConfig(cfg) && CrashStage(cfg, r, t) && Crashing(step) && TaskAct(cfg, r, trees, t, step).Some?
    ensures var o := TaskAct(cfg, r, trees, t, step).value;
      && o.left.None?
      && r.restartCount <= o.rec.restartCount <= Max(r.restartCount, cfg.maxRestarts)
      && (if o.task.Some?
          then CrashStage(cfg, o.rec, o.task.value) && Remaining(cfg, o.rec, o.task.value) == Remaining(cfg, r, t) - 1
          else Remaining(cfg, r, t) == 1 && o.rec.status == Errored && !o.rec.desired && Clear(o.rec)
               && o.rec.restartCount >= cfg.maxRestarts)
  {
  }

  /** The crash loop is never stuck before it is over. */
  lemma CrashProceeds(cfg: Config, r: Record, trees: nat, t: Task, id: nat) returns (step: Step)
    requires CrashConfig(cfg) && CrashStage(cfg, r, t)
    ensures Crashing(step) && !Creates(step) && step.id == id && TaskAct(cfg, r, trees, t, step).Some?
  {
    match t {
      case Attached(_, _, _) => step := Exit(id, None);
      case Restarting(_) => step := Restart(id);
      case Ended(_, _) => step := End(id);
      case Cleaning(_, _, hold) => step := if hold.Waiting? then Claim(id) else Kill(id, true);
      case Cleaned(_, _) => step := Conclude(id);
      case Respawning(_) => step := Respawn(id, true);
      case Preparing(_, _) => step := Launch(id);
      case Holding(_, _, _) => step := Expose(id);
      case Published(_, _, _) => step := Commit(id);
    }
  }

  /** A process that always crashes, with cleanups and respawns succeeding, is Errored after
      exactly the steps its remaining budget allows, in every order they can be taken, and it
      can always take the next one. */
  lemma {:induction false} AlwaysCrashingEndsErrored(cfg: Config, s: State, id: nat, steps: seq<Step>)
    requires CrashConfig(cfg) && s.tasks.Keys == {id} && CrashStage(cfg, s.rec, s.tasks[id])
    requires (forall i :: 0 <= i < |steps| ==> Crashing(steps[i])) && Run(cfg, s, steps).Some?
    ensures var t := Run(cfg, s, steps).value;
      && |steps| <= Remaining(cfg, s.rec, s.tasks[id])
      && s.rec.restartCount <= t.rec.restartCount <= Max(s.rec.restartCount, cfg.maxRestarts)
      && (|steps| == Remaining(cfg, s.rec, s.tasks[id]) ==>
            t.tasks == map[] && t.rec.status == Errored && !t.rec.desired && t.rec.restartCount >= cfg.maxRestarts)
      && (|steps| < Remaining(cfg, s.rec, s.tasks[id]) ==>
            exists step :: Crashing(step) && Next(cfg, t, step).Some?)
    decreases |steps|
  {
    if steps == [] {
      var step := CrashProceeds(cfg, s.rec, s.trees, s.tasks[id], id);
      assert Next(cfg, s, step).Some?;
    } else {
      CrashTask(cfg, s.rec, s.trees, s.tasks[id], steps[0]);
      var t := Next(cfg, s, steps[0]).value;
      if id in t.tasks {
        assert t.tasks.Keys == {id};
        AlwaysCrashingEndsErrored(cfg, t, id, steps[1..]);
      } else {
        assert t.tasks == map[];
        NothingCrashes(cfg, t, steps[1..]);
      }
    }
  }

  lemma NothingCrashes(cfg: Config, s: State, steps: seq<Step>)
    requires s.tasks == map[] && (forall i :: 0 <= i < |steps| ==> Crashing(steps[i])) && Run(cfg, s, steps).Some?
    ensures steps == []
  {
    hide Next;
    if steps != [] {
      NothingMoves(cfg, s, steps[0]);
    }
  }

  lemma NothingMoves(cfg: Config, s: State, step: Step)
    requires s.tasks == map[] && Crashing(step)
    ensures Next(cfg, s, step).None?
  {
  }

  /** In particular one that is started and always crashes: nine steps for every restart
      still allowed, and eight more. */
  lemma StartedAndAlwaysCrashing(cfg: Config, count: nat, id: nat, steps: seq<Step>)
    requires CrashConfig(cfg) && id != 0 && |steps| == 9 * (Max(count, cfg.maxRestarts) - count) + 8
    requires forall i :: 0 <= i < |steps| ==> Crashing(steps[i])
    requires Run(cfg, Initial(cfg, AsStopped, true, count), [Start(id)] + steps).Some?
    ensures var t := Run(cfg, Initial(cfg, AsStopped, true, count), [Start(id)] + steps).value;
      t.tasks == map[] && t.rec.status == Errored && t.rec.restartCount == Max(count, cfg.maxRestarts)
  {
    var all := [Start(id)] + steps;
    assert all[0] == Start(id) && all[1..] == steps;
    AlwaysCrashingEndsErrored(cfg, Next(cfg, Initial(cfg, AsStopped, true, count), Start(id)).value, id, steps);
  }
}
