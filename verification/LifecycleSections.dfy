/** The transition system carried out by the sections of a managed process
    (src/process/manager.rs): every step is one call of a section method on the record in
    place, and whatever is asked of the manager in whatever order stays a run. */
module LifecycleSections {
  import opened Wrappers
  import opened ManagedProcesses
  import opened Lifecycle
  import opened LifecycleStamps
  import opened LifecycleOwnership
  import opened LifecycleGuarantees

  class ProcessManager {
    const process: ManagedProcess
    var tasks: map<nat, Task>
    var trees: nat
    var dead: set<nat>
    var history: seq<nat>

    function Contents(): State
      reads this, process
    {
      State(process.Snapshot(), tasks, trees, dead, history)
    }

    /** Registers a process as one of the registration functions leaves it. */
    constructor (cfg: Config, how: Origination, enabled: bool, count: nat)
      ensures fresh(process) && process.cfg == cfg
      ensures Contents() == Initial(cfg, how, enabled, count)
    {
      process := new ManagedProcess(cfg, enabled, count);
      tasks, trees, dead, history := map[], 0, {}, [];
      new;
      if how.AsSleeping? {
        process.desired, process.generation, process.status := true, 1, Sleeping;
      } else if !how.AsStopped? {
        trees := 1;
        process.pid, process.identity, process.generation := Some(0), true, 1;
        if how.AsErrored? {
          process.status := Errored;
          process.tree := if how.guarded then Some(0) else None;
        } else {
          process.status := if cfg.watch then Watching else Running;
          process.tree, process.desired := Some(0), true;
          tasks, history := map[1 := Attached(1, Adopted, count)], [1];
        }
      }
    }

    /** The section of an explicit request, of a file watcher or of a cron tick. */
    method Request(step: Step) returns (o: Option<Outcome>)
      requires Creates(step)
      modifies process
      ensures o == CreatorAct(process.cfg, old(process.Snapshot()), step)
      ensures process.Snapshot() == if o.Some? then o.value.rec else old(process.Snapshot())
    {
      match step {
        case Start(_) =>
          var accepted := process.SpawnSection(None);
          return if accepted then Some(SpawnBegun(process.Snapshot(), Requested)) else None;
        case Stop =>
          var accepted, previousStatus, previousGeneration := process.StopSection();
          if accepted {
            var purpose := ForStop(previousStatus, previousGeneration);
            return Move(process.Snapshot(), Cleaning(process.generation, purpose, Waiting));
          }
          return None;
        case Enable(on) =>
          process.EnabledSection(on);
          return Some(Becomes(process.Snapshot(), None));
        case Flag(on) =>
          process.enabled := on;
          return Some(Becomes(process.Snapshot(), None));
        case FileChange(_, adopted) =>
          if !process.cfg.watch || !process.desired {
            return None;
          }
          if !adopted && !process.status.Running? && !process.status.Watching? {
            return None;
          }
          return Move(process.Snapshot(), Restarting(process.generation));
        case Tick(_) =>
          if !process.cfg.cron {
            return None;
          }
          var accepted := process.CronSection();
          return if accepted then Some(SpawnBegun(process.Snapshot(), CronRun)) else None;
        case _ =>
          assert false;
      }
    }

    /** terminate_retained_process_tree up to its result. */
    method CleanUp(t: Task, step: Step) returns (o: Option<Outcome>)
      requires step.Claim? || step.GiveUp? || step.Kill?
      modifies process
      ensures o == TaskAct(process.cfg, old(process.Snapshot()), trees, t, step)
      ensures process.Snapshot() == if o.Some? then o.value.rec else old(process.Snapshot())
    {
      if !t.Cleaning? || t.hold.Waiting? == step.Kill? {
        return None;
      }
      if step.Kill? {
        process.ReleaseSection(t.hold, step.killed);
        if !step.killed {
          return Move(process.Snapshot(), CleanFailed(t.stamp, t.purpose));
        }
        o := Move(process.Snapshot(), Cleaned(t.stamp, t.purpose));
        return Some(o.value.(dead := {HeldTree(t.hold)}));
      }
      if step.GiveUp? {
        return if process.cleaning then Move(process.Snapshot(), CleanFailed(t.stamp, t.purpose)) else None;
      }
      var claim := process.ClaimSection(t.stamp);
      match claim {
        case Busy => o := None;
        case Took(hold) => o := Move(process.Snapshot(), Cleaning(t.stamp, t.purpose, hold));
        case Nothing => o := Move(process.Snapshot(), Cleaned(t.stamp, t.purpose));
        case _ => o := Move(process.Snapshot(), CleanFailed(t.stamp, t.purpose));
      }
    }

    /** What each caller of a cleanup does once it has succeeded. */
    method AfterCleanup(stamp: nat, purpose: Purpose) returns (o: Outcome)
      modifies process
      ensures o == CleanOutcome(process.cfg, old(process.Snapshot()), stamp, purpose)
      ensures process.Snapshot() == o.rec
    {
      var next: Option<Task> := None;
      match purpose {
        case ForStop(_, _) => process.StopCommitSection(stamp);
        case ForRestart(_) =>
          var respawn := process.RespawnSection(stamp);
          next := if respawn then Some(Respawning(stamp)) else None;
        case ForExit => process.ExitSection(stamp);
        case ForMax(count) => process.MaxRestartsSection(stamp, count);
        case ForCron => process.CronFinishSection(stamp);
        case ForAdopted =>
          var applied := process.AdoptedExitSection(stamp);
          if applied && !process.cfg.cron {
            next :=
              if process.cfg.autorestart && process.enabled && process.restartCount < process.cfg.maxRestarts
              then Some(Restarting(stamp)) else Some(Ended(stamp, ForExit));
          }
      }
      return Becomes(process.Snapshot(), next);
    }

    /** And once it has failed. */
    method AfterFailedCleanup(stamp: nat, purpose: Purpose)
      modifies process
      ensures process.Snapshot() == FailedRecord(old(process.Snapshot()), stamp, purpose)
    {
      match purpose {
        case ForStop(previousStatus, previousGeneration) =>
          process.StopFailedSection(stamp, previousStatus, previousGeneration);
        case ForRestart(previousStatus) => process.RestartFailedSection(stamp, previousStatus);
        case ForExit => process.ExitFailedSection(stamp);
        case ForMax(_) => process.ExitFailedSection(stamp);
        case ForCron => process.CleanupFailedSection(stamp);
        case ForAdopted => process.CleanupFailedSection(stamp);
      }
    }

    /** The sections of restart_loop, and the ends of cleanups and processes. */
    method React(t: Task, step: Step) returns (o: Option<Outcome>)
      requires EventStep(step) || step.Conclude?
      modifies process
      ensures o == TaskAct(process.cfg, old(process.Snapshot()), trees, t, step)
      ensures process.Snapshot() == if o.Some? then o.value.rec else old(process.Snapshot())
    {
      o := None;
      match (step, t) {
        case (Conclude(_), Cleaned(stamp, purpose)) =>
          var done := AfterCleanup(stamp, purpose);
          o := Some(done);
        case (Conclude(_), CleanFailed(stamp, purpose)) =>
          AfterFailedCleanup(stamp, purpose);
          o := Some(Becomes(process.Snapshot(), None));
        case (Restart(_), Restarting(stamp)) =>
          var accepted, previousStatus := process.RestartSection(stamp);
          var next := Cleaning(stamp, ForRestart(previousStatus), Waiting);
          o := Some(Becomes(process.Snapshot(), if accepted then Some(next) else None));
        case (End(_), Ended(stamp, purpose)) =>
          var relevant := StillRelevant(process.Snapshot(), stamp, purpose);
          o := Some(Becomes(process.Snapshot(), if relevant then Some(Cleaning(stamp, purpose, Waiting)) else None));
        case (Respawn(_, logsOpen), Respawning(stamp)) =>
          var accepted := false;
          if logsOpen {
            accepted := process.SpawnSection(Some(stamp));
          }
          o := if accepted then Some(SpawnBegun(process.Snapshot(), Respawned(stamp)))
          else Move(process.Snapshot(), RespawnFailing(stamp, false));
        case (FailRespawn(_), RespawnFailing(stamp, _)) =>
          var applied := process.RespawnFailedSection(stamp);
          o := Some(Becomes(process.Snapshot(), None));
        case (Exit(_, code), Attached(stamp, origin, count)) =>
          var next := match origin
            case Adopted => Cleaning(stamp, ForAdopted, Waiting)
            case CronRun => Ended(stamp, ForCron)
            case _ => Verdict(process.cfg, stamp, count, code);
          o := Move(process.Snapshot(), next);
        case _ =>
      }
    }

    /** A spawn before its tree is handed over. */
    method Spawn(t: Task, step: Step) returns (o: Option<Outcome>)
      requires step.FailPreparation? || step.Abandon? || step.Launch? || step.Expose? || step.Commit?
      modifies process
      ensures o == TaskAct(process.cfg, old(process.Snapshot()), trees, t, step)
      ensures process.Snapshot() == if o.Some? then o.value.rec else old(process.Snapshot())
    {
      o := None;
      match (step, t) {
        case (FailPreparation(_), Preparing(stamp, origin)) =>
          process.MarkErroredIfCurrent(stamp);
          o := Some(Becomes(process.Snapshot(), AfterFailedSpawn(origin)));
        case (Abandon(_), Preparing(stamp, origin)) =>
          if origin.CronRun? && (!process.enabled || !process.desired || process.generation != stamp) {
            o := Some(Becomes(process.Snapshot(), None));
          }
        case (Launch(_), Preparing(stamp, origin)) =>
          o := Some(Becomes(process.Snapshot(), Some(Holding(stamp, origin, trees))).(launched := true));
        case (Expose(_), Holding(stamp, origin, tree)) =>
          var accepted;
          if origin.CronRun? {
            accepted := process.CronCommitSection(stamp, tree);
          } else {
            accepted := process.PublishSection(stamp, tree);
          }
          o := Move(process.Snapshot(),
                    if !accepted then Discarding(stamp, origin, tree, true)
                    else if origin.CronRun? then Attached(stamp, origin, process.restartCount)
                    else Published(stamp, origin, tree));
        case (Commit(_), Published(stamp, origin, tree)) =>
          var accepted := process.CommitSection(stamp, tree);
          o := Move(process.Snapshot(),
                    if accepted then Attached(stamp, origin, process.restartCount)
                    else Discarding(stamp, origin, tree, true));
        case _ =>
      }
    }

    /** cleanup_failed_spawn and its retry loop. */
    method GiveBack(t: Task, step: Step) returns (o: Option<Outcome>)
      requires step.Abort? || step.Discard? || step.Retry?
      modifies process
      ensures o == TaskAct(process.cfg, old(process.Snapshot()), trees, t, step)
      ensures process.Snapshot() == if o.Some? then o.value.rec else old(process.Snapshot())
    {
      o := None;
      match (step, t) {
        case (Abort(_, identified), Holding(stamp, origin, tree)) =>
          o := Move(process.Snapshot(), Discarding(stamp, origin, tree, identified));
        case (Abort(_, _), Published(stamp, origin, tree)) =>
          o := Move(process.Snapshot(), Discarding(stamp, origin, tree, true));
        case (Discard(_, killed, _), Discarding(stamp, origin, tree, identified)) =>
          var retained := process.DiscardSection(stamp, tree, identified, killed);
          var left := if killed then None else Some(Retrying(retained, tree, identified));
          o := Some(Outcome(process.Snapshot(), AfterFailedSpawn(origin), left,
                            if killed then {tree} else {}, false, false));
        case (Retry(_, killed), Retrying(retained, tree, identified)) =>
          var captured := identified;
          if killed {
            process.RetrySection(retained, tree);
            return Some(Becomes(process.Snapshot(), None).(dead := {tree}));
          }
          if !identified {
            captured := process.IdentitySection(retained, tree);
          }
          o := Move(process.Snapshot(), Retrying(retained, tree, captured));
        case _ =>
      }
    }

    /** The next section of a task in flight. */
    method Continue(t: Task, step: Step) returns (o: Option<Outcome>)
      requires !Creates(step)
      modifies process
      ensures o == TaskAct(process.cfg, old(process.Snapshot()), trees, t, step)
      ensures process.Snapshot() == if o.Some? then o.value.rec else old(process.Snapshot())
    {
      hide TaskAct;
      if step.Claim? || step.GiveUp? || step.Kill? {
        o := CleanUp(t, step);
      } else if EventStep(step) || step.Conclude? {
        o := React(t, step);
      } else if step.Abort? || step.Discard? || step.Retry? {
        o := GiveBack(t, step);
      } else {
        o := Spawn(t, step);
      }
    }

    /** One section of whichever task or request is next. A step that is not possible changes
        nothing; a possible one has exactly the effect of the transition system. */
    method Perform(step: Step) returns (done: bool)
      modifies this, process
      ensures done == Next(process.cfg, old(Contents()), step).Some?
      ensures Contents() == if done then Next(process.cfg, old(Contents()), step).value else old(Contents())
    {
      hide TaskAct, CreatorAct, ManagedProcess.Snapshot;
      if !Ready(Contents(), step) {
        return false;
      }
      var o: Option<Outcome>;
      if Creates(step) {
        o := Request(step);
      } else {
        o := Continue(tasks[step.id], step);
      }
      if o.None? {
        return false;
      }
      Book(step, o.value);
      return true;
    }

    /** Books what a step did besides changing the record. */
    method Book(step: Step, o: Outcome)
      requires o.rec == process.Snapshot()
      modifies this
      ensures Contents() == Settle(old(Contents()), step, o)
    {
      hide ManagedProcess.Snapshot;
      match o.task {
        case Some(task) => tasks := tasks[Mover(step) := task];
        case None => tasks := tasks - {Mover(step)};
      }
      if step.Discard? && o.left.Some? {
        tasks := tasks[step.retry := o.left.value];
      }
      if o.launched {
        trees := trees + 1;
      }
      dead := dead + o.dead;
      if o.stamped {
        history := history + [o.rec.generation];
      }
    }
  }

  lemma RunReaches(cfg: Config, s: State, step: Step)
    requires Reachable(cfg, s) && Next(cfg, s, step).Some?
    ensures Reachable(cfg, Next(cfg, s, step).value)
  {
    hide *;
    var how, enabled, count, steps := Reaching(cfg, s);
    Extend(cfg, Initial(cfg, how, enabled, count), steps, s, step, Next(cfg, s, step).value);
    Reaches(cfg, how, enabled, count, steps + [step], Next(cfg, s, step).value);
  }

  lemma Reaching(cfg: Config, s: State)
    returns (how: Origination, enabled: bool, count: nat, steps: seq<Step>)
    requires Reachable(cfg, s)
    ensures Run(cfg, Initial(cfg, how, enabled, count), steps) == Some(s)
  {
    how, enabled, count, steps :| Run(cfg, Initial(cfg, how, enabled, count), steps) == Some(s);
  }

  lemma Reaches(cfg: Config, how: Origination, enabled: bool, count: nat, steps: seq<Step>, s: State)
    requires Run(cfg, Initial(cfg, how, enabled, count), steps) == Some(s)
    ensures Reachable(cfg, s)
  {
  }

  /** Whatever is attempted on a registered process, in any order: its sections leave a
      reachable state. So the stamps are in order and at most one cleanup runs, and without
      file watching no live tree is lost. */
  method Live(cfg: Config, how: Origination, enabled: bool, count: nat, attempts: seq<Step>)
    returns (m: ProcessManager)
    ensures fresh(m) && m.process.cfg == cfg && Reachable(cfg, m.Contents())
    ensures Stamped(m.Contents()) && (!cfg.watch ==> NoTreeLost(m.Contents()))
  {
    m := new ProcessManager(cfg, how, enabled, count);
    assert Run(cfg, m.Contents(), []) == Some(m.Contents());
    var i := 0;
    while i < |attempts|
      invariant 0 <= i <= |attempts|
      invariant fresh(m) && fresh(m.process) && m.process.cfg == cfg && Reachable(cfg, m.Contents())
    {
      ghost var before := m.Contents();
      var done := m.Perform(attempts[i]);
      if done {
        RunReaches(cfg, before, attempts[i]);
      }
      i := i + 1;
    }
    ReachableIsStamped(cfg, m.Contents());
    if !cfg.watch {
      NothingIsLostWithoutWatch(cfg, m.Contents());
    }
  }
}
