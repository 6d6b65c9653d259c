/** Which requests are accepted, and what they come to: a stop is refused only to a process that
    has nothing to stop, and kills the tree on record (src/process/manager.rs). */
module LifecycleStops {
  import opened Wrappers
  import opened ManagedProcesses
  import opened Lifecycle
  import opened LifecycleStamps
  import opened LifecycleOwnership
  import opened LifecycleGuarantees
  import opened LifecycleWatchRace

  // ---- No status is ever Crashed ----

  predicate CrashFree(t: Task) {
    (t.Cleaning? || t.Cleaned? || t.CleanFailed? || t.Ended?) ==>
      && (t.purpose.ForStop? ==> t.purpose.previousStatus != Crashed)
      && (t.purpose.ForRestart? ==> t.purpose.restartedFrom != Crashed)
  }

  ghost predicate NeverCrashed(s: State) {
    s.rec.status != Crashed && forall id :: id in s.tasks ==> CrashFree(s.tasks[id])
  }

  predicate CrashFreeOutcome(o: Outcome) {
    o.rec.status != Crashed && (o.task.Some? ==> CrashFree(o.task.value)) && (o.left.Some? ==> CrashFree(o.left.value))
  }

  lemma CrashFreeCleanup(cfg: Config, r: Record, trees: nat, t: Task, step: Step)
    requires r.status != Crashed && CrashFree(t) && TaskAct(cfg, r, trees, t, step).Some? && CleanupStep(step)
    ensures CrashFreeOutcome(TaskAct(cfg, r, trees, t, step).value)
  {
  }

  lemma CrashFreeTask(cfg: Config, r: Record, trees: nat, t: Task, step: Step)
    requires r.status != Crashed && CrashFree(t) && TaskAct(cfg, r, trees, t, step).Some?
    ensures CrashFreeOutcome(TaskAct(cfg, r, trees, t, step).value)
  {
    if CleanupStep(step) {
      CrashFreeCleanup(cfg, r, trees, t, step);
    }
  }

  lemma CrashFreeStep(cfg: Config, s: State, step: Step)
    requires NeverCrashed(s) && Next(cfg, s, step).Some?
    ensures NeverCrashed(Next(cfg, s, step).value)
  {
    if !Creates(step) {
      CrashFreeTask(cfg, s.rec, s.trees, s.tasks[step.id], step);
    }
    hide TaskAct;
  }

  lemma {:induction false} CrashFreeRun(cfg: Config, s: State, steps: seq<Step>)
    requires NeverCrashed(s) && Run(cfg, s, steps).Some?
    ensures NeverCrashed(Run(cfg, s, steps).value)
    decreases |steps|
  {
    if steps != [] {
      CrashFreeStep(cfg, s, steps[0]);
      CrashFreeRun(cfg, Next(cfg, s, steps[0]).value, steps[1..]);
    }
  }

  // ---- When a stop is refused ----

  /** With no request in progress a stop is refused exactly to a process that is Stopped and is
      not to run, or Errored without a PID. */
  lemma StopIsRefusedIff(cfg: Config, s: State)
    requires Reachable(cfg, s) && 0 !in s.tasks
    ensures Next(cfg, s, Stop).None? <==>
      (s.rec.status == Stopped && !s.rec.desired) || (s.rec.status == Errored && s.rec.pid.None?)
  {
    ReachableNeverCrashed(cfg, s);
  }

  lemma ReachableNeverCrashed(cfg: Config, s: State)
    requires Reachable(cfg, s)
    ensures NeverCrashed(s)
  {
    hide Run, NeverCrashed, Initial;
    var how, enabled, count, steps :| Run(cfg, Initial(cfg, how, enabled, count), steps) == Some(s);
    InitialNeverCrashed(cfg, how, enabled, count);
    CrashFreeRun(cfg, Initial(cfg, how, enabled, count), steps);
  }

  lemma InitialNeverCrashed(cfg: Config, how: Origination, enabled: bool, count: nat)
    ensures NeverCrashed(Initial(cfg, how, enabled, count))
  {
  }

  // ---- What a process at rest looks like ----

  /** A process at rest has no PID; an Errored one that is to run has one to stop. */
  predicate RestRecord(r: Record, stop: Option<Task>) {
    && (EffectiveStatus(r, stop) == Stopped ==> r.pid.None?)
    && (EffectiveStatus(r, stop) == Errored && EffectivelyDesired(r, stop) ==>
          r.pid.Some? || (stop.Some? && stop.value.Cleaned?))
  }

  /** A line of the effective generation never goes on in an Errored process, nor back to one. */
  predicate RestTask(r: Record, stop: Option<Task>, t: Task) {
    Line(t) && LineStamp(t) == EffectiveOf(r, stop) ==>
      && EffectiveStatus(r, stop) != Errored
      && (Restarts(t) && !t.Restarting? ==>
            t.purpose.restartedFrom != Errored && (t.purpose.restartedFrom == Stopped ==> r.pid.None?))
  }

  ghost predicate Rests(s: State) {
    && RestRecord(s.rec, StopTask(s))
    && forall id :: id in s.tasks && id != 0 ==> RestTask(s.rec, StopTask(s), s.tasks[id])
  }

  predicate RestOutcome(stop: Option<Task>, o: Outcome) {
    && RestRecord(o.rec, stop)
    && (o.task.Some? ==> RestTask(o.rec, stop, o.task.value))
    && (o.left.Some? ==> RestTask(o.rec, stop, o.left.value))
  }

  lemma CreatorRests(cfg: Config, r: Record, stop: Option<Task>, limit: nat, step: Step)
    requires Before(cfg, r, stop, limit) && (Explicit(step) ==> stop.None?) && RestRecord(r, stop)
    requires CreatorAct(cfg, r, step).Some?
    ensures var o := CreatorAct(cfg, r, step).value;
      if step.Stop? then RestRecord(o.rec, o.task) else RestOutcome(stop, o)
  {
  }

  lemma CreatorKeepsRest(cfg: Config, r: Record, stop: Option<Task>, limit: nat, step: Step, u: Task)
    requires Before(cfg, r, stop, limit) && (Explicit(step) ==> stop.None?) && RestRecord(r, stop)
    requires CreatorAct(cfg, r, step).Some?
    requires TaskOk(cfg, r, stop, u) && Bounded(u, EffectiveOf(r, stop)) && RestTask(r, stop, u)
    ensures var o := CreatorAct(cfg, r, step).value;
      RestTask(o.rec, if step.Stop? then o.task else stop, u)
  {
  }

  lemma TaskRests(cfg: Config, r: Record, trees: nat, stop: Option<Task>, limit: nat, t: Task, step: Step)
    requires Movable(cfg, r, stop, limit, t) && RestRecord(r, stop) && RestTask(r, stop, t)
    requires TaskAct(cfg, r, trees, t, step).Some?
    ensures RestOutcome(stop, TaskAct(cfg, r, trees, t, step).value)
  {
    if CleanupStep(step) {
      CleanupRests(cfg, r, trees, stop, limit, t, step);
    } else if SpawnStep(step) {
      SpawnRests(cfg, r, trees, stop, limit, t, step);
    }
  }

  lemma ConcludeRests(cfg: Config, r: Record, trees: nat, stop: Option<Task>, limit: nat, t: Task, step: Step)
    requires Movable(cfg, r, stop, limit, t) && RestRecord(r, stop) && RestTask(r, stop, t)
    requires TaskAct(cfg, r, trees, t, step).Some? && step.Conclude?
    ensures RestOutcome(stop, TaskAct(cfg, r, trees, t, step).value)
  {
  }

  lemma CleanupRests(cfg: Config, r: Record, trees: nat, stop: Option<Task>, limit: nat, t: Task, step: Step)
    requires Movable(cfg, r, stop, limit, t) && RestRecord(r, stop) && RestTask(r, stop, t)
    requires TaskAct(cfg, r, trees, t, step).Some? && CleanupStep(step)
    ensures RestOutcome(stop, TaskAct(cfg, r, trees, t, step).value)
  {
    if step.Conclude? {
      ConcludeRests(cfg, r, trees, stop, limit, t, step);
    }
  }

  lemma DiscardRests(cfg: Config, r: Record, trees: nat, stop: Option<Task>, limit: nat, t: Task, step: Step)
    requires Movable(cfg, r, stop, limit, t) && RestRecord(r, stop) && RestTask(r, stop, t)
    requires TaskAct(cfg, r, trees, t, step).Some? && (step.Discard? || step.Retry?)
    ensures RestOutcome(stop, TaskAct(cfg, r, trees, t, step).value)
  {
  }

  lemma SpawnRests(cfg: Config, r: Record, trees: nat, stop: Option<Task>, limit: nat, t: Task, step: Step)
    requires Movable(cfg, r, stop, limit, t) && RestRecord(r, stop) && RestTask(r, stop, t)
    requires TaskAct(cfg, r, trees, t, step).Some? && SpawnStep(step)
    ensures RestOutcome(stop, TaskAct(cfg, r, trees, t, step).value)
  {
    if step.Discard? || step.Retry? {
      DiscardRests(cfg, r, trees, stop, limit, t, step);
    }
  }

  lemma CleanupKeepsRest(
    cfg: Config, r: Record, trees: nat, stop: Option<Task>, limit: nat, t: Task, step: Step, u: Task)
    requires Movable(cfg, r, stop, limit, t) && Beside(cfg, r, stop, t, u)
    requires RestRecord(r, stop) && RestTask(r, stop, t) && RestTask(r, stop, u)
    requires TaskAct(cfg, r, trees, t, step).Some? && CleanupStep(step)
    ensures RestTask(TaskAct(cfg, r, trees, t, step).value.rec, stop, u)
  {
  }

  lemma SpawnKeepsRest(
    cfg: Config, r: Record, trees: nat, stop: Option<Task>, limit: nat, t: Task, step: Step, u: Task)
    requires Movable(cfg, r, stop, limit, t) && Beside(cfg, r, stop, t, u)
    requires RestRecord(r, stop) && RestTask(r, stop, t) && RestTask(r, stop, u)
    requires TaskAct(cfg, r, trees, t, step).Some? && SpawnStep(step)
    ensures RestTask(TaskAct(cfg, r, trees, t, step).value.rec, stop, u)
  {
  }

  lemma TaskKeepsRest(
    cfg: Config, r: Record, trees: nat, stop: Option<Task>, limit: nat, t: Task, step: Step, u: Task)
    requires Movable(cfg, r, stop, limit, t) && Beside(cfg, r, stop, t, u)
    requires RestRecord(r, stop) && RestTask(r, stop, t) && RestTask(r, stop, u)
    requires TaskAct(cfg, r, trees, t, step).Some?
    ensures RestTask(TaskAct(cfg, r, trees, t, step).value.rec, stop, u)
  {
    if CleanupStep(step) {
      CleanupKeepsRest(cfg, r, trees, stop, limit, t, step, u);
    } else if SpawnStep(step) {
      SpawnKeepsRest(cfg, r, trees, stop, limit, t, step, u);
    }
  }

  lemma StopRests(cfg: Config, r: Record, trees: nat, limit: nat, stop: Task, step: Step)
    requires Before(cfg, r, Some(stop), limit) && RestRecord(r, Some(stop)) && TaskAct(cfg, r, trees, stop, step).Some?
    ensures var o := TaskAct(cfg, r, trees, stop, step).value; RestRecord(o.rec, o.task)
  {
  }

  lemma StopKeepsRest(cfg: Config, r: Record, trees: nat, limit: nat, stop: Task, step: Step, u: Task)
    requires Before(cfg, r, Some(stop), limit) && RestRecord(r, Some(stop)) && TaskAct(cfg, r, trees, stop, step).Some?
    requires BesideStop(cfg, r, stop, u) && RestTask(r, Some(stop), u)
    ensures var o := TaskAct(cfg, r, trees, stop, step).value; RestTask(o.rec, o.task, u)
  {
  }

  lemma MoverRests(cfg: Config, s: State, step: Step, limit: nat)
    requires Sound(cfg, s, limit) && Rests(s) && Act(cfg, s, step).Some?
    ensures var o := Act(cfg, s, step).value;
      var after := if Mover(step) == 0 then o.task else StopTask(s);
      && RestRecord(o.rec, after)
      && (Mover(step) != 0 ==> RestOutcome(after, o))
  {
    if Creates(step) {
      CreatorRests(cfg, s.rec, StopTask(s), limit, step);
    } else if step.id == 0 {
      StopRests(cfg, s.rec, s.trees, limit, s.tasks[0], step);
    } else {
      TaskRests(cfg, s.rec, s.trees, StopTask(s), limit, s.tasks[step.id], step);
    }
    hide TaskAct, CreatorAct, RestRecord, RestTask;
  }

  lemma OthersRest(cfg: Config, s: State, step: Step, limit: nat, id: nat)
    requires Sound(cfg, s, limit) && Rests(s) && Act(cfg, s, step).Some?
    requires id in s.tasks && id != 0 && id != Mover(step)
    ensures var o := Act(cfg, s, step).value;
      RestTask(o.rec, if Mover(step) == 0 then o.task else StopTask(s), s.tasks[id])
  {
    if Creates(step) {
      CreatorKeepsRest(cfg, s.rec, StopTask(s), limit, step, s.tasks[id]);
    } else if step.id == 0 {
      StopKeepsRest(cfg, s.rec, s.trees, limit, s.tasks[0], step, s.tasks[id]);
    } else {
      TaskKeepsRest(cfg, s.rec, s.trees, StopTask(s), limit, s.tasks[step.id], step, s.tasks[id]);
    }
    hide TaskAct, CreatorAct, RestRecord, RestTask;
  }

  lemma SettleRests(s: State, step: Step, o: Outcome)
    requires Ready(s, step) && (o.left.Some? ==> step.Discard?)
    requires var after := if Mover(step) == 0 then o.task else StopTask(s);
      && RestRecord(o.rec, after)
      && (Mover(step) != 0 ==> RestOutcome(after, o))
      && (o.left.Some? ==> Mover(step) != 0)
      && (forall id :: id in s.tasks && id != 0 && id != Mover(step) ==> RestTask(o.rec, after, s.tasks[id]))
    ensures Rests(Settle(s, step, o))
  {
    hide RestRecord, RestTask;
    var t := Settle(s, step, o);
    assert StopTask(t) == if Mover(step) == 0 then o.task else StopTask(s);
  }

  lemma RestsStep(cfg: Config, s: State, step: Step, limit: nat)
    requires Sound(cfg, s, limit) && Rests(s) && Next(cfg, s, step).Some?
    ensures Rests(Next(cfg, s, step).value)
  {
    MoverRests(cfg, s, step, limit);
    MoverKeepsRecord(cfg, s, step, limit);
    ActShape(cfg, s, step);
    var o := Act(cfg, s, step).value;
    forall id | id in s.tasks && id != 0 && id != Mover(step)
      ensures RestTask(o.rec, if Mover(step) == 0 then o.task else StopTask(s), s.tasks[id])
    {
      OthersRest(cfg, s, step, limit, id);
    }
    hide Sound, Act, RestRecord, RestTask, RestOutcome;
    SettleRests(s, step, o);
  }

  lemma {:induction false} RestsRun(cfg: Config, s: State, steps: seq<Step>, limit: nat)
    requires Sound(cfg, s, limit) && Rests(s) && Run(cfg, s, steps).Some?
    ensures Rests(Run(cfg, s, steps).value)
    decreases |steps|
  {
    hide Sound, Rests;
    if steps != [] {
      RestsStep(cfg, s, steps[0], limit);
      SoundStep(cfg, s, steps[0], limit);
      RestsRun(cfg, Next(cfg, s, steps[0]).value, steps[1..], limit);
    }
  }

  lemma InitialRests(cfg: Config, how: Origination, enabled: bool, count: nat)
    ensures Rests(Initial(cfg, how, enabled, count))
  {
  }

  lemma ReachableRests(cfg: Config, s: State)
    requires !cfg.watch && Reachable(cfg, s)
    ensures Rests(s)
  {
    hide Run, Sound, Rests, Initial;
    var how, enabled, count, steps :| Run(cfg, Initial(cfg, how, enabled, count), steps) == Some(s);
    var limit := Max(count, cfg.maxRestarts);
    InitialIsSound(cfg, how, enabled, count, limit);
    InitialRests(cfg, how, enabled, count);
    RestsRun(cfg, Initial(cfg, how, enabled, count), steps, limit);
  }

  /** Without file watching no stop of a process with a PID, or one that is to run, is refused. */
  lemma NothingToStopIffRefused(cfg: Config, s: State)
    requires !cfg.watch && Reachable(cfg, s) && 0 !in s.tasks
    ensures s.rec.pid.Some? || s.rec.desired ==> Next(cfg, s, Stop).Some?
    ensures Next(cfg, s, Stop).None? ==> s.rec.pid.None? && s.rec.tree.None? && !s.rec.desired
  {
    StopIsRefusedIff(cfg, s);
    ReachableRests(cfg, s);
    var limit := ReachableIsSound(cfg, s);
  }

  // ---- With file watching a process that is to run can refuse to stop ----

  /** The Restart of a file change is killing the tree when the exit of its root is handled. */
  function RestartKills(count: nat): State {
    State(Record(Stopping, Some(0), true, None, true, true, 1, count, true),
          map[1 := Attached(1, Requested, count), 2 := Cleaning(1, ForRestart(Watching), Guard(0, Some(0)))],
          1, {}, [1])
  }

  lemma RestartKillsPart(cfg: Config, count: nat, before: seq<Step>) returns (steps: seq<Step>)
    requires cfg.watch && Run(cfg, Origin0(cfg, count), before) == Some(FirstRuns(count))
    ensures Run(cfg, Origin0(cfg, count), steps) == Some(RestartKills(count))
  {
    hide Run;
    var o, origin, first := FirstRuns(count), Origin0(cfg, count), Attached(1, Requested, count);
    var a := o.(tasks := map[1 := first, 2 := Restarting(1)]);
    var b := o.(rec := o.rec.(status := Stopping),
                tasks := map[1 := first, 2 := Cleaning(1, ForRestart(Watching), Waiting)]);
    Extend(cfg, origin, before, o, FileChange(2, false), a);
    steps := before + [FileChange(2, false)];
    Extend(cfg, origin, steps, a, Restart(2), b);
    steps := steps + [Restart(2)];
    Extend(cfg, origin, steps, b, Claim(2), RestartKills(count));
    steps := steps + [Claim(2)];
  }

  /** The exit waits for the kill in vain and records the process as Errored. */
  function ExitGaveUp(count: nat): State {
    RestartKills(count).(rec := RestartKills(count).rec.(status := Errored, desired := false),
                         tasks := map[2 := Cleaning(1, ForRestart(Watching), Guard(0, Some(0)))])
  }

  /** The exit is being handled. */
  function ExitWaits(count: nat): State {
    var o := RestartKills(count);
    o.(tasks := map[1 := Cleaning(1, ForExit, Waiting), 2 := o.tasks[2]])
  }

  lemma ExitWaitsPart(cfg: Config, count: nat, before: seq<Step>) returns (steps: seq<Step>)
    requires cfg.watch && Run(cfg, Origin0(cfg, count), before) == Some(RestartKills(count))
    ensures Run(cfg, Origin0(cfg, count), steps) == Some(ExitWaits(count))
  {
    hide Run;
    var o, origin := RestartKills(count), Origin0(cfg, count);
    var a := o.(tasks := map[1 := Ended(1, ForExit), 2 := o.tasks[2]]);
    Extend(cfg, origin, before, o, Exit(1, Some(0)), a);
    steps := before + [Exit(1, Some(0))];
    Extend(cfg, origin, steps, a, End(1), ExitWaits(count));
    steps := steps + [End(1)];
  }

  lemma ExitGivesUpPart(cfg: Config, count: nat, before: seq<Step>) returns (steps: seq<Step>)
    requires cfg.watch && Run(cfg, Origin0(cfg, count), before) == Some(ExitWaits(count))
    ensures Run(cfg, Origin0(cfg, count), steps) == Some(ExitGaveUp(count))
  {
    hide Run;
    var o, origin := ExitWaits(count), Origin0(cfg, count);
    var a := o.(tasks := map[1 := CleanFailed(1, ForExit), 2 := o.tasks[2]]);
    Extend(cfg, origin, before, o, GiveUp(1), a);
    steps := before + [GiveUp(1)];
    Extend(cfg, origin, steps, a, Conclude(1), ExitGaveUp(count));
    steps := steps + [Conclude(1)];
  }

  /** A stop gives up as well, the kill succeeds, and the failed stop asks for a running process
      that has no PID any more. */
  function CannotBeStopped(count: nat): State {
    State(Record(Errored, None, false, None, false, true, 1, count, true),
          map[2 := Cleaned(1, ForRestart(Watching))], 1, {0}, [1])
  }

  lemma StopGivesUpPart(cfg: Config, count: nat, before: seq<Step>) returns (steps: seq<Step>)
    requires cfg.watch && Run(cfg, Origin0(cfg, count), before) == Some(ExitGaveUp(count))
    ensures Run(cfg, Origin0(cfg, count), steps) == Some(StopGaveUp(count))
  {
    hide Run;
    var o, origin := ExitGaveUp(count), Origin0(cfg, count);
    var r := StopGaveUp(count).rec;
    var a := o.(rec := r, tasks := o.tasks[0 := Cleaning(2, ForStop(Errored, 1), Waiting)]);
    Extend(cfg, origin, before, o, Stop, a);
    steps := before + [Stop];
    Extend(cfg, origin, steps, a, GiveUp(0), StopGaveUp(count));
    steps := steps + [GiveUp(0)];
  }

  function StopGaveUp(count: nat): State {
    var o := ExitGaveUp(count);
    o.(rec := o.rec.(status := Stopping, generation := 2), tasks := o.tasks[0 := CleanFailed(2, ForStop(Errored, 1))])
  }

  lemma RollBackPart(cfg: Config, count: nat, before: seq<Step>) returns (steps: seq<Step>)
    requires cfg.watch && Run(cfg, Origin0(cfg, count), before) == Some(StopGaveUp(count))
    ensures Run(cfg, Origin0(cfg, count), steps) == Some(CannotBeStopped(count))
  {
    hide Run;
    var o, origin := StopGaveUp(count), Origin0(cfg, count);
    var a := State(o.rec.(pid := None, identity := false, cleaning := false),
                   map[2 := Cleaned(1, ForRestart(Watching)), 0 := CleanFailed(2, ForStop(Errored, 1))], 1, {0}, [1]);
    assert a.tasks - {0} == map[2 := Cleaned(1, ForRestart(Watching))];
    Extend(cfg, origin, before, o, Kill(2, true), a);
    steps := before + [Kill(2, true)];
    Extend(cfg, origin, steps, a, Conclude(0), CannotBeStopped(count));
    steps := steps + [Conclude(0)];
  }

  /** With file watching it happens: the process is to run, and every stop is refused. */
  lemma WatchedProcessRefusesToStop(cfg: Config, count: nat)
    requires cfg.watch
    ensures var s := CannotBeStopped(count);
      Reachable(cfg, s) && 0 !in s.tasks && s.rec.desired && Next(cfg, s, Stop).None?
  {
    hide Run;
    var steps := SpawnPart(cfg, count);
    steps := CommitPart(cfg, count, steps);
    steps := RestartKillsPart(cfg, count, steps);
    steps := ExitWaitsPart(cfg, count, steps);
    steps := ExitGivesUpPart(cfg, count, steps);
    steps := StopGivesUpPart(cfg, count, steps);
    steps := RollBackPart(cfg, count, steps);
    assert Run(cfg, Initial(cfg, AsStopped, true, count), steps) == Some(CannotBeStopped(count));
  }

  ghost predicate AlwaysStoppable(cfg: Config) {
    forall s :: Reachable(cfg, s) && 0 !in s.tasks && (s.rec.pid.Some? || s.rec.desired) ==> Next(cfg, s, Stop).Some?
  }

  /** Whatever has a PID or is to run can be stopped, in every reachable state, if and only if the
      configuration does not watch files. */
  lemma StoppableIffNotWatched(cfg: Config)
    ensures AlwaysStoppable(cfg) <==> !cfg.watch
  {
    hide Next;
    if cfg.watch {
      WatchedProcessRefusesToStop(cfg, 0);
      var s := CannotBeStopped(0);
      assert Reachable(cfg, s) && 0 !in s.tasks && s.rec.desired && Next(cfg, s, Stop).None?;
    } else {
      forall s | Reachable(cfg, s) && 0 !in s.tasks && (s.rec.pid.Some? || s.rec.desired)
        ensures Next(cfg, s, Stop).Some?
      {
        NothingToStopIffRefused(cfg, s);
      }
    }
  }

  // ---- What a stop comes to ----

  function StopSteps(killed: bool): seq<Step> {
    [Stop, Claim(0), Kill(0, killed), Conclude(0)]
  }

  function StopEnds(s: State, root: nat, killed: bool): State {
    var r := s.rec;
    if killed
    then s.(rec := Record(Stopped, None, false, None, false, false, r.generation + 1, r.restartCount, r.enabled),
            dead := s.dead + {root})
    else s.(rec := r.(desired := true))
  }

  /** The stop has taken what is on record. */
  function StopHolds(s: State, root: nat): State {
    var gen := s.rec.generation + 1;
    var hold := if s.rec.tree.Some? then Guard(root, s.rec.pid) else Identity(root);
    s.(rec := s.rec.(status := Stopping, desired := false, generation := gen, tree := None, cleaning := true),
       tasks := s.tasks[0 := Cleaning(gen, ForStop(s.rec.status, s.rec.generation), hold)])
  }

  predicate OnRecord(r: Record, root: nat) {
    r.tree == Some(root) || (r.tree.None? && r.pid == Some(root) && r.identity)
  }

  lemma StopHoldsPart(cfg: Config, s: State, root: nat) returns (steps: seq<Step>)
    requires 0 !in s.tasks && !s.rec.cleaning && Next(cfg, s, Stop).Some? && OnRecord(s.rec, root)
    ensures steps == [Stop, Claim(0)] && Run(cfg, s, steps) == Some(StopHolds(s, root))
  {
    hide Run;
    var gen, purpose := s.rec.generation + 1, ForStop(s.rec.status, s.rec.generation);
    var a := s.(rec := s.rec.(status := Stopping, desired := false, generation := gen),
                tasks := s.tasks[0 := Cleaning(gen, purpose, Waiting)]);
    RunBegins(cfg, s);
    Extend(cfg, s, [], s, Stop, a);
    steps := [] + [Stop];
    Extend(cfg, s, steps, a, Claim(0), StopHolds(s, root));
    steps := steps + [Claim(0)];
  }

  /** The kill has come to its end. */
  function StopKilled(s: State, root: nat, killed: bool): State {
    var gen, purpose := s.rec.generation + 1, ForStop(s.rec.status, s.rec.generation);
    var r := s.rec.(status := Stopping, desired := false, generation := gen);
    if killed
    then s.(rec := r.(tree := None, pid := None, identity := false),
            tasks := s.tasks[0 := Cleaned(gen, purpose)], dead := s.dead + {root})
    else s.(rec := r, tasks := s.tasks[0 := CleanFailed(gen, purpose)])
  }

  lemma StopKilledPart(cfg: Config, s: State, root: nat, killed: bool) returns (steps: seq<Step>)
    requires 0 !in s.tasks && !s.rec.cleaning && Next(cfg, s, Stop).Some? && OnRecord(s.rec, root)
    ensures steps == [Stop, Claim(0), Kill(0, killed)] && Run(cfg, s, steps) == Some(StopKilled(s, root, killed))
  {
    steps := StopHoldsPart(cfg, s, root);
    hide Run;
    Extend(cfg, s, steps, StopHolds(s, root), Kill(0, killed), StopKilled(s, root, killed));
    steps := steps + [Kill(0, killed)];
  }

  /** A stop that is accepted takes the tree on record, or without one the PID if it is
      identified. If the kill succeeds the process is Stopped and the tree is dead; if not,
      everything is as it was, but that the process is to run. */
  lemma StopKillsWhatIsOnRecord(cfg: Config, s: State, root: nat, killed: bool)
    requires 0 !in s.tasks && !s.rec.cleaning && Next(cfg, s, Stop).Some? && OnRecord(s.rec, root)
    ensures Run(cfg, s, StopSteps(killed)) == Some(StopEnds(s, root, killed))
  {
    var steps := StopKilledPart(cfg, s, root, killed);
    hide Run;
    var c := StopKilled(s, root, killed);
    assert c.tasks - {0} == s.tasks;
    Extend(cfg, s, steps, c, Conclude(0), StopEnds(s, root, killed));
    assert steps + [Conclude(0)] == StopSteps(killed);
  }

  /** So from every reachable state with a tree on record and no request and no cleanup in
      progress, a stop whose kill succeeds ends with the process Stopped and the tree dead. */
  lemma TreesCanBeStopped(cfg: Config, s: State, tree: nat)
    requires !cfg.watch && Reachable(cfg, s) && 0 !in s.tasks && s.rec.tree == Some(tree) && !s.rec.cleaning
    ensures var after := Run(cfg, s, StopSteps(true));
      after.Some? && after.value.rec.status == Stopped && !after.value.rec.desired
      && Clear(after.value.rec) && tree in after.value.dead && after.value.tasks == s.tasks
  {
    hide Run;
    NothingToStopIffRefused(cfg, s);
    StopKillsWhatIsOnRecord(cfg, s, tree, true);
  }
}
