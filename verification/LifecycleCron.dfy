/** When the runs of a cron process overlap: a tick starts a run while a tree of an earlier
    run is still alive (src/process/manager.rs). */
module LifecycleCron {
  import opened Wrappers
  import opened ManagedProcesses
  import opened Lifecycle
  import opened LifecycleStamps
  import opened LifecycleOwnership
  import opened LifecycleGuarantees

  ghost predicate AllDead(s: State) {
    forall tree: nat :: tree < s.trees ==> tree in s.dead
  }

  ghost predicate HeldAreDead(s: State) {
    forall id, tree: nat :: id in s.tasks && HoldsTree(s.tasks[id], tree) && tree < s.trees ==> tree in s.dead
  }

  /** Neither a stop nor a change of the enabled flag. */
  predicate Undisturbed(step: Step) {
    !step.Stop? && !step.Enable? && !step.Flag?
  }

  /** A tick, and nothing but undisturbed steps after it. */
  predicate FromTick(steps: seq<Step>) {
    steps != [] && steps[0].Tick? && forall i :: 0 <= i < |steps| ==> Undisturbed(steps[i])
  }

  predicate CanTick(s: State) {
    s.rec.enabled && s.rec.desired && s.rec.status == Sleeping
  }

  /** A sleeping process has no PID, no identity and no tree, no stop is in progress, and
      every task left of an earlier spawn carries an earlier generation. */
  lemma SleepingIsClear(cfg: Config, s: State)
    requires !cfg.watch && Reachable(cfg, s) && s.rec.status == Sleeping
    ensures Clear(s.rec) && !s.rec.identity && 0 !in s.tasks
    ensures forall id :: id in s.tasks && Line(s.tasks[id]) ==> LineStamp(s.tasks[id]) < s.rec.generation
    ensures AllDead(s) <==> HeldAreDead(s)
  {
    var limit := ReachableIsSound(cfg, s);
    SleepingHoldsNothing(cfg, s, limit);
  }

  lemma SleepingHoldsNothing(cfg: Config, s: State, limit: nat)
    requires Sound(cfg, s, limit) && s.rec.status == Sleeping
    ensures AllDead(s) <==> HeldAreDead(s)
  {
    forall tree: nat | tree < s.trees && tree !in s.dead
      ensures Held(s, tree)
    {
    }
    hide Sound;
  }

  // ---- Overlap is possible ----

  function Asleep(count: nat, generation: nat): Record {
    Record(Sleeping, None, false, None, false, true, generation, count, true)
  }

  /** The first run has its tree, but has not handed it over. */
  function FirstRunHolds(count: nat): State {
    State(Asleep(count, 2).(status := Starting), map[1 := Holding(2, CronRun, 0)], 1, {}, [2])
  }

  lemma FirstRunPart(cfg: Config, count: nat) returns (steps: seq<Step>)
    requires cfg.cron
    ensures Run(cfg, Initial(cfg, AsSleeping, true, count), steps) == Some(FirstRunHolds(count))
  {
    hide Run;
    var o := Initial(cfg, AsSleeping, true, count);
    var a := State(FirstRunHolds(count).rec, map[1 := Preparing(2, CronRun)], 0, {}, [2]);
    RunBegins(cfg, o);
    Extend(cfg, o, [], o, Tick(1), a);
    steps := [] + [Tick(1)];
    Extend(cfg, o, steps, a, Launch(1), FirstRunHolds(count));
    steps := steps + [Launch(1)];
  }

  /** It was stopped, found no PID and no tree to kill, and came to rest. */
  function StoppedMeanwhile(count: nat): State {
    FirstRunHolds(count).(rec := Record(Stopped, None, false, None, false, false, 3, count, true))
  }

  lemma StopPart(cfg: Config, count: nat, before: seq<Step>) returns (steps: seq<Step>)
    requires cfg.cron && Run(cfg, Initial(cfg, AsSleeping, true, count), before) == Some(FirstRunHolds(count))
    ensures Run(cfg, Initial(cfg, AsSleeping, true, count), steps) == Some(StoppedMeanwhile(count))
  {
    hide Run;
    var o, origin := FirstRunHolds(count), Initial(cfg, AsSleeping, true, count);
    var r := o.rec.(status := Stopping, desired := false, generation := 3);
    var a := o.(rec := r, tasks := o.tasks[0 := Cleaning(3, ForStop(Starting, 2), Waiting)]);
    var b := o.(rec := r, tasks := o.tasks[0 := Cleaned(3, ForStop(Starting, 2))]);
    Extend(cfg, origin, before, o, Stop, a);
    steps := before + [Stop];
    Extend(cfg, origin, steps, a, Claim(0), b);
    steps := steps + [Claim(0)];
    assert b.tasks - {0} == o.tasks;
    Extend(cfg, origin, steps, b, Conclude(0), StoppedMeanwhile(count));
    steps := steps + [Conclude(0)];
  }

  /** Disabled and enabled again it sleeps, and may tick. */
  function SleepsAgain(count: nat): State {
    FirstRunHolds(count).(rec := Asleep(count, 5))
  }

  lemma EnablePart(cfg: Config, count: nat, before: seq<Step>) returns (steps: seq<Step>)
    requires cfg.cron && Run(cfg, Initial(cfg, AsSleeping, true, count), before) == Some(StoppedMeanwhile(count))
    ensures Run(cfg, Initial(cfg, AsSleeping, true, count), steps) == Some(SleepsAgain(count))
  {
    hide Run;
    var o, origin := StoppedMeanwhile(count), Initial(cfg, AsSleeping, true, count);
    var a := o.(rec := o.rec.(enabled := false, generation := 4));
    assert o.tasks - {0} == o.tasks;
    Extend(cfg, origin, before, o, Enable(false), a);
    steps := before + [Enable(false)];
    Extend(cfg, origin, steps, a, Enable(true), SleepsAgain(count));
    steps := steps + [Enable(true)];
  }

  /** Two runs hold a live tree each. */
  function TwoRuns(count: nat): State {
    State(Asleep(count, 6).(status := Starting),
          map[1 := Holding(2, CronRun, 0), 2 := Holding(6, CronRun, 1)], 2, {}, [2, 6])
  }

  lemma SecondRunPart(cfg: Config, count: nat, before: seq<Step>) returns (steps: seq<Step>)
    requires cfg.cron && Run(cfg, Initial(cfg, AsSleeping, true, count), before) == Some(SleepsAgain(count))
    ensures Run(cfg, Initial(cfg, AsSleeping, true, count), steps) == Some(TwoRuns(count))
  {
    hide Run;
    var o, origin := SleepsAgain(count), Initial(cfg, AsSleeping, true, count);
    var a := State(TwoRuns(count).rec, o.tasks[2 := Preparing(6, CronRun)], 1, {}, [2, 6]);
    Extend(cfg, origin, before, o, Tick(2), a);
    steps := before + [Tick(2)];
    Extend(cfg, origin, steps, a, Launch(2), TwoRuns(count));
    steps := steps + [Launch(2)];
  }

  /** Stopping, disabling and enabling a cron process between the spawn of its child and the
      commit of its tree puts it back to sleep, and the next tick starts a second tree beside
      the first one. */
  lemma CronRunsCanOverlap(cfg: Config, count: nat)
    requires cfg.cron
    ensures Reachable(cfg, SleepsAgain(count)) && CanTick(SleepsAgain(count)) && !AllDead(SleepsAgain(count))
    ensures Reachable(cfg, TwoRuns(count))
    ensures TwoRuns(count).dead == {} && HoldsTree(TwoRuns(count).tasks[1], 0) && HoldsTree(TwoRuns(count).tasks[2], 1)
  {
    hide Run;
    var steps := FirstRunPart(cfg, count);
    steps := StopPart(cfg, count, steps);
    steps := EnablePart(cfg, count, steps);
    assert Run(cfg, Initial(cfg, AsSleeping, true, count), steps) == Some(SleepsAgain(count));
    assert 0 < SleepsAgain(count).trees && 0 !in SleepsAgain(count).dead;
    steps := SecondRunPart(cfg, count, steps);
    assert Run(cfg, Initial(cfg, AsSleeping, true, count), steps) == Some(TwoRuns(count));
  }

  // ---- Overlap without a stop between the two ticks ----

  /** The spawn of a run that was stopped, disabled and enabled again is still in flight, in its
      pre_start hook, and nothing is alive. */
  function StaleSpawn(count: nat): State {
    State(Asleep(count, 5), map[1 := Preparing(2, CronRun)], 0, {}, [2])
  }

  lemma StalePart(cfg: Config, count: nat) returns (steps: seq<Step>)
    requires cfg.cron
    ensures Run(cfg, Initial(cfg, AsSleeping, true, count), steps) == Some(StaleStopped(count))
  {
    hide Run;
    var o := Initial(cfg, AsSleeping, true, count);
    var a := StaleSpawn(count).(rec := Asleep(count, 2).(status := Starting));
    var r := a.rec.(status := Stopping, desired := false, generation := 3);
    var b := a.(rec := r, tasks := a.tasks[0 := Cleaning(3, ForStop(Starting, 2), Waiting)]);
    RunBegins(cfg, o);
    Extend(cfg, o, [], o, Tick(1), a);
    steps := [] + [Tick(1)];
    Extend(cfg, o, steps, a, Stop, b);
    steps := steps + [Stop];
    Extend(cfg, o, steps, b, Claim(0), StaleStopped(count));
    steps := steps + [Claim(0)];
  }

  function StaleStopped(count: nat): State {
    var r := Record(Stopping, None, false, None, false, false, 3, count, true);
    State(r, map[1 := Preparing(2, CronRun), 0 := Cleaned(3, ForStop(Starting, 2))], 0, {}, [2])
  }

  lemma StaleEnablePart(cfg: Config, count: nat, before: seq<Step>) returns (steps: seq<Step>)
    requires cfg.cron && Run(cfg, Initial(cfg, AsSleeping, true, count), before) == Some(StaleStopped(count))
    ensures Run(cfg, Initial(cfg, AsSleeping, true, count), steps) == Some(StaleSpawn(count))
  {
    hide Run;
    var o, origin := StaleStopped(count), Initial(cfg, AsSleeping, true, count);
    var stale := map[1 := Preparing(2, CronRun)];
    var a := State(Record(Stopped, None, false, None, false, false, 3, count, true), stale, 0, {}, [2]);
    var b := a.(rec := a.rec.(enabled := false, generation := 4));
    assert o.tasks - {0} == stale && stale - {0} == stale;
    Extend(cfg, origin, before, o, Conclude(0), a);
    steps := before + [Conclude(0)];
    Extend(cfg, origin, steps, a, Enable(false), b);
    steps := steps + [Enable(false)];
    Extend(cfg, origin, steps, b, Enable(true), StaleSpawn(count));
    steps := steps + [Enable(true)];
  }

  /** From there one run begins, holds its tree, and hands it over. */
  function NewRun(count: nat, t: Task): State {
    State(Asleep(count, 6).(status := Running, pid := Some(0), identity := true, tree := Some(0)),
          map[1 := Preparing(2, CronRun), 2 := t], 1, {}, [2, 6])
  }

  lemma NewTreePart(cfg: Config, count: nat) returns (steps: seq<Step>)
    requires cfg.cron
    ensures Run(cfg, StaleSpawn(count), steps) == Some(NewTree(count)) && FromTick(steps)
  {
    hide Run;
    var o := StaleSpawn(count);
    var a := State(NewTree(count).rec, o.tasks[2 := Preparing(6, CronRun)], 0, {}, [2, 6]);
    RunBegins(cfg, o);
    Extend(cfg, o, [], o, Tick(2), a);
    steps := [] + [Tick(2)];
    Extend(cfg, o, steps, a, Launch(2), NewTree(count));
    steps := steps + [Launch(2)];
  }

  function NewTree(count: nat): State {
    State(Asleep(count, 6).(status := Starting),
          map[1 := Preparing(2, CronRun), 2 := Holding(6, CronRun, 0)], 1, {}, [2, 6])
  }

  lemma NewRunPart(cfg: Config, count: nat, before: seq<Step>) returns (steps: seq<Step>)
    requires cfg.cron && Run(cfg, StaleSpawn(count), before) == Some(NewTree(count)) && FromTick(before)
    ensures Run(cfg, StaleSpawn(count), steps) == Some(NewRun(count, Ended(6, ForCron))) && FromTick(steps)
  {
    hide Run;
    var o, a := StaleSpawn(count), NewRun(count, Attached(6, CronRun, count));
    Extend(cfg, o, before, NewTree(count), Expose(2), a);
    steps := before + [Expose(2)];
    Extend(cfg, o, steps, a, Exit(2, Some(0)), NewRun(count, Ended(6, ForCron)));
    steps := steps + [Exit(2, Some(0))];
  }

  /** It has ended and its tree is being killed. */
  function NewRunKilling(count: nat): State {
    var s := NewRun(count, Cleaning(6, ForCron, Guard(0, Some(0))));
    s.(rec := s.rec.(tree := None, cleaning := true))
  }

  lemma NewRunEndsPart(cfg: Config, count: nat, before: seq<Step>) returns (steps: seq<Step>)
    requires cfg.cron && FromTick(before)
    requires Run(cfg, StaleSpawn(count), before) == Some(NewRun(count, Ended(6, ForCron)))
    ensures Run(cfg, StaleSpawn(count), steps) == Some(NewRunKilling(count)) && FromTick(steps)
  {
    hide Run;
    var o, a := StaleSpawn(count), NewRun(count, Cleaning(6, ForCron, Waiting));
    Extend(cfg, o, before, NewRun(count, Ended(6, ForCron)), End(2), a);
    steps := before + [End(2)];
    Extend(cfg, o, steps, a, Claim(2), NewRunKilling(count));
    steps := steps + [Claim(2)];
  }

  /** The process sleeps again. */
  function NewRunOver(count: nat): State {
    StaleSpawn(count).(rec := Asleep(count, 6), trees := 1, dead := {0}, history := [2, 6])
  }

  lemma NewRunOverPart(cfg: Config, count: nat, before: seq<Step>) returns (steps: seq<Step>)
    requires cfg.cron && FromTick(before)
    requires Run(cfg, StaleSpawn(count), before) == Some(NewRunKilling(count))
    ensures Run(cfg, StaleSpawn(count), steps) == Some(NewRunOver(count)) && FromTick(steps)
  {
    hide Run;
    var o, r := StaleSpawn(count), Asleep(count, 6).(status := Running);
    var a := State(r, map[1 := Preparing(2, CronRun), 2 := Cleaned(6, ForCron)], 1, {0}, [2, 6]);
    Extend(cfg, o, before, NewRunKilling(count), Kill(2, true), a);
    steps := before + [Kill(2, true)];
    assert a.tasks - {2} == o.tasks;
    Extend(cfg, o, steps, a, Conclude(2), NewRunOver(count));
    steps := steps + [Conclude(2)];
  }

  /** And only then the stale spawn gets its child. */
  function StaleTree(count: nat): State {
    State(Asleep(count, 6), map[1 := Holding(2, CronRun, 1)], 2, {0}, [2, 6])
  }

  /** Nothing is alive and nothing is stopped, disabled or enabled between two ticks, and still
      the second one finds a live tree: no check stands between the pre_start hook of a cron run
      and its spawn. */
  lemma StaleSpawnOverlaps(cfg: Config, count: nat) returns (steps: seq<Step>)
    requires cfg.cron
    ensures Reachable(cfg, StaleSpawn(count)) && AllDead(StaleSpawn(count))
    ensures FromTick(steps)
    ensures Run(cfg, StaleSpawn(count), steps) == Some(StaleTree(count))
    ensures CanTick(StaleTree(count)) && HoldsTree(StaleTree(count).tasks[1], 1) && 1 !in StaleTree(count).dead
  {
    hide Run;
    steps := StalePart(cfg, count);
    steps := StaleEnablePart(cfg, count, steps);
    assert Run(cfg, Initial(cfg, AsSleeping, true, count), steps) == Some(StaleSpawn(count));
    steps := NewTreePart(cfg, count);
    steps := NewRunPart(cfg, count, steps);
    steps := NewRunEndsPart(cfg, count, steps);
    steps := NewRunOverPart(cfg, count, steps);
    Extend(cfg, StaleSpawn(count), steps, NewRunOver(count), Launch(1), StaleTree(count));
    steps := steps + [Launch(1)];
  }

  // ---- What a scheduled process never does ----

  /** No restart of a scheduled process is ever queued. */
  predicate Routine(t: Task) {
    && !t.Restarting? && !t.Respawning? && !t.RespawnFailing?
    && ((t.Cleaning? || t.Cleaned? || t.CleanFailed? || t.Ended?) ==> !t.purpose.ForRestart?)
    && ((Spawning(t) || t.Attached?) ==> !t.origin.Respawned?)
  }

  ghost predicate AllRoutine(s: State) {
    forall id :: id in s.tasks ==> Routine(s.tasks[id])
  }

  lemma RoutineTask(cfg: Config, r: Record, trees: nat, t: Task, step: Step)
    requires cfg.cron && Routine(t) && TaskAct(cfg, r, trees, t, step).Some?
    ensures var o := TaskAct(cfg, r, trees, t, step).value;
      (o.task.Some? ==> Routine(o.task.value)) && (o.left.Some? ==> Routine(o.left.value))
  {
  }

  lemma RoutineStep(cfg: Config, s: State, step: Step)
    requires cfg.cron && !cfg.watch && AllRoutine(s) && Next(cfg, s, step).Some?
    ensures AllRoutine(Next(cfg, s, step).value)
  {
    if !Creates(step) {
      RoutineTask(cfg, s.rec, s.trees, s.tasks[step.id], step);
    }
    hide TaskAct;
  }

  // ---- Trees are numbered ----

  predicate NumberedHold(hold: Hold, trees: nat) {
    hold.Waiting? || HeldTree(hold) < trees
  }

  predicate NumberedTask(t: Task, trees: nat) {
    && (t.Cleaning? ==> NumberedHold(t.hold, trees))
    && (t.Holding? || t.Published? || t.Discarding? || t.Retrying? ==> t.tree < trees)
  }

  predicate NumberedRecord(r: Record, trees: nat) {
    (r.pid.Some? ==> r.pid.value < trees) && (r.tree.Some? ==> r.tree.value < trees)
  }

  ghost predicate Numbered(s: State) {
    && NumberedRecord(s.rec, s.trees)
    && (forall id :: id in s.tasks ==> NumberedTask(s.tasks[id], s.trees))
    && (forall tree :: tree in s.dead ==> tree < s.trees)
  }

  predicate NumberedOutcome(o: Outcome, trees: nat) {
    var after := if o.launched then trees + 1 else trees;
    && NumberedRecord(o.rec, after)
    && (o.task.Some? ==> NumberedTask(o.task.value, after))
    && (o.left.Some? ==> NumberedTask(o.left.value, after))
    && (forall tree :: tree in o.dead ==> tree < after)
  }

  lemma NumberedDiscard(cfg: Config, r: Record, trees: nat, t: Task, step: Step)
    requires NumberedRecord(r, trees) && NumberedTask(t, trees) && TaskAct(cfg, r, trees, t, step).Some?
    requires step.Discard? || step.Retry?
    ensures NumberedOutcome(TaskAct(cfg, r, trees, t, step).value, trees)
  {
  }

  lemma NumberedSpawn(cfg: Config, r: Record, trees: nat, t: Task, step: Step)
    requires NumberedRecord(r, trees) && NumberedTask(t, trees) && TaskAct(cfg, r, trees, t, step).Some?
    requires SpawnStep(step)
    ensures NumberedOutcome(TaskAct(cfg, r, trees, t, step).value, trees)
  {
    if step.Discard? || step.Retry? {
      NumberedDiscard(cfg, r, trees, t, step);
    }
  }

  lemma NumberedFailure(r: Record, trees: nat, stamp: nat, purpose: Purpose)
    requires NumberedRecord(r, trees)
    ensures NumberedRecord(FailedRecord(r, stamp, purpose), trees)
  {
  }

  lemma NumberedConclusion(cfg: Config, r: Record, trees: nat, stamp: nat, purpose: Purpose)
    requires NumberedRecord(r, trees)
    ensures NumberedOutcome(CleanOutcome(cfg, r, stamp, purpose), trees)
    ensures !CleanOutcome(cfg, r, stamp, purpose).launched
  {
  }

  lemma NumberedConclude(cfg: Config, r: Record, trees: nat, t: Task, step: Step)
    requires NumberedRecord(r, trees) && NumberedTask(t, trees) && TaskAct(cfg, r, trees, t, step).Some?
    requires step.Conclude?
    ensures NumberedOutcome(TaskAct(cfg, r, trees, t, step).value, trees)
  {
    hide FailedRecord, CleanOutcome;
    if t.CleanFailed? {
      NumberedFailure(r, trees, t.stamp, t.purpose);
    } else {
      NumberedConclusion(cfg, r, trees, t.stamp, t.purpose);
    }
  }

  lemma NumberedEvent(cfg: Config, r: Record, trees: nat, t: Task, step: Step)
    requires NumberedRecord(r, trees) && NumberedTask(t, trees) && TaskAct(cfg, r, trees, t, step).Some?
    requires EventStep(step)
    ensures NumberedOutcome(TaskAct(cfg, r, trees, t, step).value, trees)
  {
  }

  lemma NumberedAct(cfg: Config, r: Record, trees: nat, t: Task, step: Step)
    requires NumberedRecord(r, trees) && NumberedTask(t, trees) && TaskAct(cfg, r, trees, t, step).Some?
    ensures NumberedOutcome(TaskAct(cfg, r, trees, t, step).value, trees)
  {
    if SpawnStep(step) {
      NumberedSpawn(cfg, r, trees, t, step);
    } else if EventStep(step) {
      NumberedEvent(cfg, r, trees, t, step);
    } else if step.Conclude? {
      NumberedConclude(cfg, r, trees, t, step);
    }
  }

  lemma NumberedStep(cfg: Config, s: State, step: Step)
    requires Numbered(s) && Next(cfg, s, step).Some?
    ensures Numbered(Next(cfg, s, step).value)
  {
    if !Creates(step) {
      NumberedAct(cfg, s.rec, s.trees, s.tasks[step.id], step);
    }
    hide TaskAct;
  }

  lemma {:induction false} ScheduledRun(cfg: Config, s: State, steps: seq<Step>)
    requires cfg.cron && !cfg.watch && AllRoutine(s) && Numbered(s) && Run(cfg, s, steps).Some?
    ensures AllRoutine(Run(cfg, s, steps).value) && Numbered(Run(cfg, s, steps).value)
    decreases |steps|
  {
    if steps != [] {
      RoutineStep(cfg, s, steps[0]);
      NumberedStep(cfg, s, steps[0]);
      ScheduledRun(cfg, Next(cfg, s, steps[0]).value, steps[1..]);
    }
  }

  lemma InitialIsScheduled(cfg: Config, how: Origination, enabled: bool, count: nat)
    ensures AllRoutine(Initial(cfg, how, enabled, count)) && Numbered(Initial(cfg, how, enabled, count))
  {
  }

  lemma ReachableIsScheduled(cfg: Config, s: State)
    requires cfg.cron && !cfg.watch && Reachable(cfg, s)
    ensures AllRoutine(s) && Numbered(s)
  {
    hide Run, Initial, AllRoutine, Numbered;
    var how, enabled, count, steps :| Run(cfg, Initial(cfg, how, enabled, count), steps) == Some(s);
    InitialIsScheduled(cfg, how, enabled, count);
    ScheduledRun(cfg, Initial(cfg, how, enabled, count), steps);
  }

  // ---- What keeps runs apart ----

  /** A live tree in the hands of the task is one the record knows about. */
  predicate Tracked(r: Record, dead: set<nat>, t: Task) {
    && (t.Preparing? ==> t.stamp == r.generation)
    && ((t.Holding? || t.Published? || t.Discarding?) && t.tree !in dead ==> t.stamp == r.generation)
    && (t.Retrying? && t.tree !in dead ==> t.retained == Some(r.generation) && r.pid == Some(t.tree))
  }

  ghost predicate AllTracked(s: State) {
    forall id :: id in s.tasks ==> Tracked(s.rec, s.dead, s.tasks[id])
  }

  /** A tick, a start or a step of a task leaves every task tracked. */
  lemma CreatorKeepsTracked(cfg: Config, r: Record, dead: set<nat>, limit: nat, step: Step, u: Task)
    requires Before(cfg, r, None, limit) && Undisturbed(step) && CreatorAct(cfg, r, step).Some?
    requires TaskOk(cfg, r, None, u) && Tracked(r, dead, u) && !IsStop(u)
    ensures Tracked(CreatorAct(cfg, r, step).value.rec, dead, u)
  {
  }

  lemma TaskStaysTracked(
    cfg: Config, r: Record, trees: nat, dead: set<nat>, limit: nat, t: Task, step: Step)
    requires cfg.cron && Routine(t) && Movable(cfg, r, None, limit, t) && Tracked(r, dead, t)
    requires TaskAct(cfg, r, trees, t, step).Some?
    ensures var o := TaskAct(cfg, r, trees, t, step).value;
      && (o.task.Some? ==> Tracked(o.rec, dead + o.dead, o.task.value))
      && (o.left.Some? ==> Tracked(o.rec, dead + o.dead, o.left.value))
  {
  }

  lemma TaskKeepsTracked(
    cfg: Config, r: Record, trees: nat, dead: set<nat>, limit: nat, t: Task, step: Step, u: Task)
    requires cfg.cron && Routine(t) && Movable(cfg, r, None, limit, t) && Tracked(r, dead, t)
    requires Beside(cfg, r, None, t, u) && Tracked(r, dead, u)
    requires TaskAct(cfg, r, trees, t, step).Some?
    ensures var o := TaskAct(cfg, r, trees, t, step).value;
      Tracked(o.rec, dead + o.dead, u)
  {
  }

  ghost predicate Watchful(cfg: Config, s: State, limit: nat) {
    Sound(cfg, s, limit) && AllRoutine(s) && AllTracked(s) && 0 !in s.tasks
  }

  /** What the moving task becomes is tracked. */
  lemma MoverStaysTracked(cfg: Config, s: State, step: Step, limit: nat)
    requires cfg.cron && Watchful(cfg, s, limit) && Undisturbed(step) && Act(cfg, s, step).Some?
    ensures var o := Act(cfg, s, step).value;
      && (o.task.Some? ==> Tracked(o.rec, s.dead + o.dead, o.task.value))
      && (o.left.Some? ==> Tracked(o.rec, s.dead + o.dead, o.left.value))
  {
    if !Creates(step) {
      TaskStaysTracked(cfg, s.rec, s.trees, s.dead, limit, s.tasks[step.id], step);
    }
    hide Sound, TaskAct;
  }

  lemma OthersStayTracked(cfg: Config, s: State, step: Step, limit: nat, id: nat)
    requires cfg.cron && Watchful(cfg, s, limit) && Undisturbed(step) && Act(cfg, s, step).Some?
    requires id in s.tasks && id != Mover(step)
    ensures var o := Act(cfg, s, step).value;
      Tracked(o.rec, s.dead + o.dead, s.tasks[id])
  {
    if Creates(step) {
      CreatorKeepsTracked(cfg, s.rec, s.dead, limit, step, s.tasks[id]);
    } else {
      TaskKeepsTracked(cfg, s.rec, s.trees, s.dead, limit, s.tasks[step.id], step, s.tasks[id]);
    }
    hide TaskAct;
  }

  lemma WatchfulStep(cfg: Config, s: State, step: Step, limit: nat)
    requires cfg.cron && Watchful(cfg, s, limit) && Undisturbed(step) && Next(cfg, s, step).Some?
    ensures Watchful(cfg, Next(cfg, s, step).value, limit)
  {
    SoundStep(cfg, s, step, limit);
    RoutineStep(cfg, s, step);
    MoverStaysTracked(cfg, s, step, limit);
    ActShape(cfg, s, step);
    var o := Act(cfg, s, step).value;
    forall id | id in s.tasks && id != Mover(step)
      ensures Tracked(o.rec, s.dead + o.dead, s.tasks[id])
    {
      OthersStayTracked(cfg, s, step, limit, id);
    }
    hide Sound, TaskAct, CreatorAct, Tracked;
  }

  lemma {:induction false} WatchfulRun(cfg: Config, s: State, steps: seq<Step>, limit: nat)
    requires cfg.cron && Watchful(cfg, s, limit) && Run(cfg, s, steps).Some?
    requires forall i :: 0 <= i < |steps| ==> Undisturbed(steps[i])
    ensures Watchful(cfg, Run(cfg, s, steps).value, limit)
    decreases |steps|
  {
    if steps != [] {
      WatchfulStep(cfg, s, steps[0], limit);
      WatchfulRun(cfg, Next(cfg, s, steps[0]).value, steps[1..], limit);
    }
  }

  /** Nothing is alive when a tracked process sleeps. */
  lemma WatchfulSleeperIsIdle(cfg: Config, s: State, limit: nat)
    requires Watchful(cfg, s, limit) && s.rec.status == Sleeping
    ensures AllDead(s)
  {
    SleepingHoldsNothing(cfg, s, limit);
    forall id, tree: nat | id in s.tasks && HoldsTree(s.tasks[id], tree) && tree < s.trees
      ensures tree in s.dead
    {
      assert Tracked(s.rec, s.dead, s.tasks[id]);
      assert TaskOk(cfg, s.rec, None, s.tasks[id]);
    }
  }

  // ---- Exactly when runs can overlap ----

  /** No tree is alive, and no spawn that has not launched yet is left in flight. */
  ghost predicate Idle(s: State) {
    AllDead(s) && forall id :: id in s.tasks ==> !s.tasks[id].Preparing?
  }

  /** Without a stop or a change of the enabled flag, a later tick can find a live tree. */
  ghost predicate CanOverlap(cfg: Config, s: State) {
    exists steps ::
      && (forall i :: 0 <= i < |steps| ==> Undisturbed(steps[i]))
      && Run(cfg, s, steps).Some? && CanTick(Run(cfg, s, steps).value) && !AllDead(Run(cfg, s, steps).value)
  }

  lemma IdleIsWatchful(cfg: Config, s: State, limit: nat)
    requires cfg.cron && Sound(cfg, s, limit) && AllRoutine(s) && Numbered(s)
    requires s.rec.status == Sleeping && Idle(s)
    ensures Watchful(cfg, s, limit)
  {
    assert 0 !in s.tasks;
    forall id | id in s.tasks
      ensures Tracked(s.rec, s.dead, s.tasks[id])
    {
      assert NumberedTask(s.tasks[id], s.trees);
    }
  }

  /** Wherever a tick is possible, a later tick can find a live tree if and only if one is
      alive now or a spawn begun earlier has not launched yet. */
  lemma RunsOverlapIffNotIdle(cfg: Config, s: State)
    requires cfg.cron && !cfg.watch && Reachable(cfg, s) && CanTick(s)
    ensures CanOverlap(cfg, s) <==> !Idle(s)
  {
    var limit := ReachableIsSound(cfg, s);
    ReachableIsScheduled(cfg, s);
    if Idle(s) {
      IdleIsWatchful(cfg, s, limit);
      forall steps | (forall i :: 0 <= i < |steps| ==> Undisturbed(steps[i])) && Run(cfg, s, steps).Some?
        ensures CanTick(Run(cfg, s, steps).value) ==> AllDead(Run(cfg, s, steps).value)
      {
        WatchfulRun(cfg, s, steps, limit);
        if CanTick(Run(cfg, s, steps).value) {
          WatchfulSleeperIsIdle(cfg, Run(cfg, s, steps).value, limit);
        }
      }
    } else if !AllDead(s) {
      assert Run(cfg, s, []) == Some(s);
    } else {
      var id :| id in s.tasks && s.tasks[id].Preparing?;
      LateLaunch(cfg, s, id);
    }
  }

  lemma LateLaunch(cfg: Config, s: State, id: nat)
    requires CanTick(s) && Numbered(s) && id in s.tasks && s.tasks[id].Preparing?
    ensures CanOverlap(cfg, s)
  {
    var steps := [Launch(id)];
    var t := Next(cfg, s, Launch(id)).value;
    assert steps[1..] == [] && Run(cfg, t, []) == Some(t);
    assert Run(cfg, s, steps) == Some(t);
    assert s.trees < t.trees && s.trees !in t.dead;
  }
}
