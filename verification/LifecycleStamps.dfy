/** Generation stamps: what every interleaving keeps, in every configuration.

    The generation itself is not monotone, because a failed stop restores the earlier one.
    The effective generation, which ignores the bump of a stop still in progress, is. */
module LifecycleStamps {
  import opened Wrappers
  import opened ManagedProcesses
  import opened Lifecycle

  predicate IsStop(t: Task) {
    (t.Cleaning? || t.Cleaned? || t.CleanFailed?) && t.purpose.ForStop?
  }

  predicate Holder(t: Task) {
    t.Cleaning? && !t.hold.Waiting?
  }

  predicate Spawning(t: Task) {
    t.Preparing? || t.Holding? || t.Published? || t.Discarding?
  }

  function StopTask(s: State): Option<Task> {
    if 0 in s.tasks then Some(s.tasks[0]) else None
  }

  function EffectiveOf(r: Record, stop: Option<Task>): nat {
    if stop.Some? && IsStop(stop.value) then stop.value.purpose.previousGeneration else r.generation
  }

  function Effective(s: State): nat {
    EffectiveOf(s.rec, StopTask(s))
  }

  /** A stop in progress owns the record's generation, and nothing else is desired. */
  predicate Window(r: Record, stop: Option<Task>) {
    stop.Some? ==>
      && IsStop(stop.value)
      && stop.value.stamp == r.generation == stop.value.purpose.previousGeneration + 1
      && !r.desired
      && r.status == Stopping
  }

  /** No generation this task may still compare or write exceeds the bound. */
  predicate Bounded(t: Task, bound: nat) {
    match t
    case Retrying(retained, _, _) => retained.Some? ==> retained.value <= bound
    case RespawnFailing(previous, spawned) => if spawned then previous + 1 <= bound else previous <= bound
    case Ended(stamp, purpose) => stamp <= bound && (purpose.ForExit? || purpose.ForMax? || purpose.ForCron?)
    case _ =>
      && t.stamp <= bound
      && !IsStop(t)
      && (Spawning(t) && t.origin.Respawned? ==> t.stamp == t.origin.previous + 1)
  }

  /** The task still compares or writes this generation. */
  predicate Carries(t: Task, generation: nat) {
    if t.Retrying? then t.retained == Some(generation)
    else t.stamp == generation || (t.RespawnFailing? && t.spawned && t.stamp + 1 == generation)
  }

  predicate Ascending(history: seq<nat>, bound: nat) {
    && (forall i, j :: 0 <= i < j < |history| ==> history[i] < history[j])
    && (forall i :: 0 <= i < |history| ==> history[i] <= bound)
  }

  /** The cleanup flag is set exactly while one task, and only one, holds the tree. */
  ghost predicate OneCleanup(s: State) {
    && (s.rec.cleaning ==> exists id :: id in s.tasks && Holder(s.tasks[id]))
    && (forall id :: id in s.tasks && Holder(s.tasks[id]) ==> s.rec.cleaning)
    && (forall i, j :: i in s.tasks && j in s.tasks && Holder(s.tasks[i]) && Holder(s.tasks[j]) ==> i == j)
  }

  ghost predicate Stamped(s: State) {
    && Window(s.rec, StopTask(s))
    && (forall id :: id in s.tasks && id != 0 ==> Bounded(s.tasks[id], Effective(s)))
    && Ascending(s.history, Effective(s))
  }

  // ---- One step, seen from the record and the moving task ----

  lemma CreatorKeepsStamps(cfg: Config, r: Record, stop: Option<Task>, step: Step)
    requires Window(r, stop) && (Explicit(step) ==> stop.None?)
    requires CreatorAct(cfg, r, step).Some?
    ensures var o := CreatorAct(cfg, r, step).value;
      var after := if step.Stop? then o.task else stop;
      && Window(o.rec, after)
      && EffectiveOf(r, stop) <= EffectiveOf(o.rec, after)
      && (o.stamped ==> EffectiveOf(r, stop) < o.rec.generation == EffectiveOf(o.rec, after))
      && (!step.Stop? && o.task.Some? ==> Bounded(o.task.value, EffectiveOf(o.rec, after)))
  {
  }

  predicate CleanupStep(step: Step) {
    step.Claim? || step.GiveUp? || step.Kill? || step.Conclude?
  }

  predicate SpawnStep(step: Step) {
    || step.FailPreparation? || step.Abandon? || step.Launch? || step.Abort? || step.Expose?
    || step.Commit? || step.Discard? || step.Retry?
  }

  predicate EventStep(step: Step) {
    step.Restart? || step.End? || step.Respawn? || step.FailRespawn? || step.Exit?
  }

  predicate KeepsStamps(r: Record, stop: Option<Task>, o: Outcome) {
    && Window(o.rec, stop)
    && EffectiveOf(r, stop) <= EffectiveOf(o.rec, stop)
    && (o.stamped ==> EffectiveOf(r, stop) < o.rec.generation == EffectiveOf(o.rec, stop))
    && (o.task.Some? ==> Bounded(o.task.value, EffectiveOf(o.rec, stop)))
    && (o.left.Some? ==> Bounded(o.left.value, EffectiveOf(o.rec, stop)))
  }

  lemma ConcludeKeepsStamps(cfg: Config, r: Record, trees: nat, stop: Option<Task>, t: Task, step: Step)
    requires Window(r, stop) && Bounded(t, EffectiveOf(r, stop))
    requires TaskAct(cfg, r, trees, t, step).Some? && step.Conclude?
    ensures KeepsStamps(r, stop, TaskAct(cfg, r, trees, t, step).value)
  {
  }

  lemma CleanupKeepsStamps(cfg: Config, r: Record, trees: nat, stop: Option<Task>, t: Task, step: Step)
    requires Window(r, stop) && Bounded(t, EffectiveOf(r, stop))
    requires TaskAct(cfg, r, trees, t, step).Some? && CleanupStep(step)
    ensures KeepsStamps(r, stop, TaskAct(cfg, r, trees, t, step).value)
  {
    if step.Conclude? {
      ConcludeKeepsStamps(cfg, r, trees, stop, t, step);
    }
  }

  lemma DiscardKeepsStamps(cfg: Config, r: Record, trees: nat, stop: Option<Task>, t: Task, step: Step)
    requires Window(r, stop) && Bounded(t, EffectiveOf(r, stop))
    requires TaskAct(cfg, r, trees, t, step).Some? && (step.Discard? || step.Retry?)
    ensures KeepsStamps(r, stop, TaskAct(cfg, r, trees, t, step).value)
  {
  }

  lemma SpawnKeepsStamps(cfg: Config, r: Record, trees: nat, stop: Option<Task>, t: Task, step: Step)
    requires Window(r, stop) && Bounded(t, EffectiveOf(r, stop))
    requires TaskAct(cfg, r, trees, t, step).Some? && SpawnStep(step)
    ensures KeepsStamps(r, stop, TaskAct(cfg, r, trees, t, step).value)
  {
    if step.Discard? || step.Retry? {
      DiscardKeepsStamps(cfg, r, trees, stop, t, step);
    }
  }

  lemma EventKeepsStamps(cfg: Config, r: Record, trees: nat, stop: Option<Task>, t: Task, step: Step)
    requires Window(r, stop) && Bounded(t, EffectiveOf(r, stop))
    requires TaskAct(cfg, r, trees, t, step).Some? && EventStep(step)
    ensures KeepsStamps(r, stop, TaskAct(cfg, r, trees, t, step).value)
  {
  }

  lemma TaskKeepsStamps(cfg: Config, r: Record, trees: nat, stop: Option<Task>, t: Task, step: Step)
    requires Window(r, stop) && Bounded(t, EffectiveOf(r, stop))
    requires TaskAct(cfg, r, trees, t, step).Some?
    ensures KeepsStamps(r, stop, TaskAct(cfg, r, trees, t, step).value)
  {
    if CleanupStep(step) {
      CleanupKeepsStamps(cfg, r, trees, stop, t, step);
    } else if SpawnStep(step) {
      SpawnKeepsStamps(cfg, r, trees, stop, t, step);
    } else {
      EventKeepsStamps(cfg, r, trees, stop, t, step);
    }
  }

  lemma StopKeepsStamps(cfg: Config, r: Record, trees: nat, stop: Task, step: Step)
    requires Window(r, Some(stop)) && TaskAct(cfg, r, trees, stop, step).Some?
    ensures var o := TaskAct(cfg, r, trees, stop, step).value;
      && Window(o.rec, o.task)
      && EffectiveOf(r, Some(stop)) <= EffectiveOf(o.rec, o.task)
      && !o.stamped && o.left.None?
  {
  }

  // ---- One step of the whole system ----

  lemma InitialIsStamped(cfg: Config, how: Origination, enabled: bool, count: nat)
    ensures Stamped(Initial(cfg, how, enabled, count)) && OneCleanup(Initial(cfg, how, enabled, count))
  {
  }

  lemma AscendingGrows(history: seq<nat>, bound: nat, stamp: nat)
    requires Ascending(history, bound) && bound < stamp
    ensures Ascending(history + [stamp], stamp)
  {
  }

  /** The local facts above suffice for the whole system. */
  lemma SettleKeepsStamps(s: State, step: Step, o: Outcome)
    requires Ready(s, step) && Stamped(s)
    requires var after := if Mover(step) == 0 then o.task else StopTask(s);
      && Window(o.rec, after)
      && Effective(s) <= EffectiveOf(o.rec, after)
      && (o.stamped ==> Effective(s) < o.rec.generation == EffectiveOf(o.rec, after))
      && (Mover(step) != 0 && o.task.Some? ==> Bounded(o.task.value, EffectiveOf(o.rec, after)))
      && (step.Discard? && o.left.Some? ==> Bounded(o.left.value, EffectiveOf(o.rec, after)))
    ensures Stamped(Settle(s, step, o)) && Effective(s) <= Effective(Settle(s, step, o))
  {
    var t := Settle(s, step, o);
    if o.stamped {
      AscendingGrows(s.history, Effective(s), o.rec.generation);
    }
    assert StopTask(t) == if Mover(step) == 0 then o.task else StopTask(s);
  }

  /** Every step of every interleaving keeps the stamps in order, and the effective
      generation never goes back. */
  lemma StampedStep(cfg: Config, s: State, step: Step)
    requires Stamped(s) && Next(cfg, s, step).Some?
    ensures Stamped(Next(cfg, s, step).value)
    ensures Effective(s) <= Effective(Next(cfg, s, step).value)
  {
    if Creates(step) {
      CreatorKeepsStamps(cfg, s.rec, StopTask(s), step);
    } else if step.id == 0 {
      StopKeepsStamps(cfg, s.rec, s.trees, s.tasks[0], step);
    } else {
      TaskKeepsStamps(cfg, s.rec, s.trees, StopTask(s), s.tasks[step.id], step);
    }
    SettleKeepsStamps(s, step, Act(cfg, s, step).value);
  }

  lemma {:induction false} StampedRun(cfg: Config, s: State, steps: seq<Step>)
    requires Stamped(s) && Run(cfg, s, steps).Some?
    ensures Stamped(Run(cfg, s, steps).value)
    ensures Effective(s) <= Effective(Run(cfg, s, steps).value)
    decreases |steps|
  {
    if steps != [] {
      StampedStep(cfg, s, steps[0]);
      StampedRun(cfg, Next(cfg, s, steps[0]).value, steps[1..]);
    }
  }

  lemma ReachableIsStamped(cfg: Config, s: State)
    requires Reachable(cfg, s)
    ensures Stamped(s)
  {
    var how, enabled, count, steps :| Run(cfg, Initial(cfg, how, enabled, count), steps) == Some(s);
    InitialIsStamped(cfg, how, enabled, count);
    StampedRun(cfg, Initial(cfg, how, enabled, count), steps);
  }

  // ---- No ABA ----

  lemma StampExceedsEffective(cfg: Config, s: State, step: Step)
    requires Stamped(s) && Act(cfg, s, step).Some? && Act(cfg, s, step).value.stamped
    ensures Effective(s) < Act(cfg, s, step).value.rec.generation
    ensures 0 !in s.tasks
  {
    if Creates(step) {
      CreatorKeepsStamps(cfg, s.rec, StopTask(s), step);
    } else if step.id == 0 {
      StopKeepsStamps(cfg, s.rec, s.trees, s.tasks[0], step);
    } else {
      TaskKeepsStamps(cfg, s.rec, s.trees, StopTask(s), s.tasks[step.id], step);
    }
  }

  /** A fresh spawn is stamped with a generation that no earlier spawn had and that no
      queued event and no task in flight carries. */
  lemma FreshStamp(cfg: Config, s: State, step: Step)
    requires Reachable(cfg, s) && Act(cfg, s, step).Some? && Act(cfg, s, step).value.stamped
    ensures var stamp := Act(cfg, s, step).value.rec.generation;
      && (forall id :: id in s.tasks ==> !Carries(s.tasks[id], stamp))
      && (forall i :: 0 <= i < |s.history| ==> s.history[i] < stamp)
      && Next(cfg, s, step).value.history == s.history + [stamp]
  {
    hide Act, Reachable;
    ReachableIsStamped(cfg, s);
    StampExceedsEffective(cfg, s, step);
  }

  /** A task whose stamp is not the record's generation leaves the record alone, unless it
      is giving back a tree it took, or it is a respawn that failed. */
  lemma StaleTaskIsInert(cfg: Config, r: Record, trees: nat, t: Task, step: Step)
    requires TaskAct(cfg, r, trees, t, step).Some?
    requires !Carries(t, r.generation) && !Holder(t) && !t.RespawnFailing?
    ensures TaskAct(cfg, r, trees, t, step).value.rec == r
  {
  }

  /** So an event that changes the record finds there the spawn that produced it: no later
      spawn has begun. */
  lemma EventActsOnItsSpawn(cfg: Config, s: State, step: Step)
    requires Reachable(cfg, s) && Act(cfg, s, step).Some? && !Creates(step)
    requires !Holder(s.tasks[step.id]) && !s.tasks[step.id].RespawnFailing?
    requires Act(cfg, s, step).value.rec != s.rec
    ensures Carries(s.tasks[step.id], s.rec.generation)
    ensures forall i :: 0 <= i < |s.history| ==> s.history[i] <= s.rec.generation
  {
    ReachableIsStamped(cfg, s);
    if !Carries(s.tasks[step.id], s.rec.generation) {
      StaleTaskIsInert(cfg, s.rec, s.trees, s.tasks[step.id], step);
    }
  }

  // ---- One cleanup at a time ----

  /** The flag is set when a task begins to hold a tree, cleared when it ends, and otherwise
      left alone. */
  predicate FollowsHolder(r: Record, held: bool, o: Outcome) {
    var holds := o.task.Some? && Holder(o.task.value);
    && (held ==> !o.rec.cleaning && !holds)
    && (!held && holds ==> !r.cleaning && o.rec.cleaning)
    && (!held && !holds ==> o.rec.cleaning == r.cleaning)
    && (o.left.Some? ==> !Holder(o.left.value))
  }

  lemma CleanupFollowsHolder(cfg: Config, r: Record, trees: nat, t: Task, step: Step)
    requires TaskAct(cfg, r, trees, t, step).Some? && CleanupStep(step)
    ensures FollowsHolder(r, Holder(t), TaskAct(cfg, r, trees, t, step).value)
  {
  }

  lemma SpawnKeepsFlag(cfg: Config, r: Record, trees: nat, t: Task, step: Step)
    requires TaskAct(cfg, r, trees, t, step).Some? && SpawnStep(step)
    ensures FollowsHolder(r, Holder(t), TaskAct(cfg, r, trees, t, step).value)
  {
  }

  lemma EventKeepsFlag(cfg: Config, r: Record, trees: nat, t: Task, step: Step)
    requires TaskAct(cfg, r, trees, t, step).Some? && EventStep(step)
    ensures FollowsHolder(r, Holder(t), TaskAct(cfg, r, trees, t, step).value)
  {
  }

  /** Only the task that set the cleanup flag clears it. */
  lemma FlagFollowsHolder(cfg: Config, r: Record, trees: nat, t: Task, step: Step)
    requires TaskAct(cfg, r, trees, t, step).Some?
    ensures FollowsHolder(r, Holder(t), TaskAct(cfg, r, trees, t, step).value)
  {
    hide Holder;
    if CleanupStep(step) {
      CleanupFollowsHolder(cfg, r, trees, t, step);
    } else if SpawnStep(step) {
      SpawnKeepsFlag(cfg, r, trees, t, step);
    } else {
      EventKeepsFlag(cfg, r, trees, t, step);
    }
  }

  lemma OneCleanupStep(cfg: Config, s: State, step: Step)
    requires OneCleanup(s) && Next(cfg, s, step).Some?
    ensures OneCleanup(Next(cfg, s, step).value)
  {
    var t := Next(cfg, s, step).value;
    var o := Act(cfg, s, step).value;
    if Creates(step) {
      assert o.rec.cleaning == s.rec.cleaning && (o.task.Some? ==> !Holder(o.task.value));
    } else {
      FlagFollowsHolder(cfg, s.rec, s.trees, s.tasks[step.id], step);
    }
    SettleKeepsOneCleanup(s, step, o);
  }

  lemma SettleKeepsOneCleanup(s: State, step: Step, o: Outcome)
    requires Ready(s, step) && OneCleanup(s)
    requires FollowsHolder(s.rec, Mover(step) in s.tasks && Holder(s.tasks[Mover(step)]), o)
    ensures OneCleanup(Settle(s, step, o))
  {
    var t := Settle(s, step, o);
    if t.rec.cleaning {
      if o.task.Some? && Holder(o.task.value) {
        assert Holder(t.tasks[Mover(step)]);
      } else {
        var id :| id in s.tasks && Holder(s.tasks[id]);
        assert id in t.tasks && Holder(t.tasks[id]);
      }
    }
  }

  /** In every reachable state of every configuration at most one task is cleaning up, and
      the flag tells whether one is. */
  lemma {:induction false} OneCleanupRun(cfg: Config, s: State, steps: seq<Step>)
    requires OneCleanup(s) && Run(cfg, s, steps).Some?
    ensures OneCleanup(Run(cfg, s, steps).value)
    decreases |steps|
  {
    if steps != [] {
      OneCleanupStep(cfg, s, steps[0]);
      OneCleanupRun(cfg, Next(cfg, s, steps[0]).value, steps[1..]);
    }
  }

  // ---- Explicit stops ----

  /** A stop always finishes on the generation it took: it either commits Stopped, or
      restores exactly the status and the generation it found. */
  lemma StopConcludes(cfg: Config, s: State)
    requires Reachable(cfg, s) && Next(cfg, s, Conclude(0)).Some?
    ensures IsStop(s.tasks[0])
    ensures var t := Next(cfg, s, Conclude(0)).value;
      && 0 !in t.tasks
      && (s.tasks[0].Cleaned? ==>
            && t.rec.status == Stopped && t.rec.pid.None? && t.rec.tree.None? && !t.rec.desired
            && t.rec.generation == s.rec.generation)
      && (s.tasks[0].CleanFailed? ==>
            && t.rec.status == s.tasks[0].purpose.previousStatus && t.rec.desired
            && t.rec.generation == s.tasks[0].purpose.previousGeneration == Effective(s))
  {
    ReachableIsStamped(cfg, s);
  }

  /** A committed stop that no task in flight can undo. */
  ghost predicate Quiet(s: State, generation: nat) {
    && s.rec.status == Stopped && s.rec.pid.None? && !s.rec.desired && s.rec.generation == generation
    && 0 < generation
    && (forall id :: id in s.tasks ==> id != 0 && Bounded(s.tasks[id], generation - 1))
  }

  predicate StaysQuiet(r: Record, o: Outcome)
    requires 0 < r.generation
  {
    && o.rec.status == r.status && o.rec.pid == r.pid && !o.rec.desired && o.rec.generation == r.generation
    && (o.task.Some? ==> Bounded(o.task.value, r.generation - 1))
    && (o.left.Some? ==> Bounded(o.left.value, r.generation - 1))
  }

  lemma QuietCleanup(cfg: Config, r: Record, trees: nat, t: Task, step: Step)
    requires r.status == Stopped && r.pid.None? && !r.desired && 0 < r.generation
    requires Bounded(t, r.generation - 1) && TaskAct(cfg, r, trees, t, step).Some? && CleanupStep(step)
    ensures StaysQuiet(r, TaskAct(cfg, r, trees, t, step).value)
  {
  }

  lemma QuietSpawn(cfg: Config, r: Record, trees: nat, t: Task, step: Step)
    requires r.status == Stopped && r.pid.None? && !r.desired && 0 < r.generation
    requires Bounded(t, r.generation - 1) && TaskAct(cfg, r, trees, t, step).Some? && SpawnStep(step)
    ensures StaysQuiet(r, TaskAct(cfg, r, trees, t, step).value)
  {
  }

  lemma QuietTask(cfg: Config, r: Record, trees: nat, t: Task, step: Step)
    requires r.status == Stopped && r.pid.None? && !r.desired && 0 < r.generation
    requires Bounded(t, r.generation - 1) && TaskAct(cfg, r, trees, t, step).Some?
    ensures StaysQuiet(r, TaskAct(cfg, r, trees, t, step).value)
  {
    if CleanupStep(step) {
      QuietCleanup(cfg, r, trees, t, step);
    } else if SpawnStep(step) {
      QuietSpawn(cfg, r, trees, t, step);
    }
  }

  lemma QuietStep(cfg: Config, s: State, step: Step, generation: nat)
    requires Quiet(s, generation) && !Explicit(step) && Next(cfg, s, step).Some?
    ensures Quiet(Next(cfg, s, step).value, generation)
  {
    if !Creates(step) {
      QuietTask(cfg, s.rec, s.trees, s.tasks[step.id], step);
    }
    SettleKeepsQuiet(s, step, Act(cfg, s, step).value, generation);
  }

  lemma SettleKeepsQuiet(s: State, step: Step, o: Outcome, generation: nat)
    requires Ready(s, step) && Quiet(s, generation) && !Explicit(step)
    requires o.rec.status == Stopped && o.rec.pid.None? && !o.rec.desired && o.rec.generation == generation
    requires o.task.Some? ==> Bounded(o.task.value, generation - 1)
    requires o.left.Some? ==> Bounded(o.left.value, generation - 1)
    ensures Quiet(Settle(s, step, o), generation)
  {
  }

  lemma {:induction false} QuietRun(cfg: Config, s: State, steps: seq<Step>, generation: nat)
    requires Quiet(s, generation) && Run(cfg, s, steps).Some?
    requires forall i :: 0 <= i < |steps| ==> !Explicit(steps[i])
    ensures Quiet(Run(cfg, s, steps).value, generation)
    decreases |steps|
  {
    if steps != [] {
      QuietStep(cfg, s, steps[0], generation);
      QuietRun(cfg, Next(cfg, s, steps[0]).value, steps[1..], generation);
    }
  }

  lemma ConcludedStopIsQuiet(cfg: Config, s: State)
    requires Reachable(cfg, s) && 0 in s.tasks && s.tasks[0].Cleaned?
    requires Next(cfg, s, Conclude(0)).Some?
    ensures Quiet(Next(cfg, s, Conclude(0)).value, s.rec.generation)
  {
    ReachableIsStamped(cfg, s);
  }

  lemma RunFirst(cfg: Config, s: State, step: Step, steps: seq<Step>)
    requires Run(cfg, s, [step] + steps).Some?
    ensures Next(cfg, s, step).Some? && Run(cfg, s, [step] + steps) == Run(cfg, Next(cfg, s, step).value, steps)
  {
    hide Next;
    assert ([step] + steps)[1..] == steps;
  }

  /** A manual stop is sticky: whatever background steps follow its commit, in whatever
      order, status, PID, desired flag and generation stay as it left them. */
  lemma StopIsSticky(cfg: Config, s: State, steps: seq<Step>)
    requires Reachable(cfg, s) && 0 in s.tasks && s.tasks[0].Cleaned?
    requires Run(cfg, s, [Conclude(0)] + steps).Some?
    requires forall i :: 0 <= i < |steps| ==> !Explicit(steps[i])
    ensures var t := Run(cfg, s, [Conclude(0)] + steps).value;
      && t.rec.status == Stopped && t.rec.pid.None? && !t.rec.desired
      && t.rec.generation == s.rec.generation
  {
    hide Run, Next, Reachable;
    RunFirst(cfg, s, Conclude(0), steps);
    ConcludedStopIsQuiet(cfg, s);
    QuietRun(cfg, Next(cfg, s, Conclude(0)).value, steps, s.rec.generation);
  }
}
