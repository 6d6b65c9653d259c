/** Tree ownership, cron overlap and the restart budget of a process without watch mode.

    Every spawn then has one line of tasks: spawn, exit watcher, exit event, respawn. The
    invariant says what the record looks like while the line of the latest spawn is at each
    of its stages. */
module LifecycleOwnership {
  import opened Wrappers
  import opened ManagedProcesses
  import opened Lifecycle
  import opened LifecycleStamps

  // ---- The line of one spawn ----

  /** About to continue this generation with a respawn, or to report that it could not. */
  predicate Pending(t: Task) {
    t.Respawning? || (t.RespawnFailing? && !t.spawned)
  }

  predicate Line(t: Task) {
    !IsStop(t) && !t.Retrying?
  }

  function LineStamp(t: Task): nat
    requires Line(t)
  {
    if t.RespawnFailing? && t.spawned then t.stamp + 1 else t.stamp
  }

  predicate Restarts(t: Task) {
    || t.Restarting?
    || ((t.Cleaning? || t.Cleaned? || t.CleanFailed?) && t.purpose.ForRestart?)
  }

  predicate HoldsTree(t: Task, tree: nat) {
    match t
    case Cleaning(_, _, hold) => hold.Guard? && hold.tree == tree
    case Holding(_, _, held) => held == tree
    case Published(_, _, held) => held == tree
    case Discarding(_, _, held, _) => held == tree
    case Retrying(_, held, _) => held == tree
    case _ => false
  }

  // ---- The record as it is once a stop in progress has been rolled back ----

  function EffectiveStatus(r: Record, stop: Option<Task>): Status {
    if stop.Some? && IsStop(stop.value) then stop.value.purpose.previousStatus else r.status
  }

  predicate EffectivelyDesired(r: Record, stop: Option<Task>) {
    stop.Some? || r.desired
  }

  predicate Clear(r: Record) {
    r.pid.None? && r.tree.None?
  }

  /** Another request has moved on from this generation, so that no respawn of it applies. */
  predicate Overtaken(r: Record, stop: Option<Task>, stamp: nat) {
    || stamp + 2 <= EffectiveOf(r, stop)
    || (&& stamp + 1 == EffectiveOf(r, stop)
        && stop.None? && !r.desired && Clear(r) && (r.status == Stopped || r.status == Errored))
  }

  /** No tree is in the registry, nor in the hands of a stop that may give it back. */
  predicate Bare(r: Record, stop: Option<Task>) {
    r.tree.None? && !(stop.Some? && stop.value.Cleaning? && stop.value.hold.Guard?)
  }

  predicate HoldOk(r: Record, hold: Hold) {
    match hold
    case Waiting => true
    case Guard(tree, owned) => r.cleaning && owned == Some(tree) && r.pid == owned && r.tree.None?
    case Identity(pid) => r.cleaning && r.pid == Some(pid) && r.tree.None?
  }

  /** What the record looks like while the line of the effective generation is at this stage. */
  predicate StageOk(cfg: Config, r: Record, stop: Option<Task>, t: Task) {
    var status := EffectiveStatus(r, stop);
    && status != Sleeping
    && (Spawning(t) ==> Bare(r, stop) && status == Starting && EffectivelyDesired(r, stop))
    && (Restarts(t) ==> r.restartCount < cfg.maxRestarts)
    && (Restarts(t) && !t.Restarting? ==>
          status == Stopping && EffectivelyDesired(r, stop) && t.purpose.restartedFrom != Sleeping)
    && match t
       case Preparing(_, _) => r.pid.None?
       case Holding(_, _, _) => r.pid.None?
       case Published(_, _, tree) => r.pid == Some(tree) || (r.pid.None? && stop.Some? && stop.value.Cleaned?)
       case Discarding(_, _, tree, _) => r.pid.None? || r.pid == Some(tree)
       case RespawnFailing(_, true) => Bare(r, stop) && status == Starting
       case Attached(_, _, count) => count == r.restartCount
       case Cleaned(_, _) => Clear(r)
       case _ => Pending(t) ==> Clear(r) && status == Stopping && EffectivelyDesired(r, stop)
  }

  predicate TaskOk(cfg: Config, r: Record, stop: Option<Task>, t: Task) {
    var current := EffectiveOf(r, stop);
    && (Line(t) && LineStamp(t) == current ==> StageOk(cfg, r, stop, t))
    && (t.Retrying? && t.retained == Some(current) ==> Bare(r, stop))
    && (Pending(t) && t.stamp < current ==> Overtaken(r, stop, t.stamp))
    && (t.Cleaning? ==> HoldOk(r, t.hold))
    && (Holder(t) && !IsStop(t) ==> t.stamp == current)
  }

  predicate StopOk(r: Record, stop: Option<Task>) {
    stop.Some? ==>
      && (stop.value.Cleaning? ==> HoldOk(r, stop.value.hold))
      && (stop.value.Cleaned? ==> Clear(r))
  }

  predicate RecordOk(r: Record, stop: Option<Task>, limit: nat) {
    && (r.tree.Some? ==> r.pid == r.tree)
    && (r.pid.None? ==> !r.identity)
    && (EffectiveStatus(r, stop) == Sleeping ==> Clear(r))
    && r.restartCount <= limit
  }

  /** Two different tasks are never on the line of the same spawn. */
  predicate Apart(t: Task, u: Task) {
    && (Line(t) && Line(u) ==> LineStamp(t) != LineStamp(u))
    && (Pending(t) && Line(u) ==> LineStamp(u) != t.stamp + 1)
    && (Pending(u) && Line(t) ==> LineStamp(t) != u.stamp + 1)
    && (t.Retrying? && Line(u) ==> t.retained != Some(LineStamp(u)))
    && (u.Retrying? && Line(t) ==> u.retained != Some(LineStamp(t)))
    && !(Holder(t) && Holder(u))
  }

  predicate Fits(cfg: Config, limit: nat) {
    !cfg.watch && cfg.maxRestarts <= limit
  }

  // ---- One step, seen from the record and the moving task ----

  predicate Before(cfg: Config, r: Record, stop: Option<Task>, limit: nat) {
    Fits(cfg, limit) && Window(r, stop) && StopOk(r, stop) && RecordOk(r, stop, limit)
  }

  lemma CreatorKeepsRecord(cfg: Config, r: Record, stop: Option<Task>, limit: nat, step: Step)
    requires Before(cfg, r, stop, limit) && (Explicit(step) ==> stop.None?)
    requires CreatorAct(cfg, r, step).Some?
    ensures var o := CreatorAct(cfg, r, step).value;
      var after := if step.Stop? then o.task else stop;
      && StopOk(o.rec, after) && RecordOk(o.rec, after, limit)
      && o.rec.tree == r.tree
      && (!step.Stop? && o.task.Some? ==> TaskOk(cfg, o.rec, after, o.task.value))
  {
  }

  lemma StopBeginsForOther(cfg: Config, r: Record, stop: Option<Task>, step: Step, u: Task)
    requires Window(r, stop) && StopOk(r, stop) && stop.None? && step.Stop? && CreatorAct(cfg, r, step).Some?
    requires TaskOk(cfg, r, stop, u) && Bounded(u, EffectiveOf(r, stop))
    ensures var o := CreatorAct(cfg, r, step).value;
      TaskOk(cfg, o.rec, o.task, u)
  {
  }

  lemma EnableKeepsOther(cfg: Config, r: Record, stop: Option<Task>, step: Step, u: Task)
    requires StopOk(r, stop) && stop.None? && step.Enable? && CreatorAct(cfg, r, step).Some?
    requires TaskOk(cfg, r, stop, u) && Bounded(u, EffectiveOf(r, stop))
    ensures var o := CreatorAct(cfg, r, step).value;
      TaskOk(cfg, o.rec, stop, u) && (o.task.Some? ==> Apart(o.task.value, u))
  {
  }

  lemma CreatorKeepsOther(cfg: Config, r: Record, stop: Option<Task>, limit: nat, step: Step, u: Task)
    requires Before(cfg, r, stop, limit) && (Explicit(step) ==> stop.None?)
    requires CreatorAct(cfg, r, step).Some?
    requires TaskOk(cfg, r, stop, u) && Bounded(u, EffectiveOf(r, stop))
    ensures var o := CreatorAct(cfg, r, step).value;
      var after := if step.Stop? then o.task else stop;
      && TaskOk(cfg, o.rec, after, u)
      && (!step.Stop? && o.task.Some? ==> Apart(o.task.value, u))
  {
    if step.Stop? {
      StopBeginsForOther(cfg, r, stop, step, u);
    } else if step.Enable? {
      EnableKeepsOther(cfg, r, stop, step, u);
    }
  }

  /** A task that can move, with what the invariant says about it. */
  predicate Movable(cfg: Config, r: Record, stop: Option<Task>, limit: nat, t: Task) {
    && Before(cfg, r, stop, limit) && Bounded(t, EffectiveOf(r, stop)) && TaskOk(cfg, r, stop, t)
    && (stop.Some? ==> !(Holder(stop.value) && Holder(t)))
  }

  predicate KeepsRecord(cfg: Config, stop: Option<Task>, limit: nat, o: Outcome) {
    && StopOk(o.rec, stop) && RecordOk(o.rec, stop, limit)
    && (o.task.Some? ==> TaskOk(cfg, o.rec, stop, o.task.value))
    && (o.left.Some? ==> TaskOk(cfg, o.rec, stop, o.left.value))
  }

  /** A second task the step does not move. */
  predicate Beside(cfg: Config, r: Record, stop: Option<Task>, t: Task, u: Task) {
    && Bounded(u, EffectiveOf(r, stop)) && TaskOk(cfg, r, stop, u) && Apart(t, u)
    && (stop.Some? ==> !(Holder(stop.value) && Holder(u)))
  }

  predicate KeepsOther(cfg: Config, stop: Option<Task>, o: Outcome, u: Task) {
    && TaskOk(cfg, o.rec, stop, u)
    && (o.task.Some? ==> Apart(o.task.value, u))
    && (o.left.Some? ==> Apart(o.left.value, u))
  }

  lemma ClaimingTreeKeepsRecord(
    cfg: Config, r: Record, stop: Option<Task>, limit: nat, t: Task, o: Outcome)
    requires Movable(cfg, r, stop, limit, t)
    requires Some(o) == ClaimAct(r, t)
    requires r.tree.Some?
    ensures KeepsRecord(cfg, stop, limit, o)
  {
  }

  lemma ClaimingKeepsRecord(
    cfg: Config, r: Record, stop: Option<Task>, limit: nat, t: Task, o: Outcome)
    requires Movable(cfg, r, stop, limit, t)
    requires Some(o) == ClaimAct(r, t)
    ensures KeepsRecord(cfg, stop, limit, o)
  {
    if r.tree.Some? {
      ClaimingTreeKeepsRecord(cfg, r, stop, limit, t, o);
    }
  }

  lemma ClaimKeepsRecord(
    cfg: Config, r: Record, stop: Option<Task>, limit: nat, t: Task, o: Outcome)
    requires Movable(cfg, r, stop, limit, t)
    requires Some(o) == ClaimAct(r, t) || Some(o) == GiveUpAct(r, t)
    ensures KeepsRecord(cfg, stop, limit, o)
  {
    if Some(o) == ClaimAct(r, t) {
      ClaimingKeepsRecord(cfg, r, stop, limit, t, o);
    }
  }

  lemma KillKeepsRecord(
    cfg: Config, r: Record, stop: Option<Task>, limit: nat, t: Task, killed: bool, o: Outcome)
    requires Movable(cfg, r, stop, limit, t)
    requires Some(o) == KillAct(r, t, killed)
    ensures KeepsRecord(cfg, stop, limit, o)
  {
  }

  lemma AdoptedExitKeepsRecord(
    cfg: Config, r: Record, stop: Option<Task>, limit: nat, t: Task, o: Outcome)
    requires Movable(cfg, r, stop, limit, t) && t.Cleaned? && t.purpose.ForAdopted?
    requires o == CleanOutcome(cfg, r, t.stamp, t.purpose)
    ensures KeepsRecord(cfg, stop, limit, o)
  {
  }

  lemma CleanKeepsRecord(
    cfg: Config, r: Record, stop: Option<Task>, limit: nat, t: Task, o: Outcome)
    requires Movable(cfg, r, stop, limit, t)
    requires t.Cleaned? && o == CleanOutcome(cfg, r, t.stamp, t.purpose)
    ensures KeepsRecord(cfg, stop, limit, o)
  {
    if t.purpose.ForAdopted? {
      AdoptedExitKeepsRecord(cfg, r, stop, limit, t, o);
    }
  }

  lemma FailedKeepsRecord(
    cfg: Config, r: Record, stop: Option<Task>, limit: nat, t: Task, o: Outcome)
    requires Movable(cfg, r, stop, limit, t)
    requires t.CleanFailed? && o == Becomes(FailedRecord(r, t.stamp, t.purpose), None)
    ensures KeepsRecord(cfg, stop, limit, o)
  {
  }

  lemma PrepareKeepsRecord(
    cfg: Config, r: Record, stop: Option<Task>, limit: nat, t: Task, tree: nat, identified: bool, o: Outcome)
    requires Movable(cfg, r, stop, limit, t)
    requires Some(o) in {FailPreparationAct(r, t), AbandonAct(r, t), LaunchAct(r, t, tree), AbortAct(r, t, identified)}
    ensures KeepsRecord(cfg, stop, limit, o)
  {
  }

  lemma ExposeKeepsRecord(
    cfg: Config, r: Record, stop: Option<Task>, limit: nat, t: Task, o: Outcome)
    requires Movable(cfg, r, stop, limit, t)
    requires Some(o) == ExposeAct(r, t)
    ensures KeepsRecord(cfg, stop, limit, o)
  {
  }

  lemma CommitKeepsRecord(
    cfg: Config, r: Record, stop: Option<Task>, limit: nat, t: Task, o: Outcome)
    requires Movable(cfg, r, stop, limit, t)
    requires Some(o) == CommitAct(cfg, r, t)
    ensures KeepsRecord(cfg, stop, limit, o)
  {
  }

  lemma DiscardKeepsRecord(
    cfg: Config, r: Record, stop: Option<Task>, limit: nat, t: Task, killed: bool, o: Outcome)
    requires Movable(cfg, r, stop, limit, t)
    requires Some(o) == DiscardAct(r, t, killed)
    ensures KeepsRecord(cfg, stop, limit, o)
  {
  }

  lemma RetryKeepsRecord(
    cfg: Config, r: Record, stop: Option<Task>, limit: nat, t: Task, killed: bool, o: Outcome)
    requires Movable(cfg, r, stop, limit, t)
    requires Some(o) == RetryAct(r, t, killed)
    ensures KeepsRecord(cfg, stop, limit, o)
  {
  }

  lemma RestartKeepsRecord(
    cfg: Config, r: Record, stop: Option<Task>, limit: nat, t: Task, code: Option<int>, o: Outcome)
    requires Movable(cfg, r, stop, limit, t)
    requires Some(o) == RestartAct(r, t)
    ensures KeepsRecord(cfg, stop, limit, o)
  {
  }

  lemma EventKeepsRecord(
    cfg: Config, r: Record, stop: Option<Task>, limit: nat, t: Task, code: Option<int>, o: Outcome)
    requires Movable(cfg, r, stop, limit, t)
    requires Some(o) == RestartAct(r, t) || Some(o) == EndAct(r, t) || Some(o) == ExitAct(cfg, r, t, code)
    ensures KeepsRecord(cfg, stop, limit, o)
  {
    if Some(o) == RestartAct(r, t) {
      RestartKeepsRecord(cfg, r, stop, limit, t, code, o);
    }
  }

  lemma RespawnKeepsRecord(
    cfg: Config, r: Record, stop: Option<Task>, limit: nat, t: Task, logsOpen: bool, o: Outcome)
    requires Movable(cfg, r, stop, limit, t)
    requires Some(o) == RespawnAct(r, t, logsOpen) || Some(o) == FailRespawnAct(r, t)
    ensures KeepsRecord(cfg, stop, limit, o)
  {
  }

  lemma TaskKeepsRecord(
    cfg: Config, r: Record, trees: nat, stop: Option<Task>, limit: nat, t: Task, step: Step)
    requires Movable(cfg, r, stop, limit, t) && TaskAct(cfg, r, trees, t, step).Some?
    ensures KeepsRecord(cfg, stop, limit, TaskAct(cfg, r, trees, t, step).value)
  {
    hide KeepsRecord, Movable;
    hide ClaimAct, GiveUpAct, KillAct, CleanOutcome, FailedRecord, RestartAct, EndAct, RespawnAct, FailRespawnAct;
    hide FailPreparationAct, AbandonAct, LaunchAct, AbortAct, ExposeAct, CommitAct, DiscardAct, RetryAct, ExitAct;
    var o := TaskAct(cfg, r, trees, t, step).value;
    if step.Claim? || step.GiveUp? {
      ClaimKeepsRecord(cfg, r, stop, limit, t, o);
    } else if step.Kill? {
      KillKeepsRecord(cfg, r, stop, limit, t, step.killed, o);
    } else if step.Conclude? && t.Cleaned? {
      CleanKeepsRecord(cfg, r, stop, limit, t, o);
    } else if step.Conclude? {
      FailedKeepsRecord(cfg, r, stop, limit, t, o);
    } else if step.FailPreparation? || step.Abandon? || step.Launch? || step.Abort? {
      PrepareKeepsRecord(cfg, r, stop, limit, t, trees, step.Abort? && step.identified, o);
    } else if step.Expose? {
      ExposeKeepsRecord(cfg, r, stop, limit, t, o);
    } else if step.Commit? {
      CommitKeepsRecord(cfg, r, stop, limit, t, o);
    } else if step.Discard? {
      DiscardKeepsRecord(cfg, r, stop, limit, t, step.killed, o);
    } else if step.Retry? {
      RetryKeepsRecord(cfg, r, stop, limit, t, step.killed, o);
    } else if step.Restart? || step.End? || step.Exit? {
      EventKeepsRecord(cfg, r, stop, limit, t, if step.Exit? then step.code else None, o);
    } else {
      RespawnKeepsRecord(cfg, r, stop, limit, t, step.Respawn? && step.logsOpen, o);
    }
  }

  lemma ClaimKeepsOther(
    cfg: Config, r: Record, stop: Option<Task>, limit: nat, t: Task, o: Outcome, u: Task)
    requires Movable(cfg, r, stop, limit, t) && Beside(cfg, r, stop, t, u)
    requires Some(o) == ClaimAct(r, t) || Some(o) == GiveUpAct(r, t)
    ensures KeepsOther(cfg, stop, o, u)
  {
    if Some(o) == ClaimAct(r, t) {
      ClaimingKeepsOther(cfg, r, stop, limit, t, o, u);
    }
  }

  lemma ClaimingTreeKeepsOther(
    cfg: Config, r: Record, stop: Option<Task>, limit: nat, t: Task, o: Outcome, u: Task)
    requires Movable(cfg, r, stop, limit, t) && Beside(cfg, r, stop, t, u)
    requires Some(o) == ClaimAct(r, t)
    requires r.tree.Some?
    ensures KeepsOther(cfg, stop, o, u)
  {
  }

  lemma ClaimingKeepsOther(
    cfg: Config, r: Record, stop: Option<Task>, limit: nat, t: Task, o: Outcome, u: Task)
    requires Movable(cfg, r, stop, limit, t) && Beside(cfg, r, stop, t, u)
    requires Some(o) == ClaimAct(r, t)
    ensures KeepsOther(cfg, stop, o, u)
  {
    if r.tree.Some? {
      ClaimingTreeKeepsOther(cfg, r, stop, limit, t, o, u);
    }
  }

  lemma KillKeepsOther(
    cfg: Config, r: Record, stop: Option<Task>, limit: nat, t: Task, killed: bool, o: Outcome, u: Task)
    requires Movable(cfg, r, stop, limit, t) && Beside(cfg, r, stop, t, u)
    requires Some(o) == KillAct(r, t, killed)
    ensures KeepsOther(cfg, stop, o, u)
  {
  }

  lemma CleanKeepsOther(
    cfg: Config, r: Record, stop: Option<Task>, limit: nat, t: Task, o: Outcome, u: Task)
    requires Movable(cfg, r, stop, limit, t) && Beside(cfg, r, stop, t, u)
    requires t.Cleaned? && o == CleanOutcome(cfg, r, t.stamp, t.purpose)
    ensures KeepsOther(cfg, stop, o, u)
  {
    if t.purpose.ForRestart? || t.purpose.ForAdopted? {
      CleanForNextKeepsOther(cfg, r, stop, limit, t, o, u);
    }
  }

  lemma CleanForNextKeepsOther(
    cfg: Config, r: Record, stop: Option<Task>, limit: nat, t: Task, o: Outcome, u: Task)
    requires Movable(cfg, r, stop, limit, t) && Beside(cfg, r, stop, t, u)
    requires t.Cleaned? && o == CleanOutcome(cfg, r, t.stamp, t.purpose)
    requires t.purpose.ForRestart? || t.purpose.ForAdopted?
    ensures KeepsOther(cfg, stop, o, u)
  {
  }

  lemma FailedCronKeepsOther(
    cfg: Config, r: Record, stop: Option<Task>, limit: nat, t: Task, o: Outcome, u: Task)
    requires Movable(cfg, r, stop, limit, t) && Beside(cfg, r, stop, t, u)
    requires t.CleanFailed? && o == Becomes(FailedRecord(r, t.stamp, t.purpose), None)
    requires t.purpose.ForCron?
    ensures KeepsOther(cfg, stop, o, u)
  {
  }

  lemma FailedRestartKeepsOther(
    cfg: Config, r: Record, stop: Option<Task>, limit: nat, t: Task, o: Outcome, u: Task)
    requires Movable(cfg, r, stop, limit, t) && Beside(cfg, r, stop, t, u)
    requires t.CleanFailed? && o == Becomes(FailedRecord(r, t.stamp, t.purpose), None)
    requires t.purpose.ForRestart? || t.purpose.ForCron?
    ensures KeepsOther(cfg, stop, o, u)
  {
    if t.purpose.ForCron? {
      FailedCronKeepsOther(cfg, r, stop, limit, t, o, u);
    }
  }

  lemma FailedKeepsOther(
    cfg: Config, r: Record, stop: Option<Task>, limit: nat, t: Task, o: Outcome, u: Task)
    requires Movable(cfg, r, stop, limit, t) && Beside(cfg, r, stop, t, u)
    requires t.CleanFailed? && o == Becomes(FailedRecord(r, t.stamp, t.purpose), None)
    ensures KeepsOther(cfg, stop, o, u)
  {
    if t.purpose.ForRestart? || t.purpose.ForCron? {
      FailedRestartKeepsOther(cfg, r, stop, limit, t, o, u);
    }
  }

  lemma AbortKeepsOther(
    cfg: Config, r: Record, stop: Option<Task>, limit: nat, t: Task, tree: nat, identified: bool, o: Outcome, u: Task)
    requires Movable(cfg, r, stop, limit, t) && Beside(cfg, r, stop, t, u)
    requires Some(o) == AbortAct(r, t, identified)
    ensures KeepsOther(cfg, stop, o, u)
  {
  }

  lemma PrepareKeepsOther(
    cfg: Config, r: Record, stop: Option<Task>, limit: nat, t: Task, tree: nat, identified: bool, o: Outcome, u: Task)
    requires Movable(cfg, r, stop, limit, t) && Beside(cfg, r, stop, t, u)
    requires Some(o) in {FailPreparationAct(r, t), AbandonAct(r, t), LaunchAct(r, t, tree), AbortAct(r, t, identified)}
    ensures KeepsOther(cfg, stop, o, u)
  {
    if Some(o) == AbortAct(r, t, identified) {
      AbortKeepsOther(cfg, r, stop, limit, t, tree, identified, o, u);
    }
  }

  lemma ExposeCronKeepsOther(
    cfg: Config, r: Record, stop: Option<Task>, limit: nat, t: Task, o: Outcome, u: Task)
    requires Movable(cfg, r, stop, limit, t) && Beside(cfg, r, stop, t, u)
    requires Some(o) == ExposeAct(r, t)
    requires t.Holding? && t.origin.CronRun?
    ensures KeepsOther(cfg, stop, o, u)
  {
  }

  lemma ExposeKeepsOther(
    cfg: Config, r: Record, stop: Option<Task>, limit: nat, t: Task, o: Outcome, u: Task)
    requires Movable(cfg, r, stop, limit, t) && Beside(cfg, r, stop, t, u)
    requires Some(o) == ExposeAct(r, t)
    ensures KeepsOther(cfg, stop, o, u)
  {
    if t.Holding? && t.origin.CronRun? {
      ExposeCronKeepsOther(cfg, r, stop, limit, t, o, u);
    }
  }

  lemma CommitKeepsOther(
    cfg: Config, r: Record, stop: Option<Task>, limit: nat, t: Task, o: Outcome, u: Task)
    requires Movable(cfg, r, stop, limit, t) && Beside(cfg, r, stop, t, u)
    requires Some(o) == CommitAct(cfg, r, t)
    ensures KeepsOther(cfg, stop, o, u)
  {
  }

  lemma DiscardKillsBesideOther(
    cfg: Config, r: Record, stop: Option<Task>, limit: nat, t: Task, killed: bool, o: Outcome, u: Task)
    requires Movable(cfg, r, stop, limit, t) && Beside(cfg, r, stop, t, u)
    requires Some(o) == DiscardAct(r, t, killed)
    requires killed
    ensures KeepsOther(cfg, stop, o, u)
  {
  }

  lemma DiscardKeepsOther(
    cfg: Config, r: Record, stop: Option<Task>, limit: nat, t: Task, killed: bool, o: Outcome, u: Task)
    requires Movable(cfg, r, stop, limit, t) && Beside(cfg, r, stop, t, u)
    requires Some(o) == DiscardAct(r, t, killed)
    ensures KeepsOther(cfg, stop, o, u)
  {
    if killed {
      DiscardKillsBesideOther(cfg, r, stop, limit, t, killed, o, u);
    }
  }

  lemma RetryKillsBesideOther(
    cfg: Config, r: Record, stop: Option<Task>, limit: nat, t: Task, killed: bool, o: Outcome, u: Task)
    requires Movable(cfg, r, stop, limit, t) && Beside(cfg, r, stop, t, u)
    requires Some(o) == RetryAct(r, t, killed)
    requires killed
    ensures KeepsOther(cfg, stop, o, u)
  {
  }

  lemma RetryKeepsOther(
    cfg: Config, r: Record, stop: Option<Task>, limit: nat, t: Task, killed: bool, o: Outcome, u: Task)
    requires Movable(cfg, r, stop, limit, t) && Beside(cfg, r, stop, t, u)
    requires Some(o) == RetryAct(r, t, killed)
    ensures KeepsOther(cfg, stop, o, u)
  {
    if killed {
      RetryKillsBesideOther(cfg, r, stop, limit, t, killed, o, u);
    }
  }

  lemma EventKeepsOther(
    cfg: Config, r: Record, stop: Option<Task>, limit: nat, t: Task, code: Option<int>, o: Outcome, u: Task)
    requires Movable(cfg, r, stop, limit, t) && Beside(cfg, r, stop, t, u)
    requires Some(o) == RestartAct(r, t) || Some(o) == EndAct(r, t) || Some(o) == ExitAct(cfg, r, t, code)
    ensures KeepsOther(cfg, stop, o, u)
  {
    if Some(o) == RestartAct(r, t) {
      RestartKeepsOther(cfg, r, stop, limit, t, o, u);
    } else if Some(o) == EndAct(r, t) {
      EndKeepsOther(cfg, r, stop, limit, t, o, u);
    }
  }

  lemma EndKeepsOther(
    cfg: Config, r: Record, stop: Option<Task>, limit: nat, t: Task, o: Outcome, u: Task)
    requires Movable(cfg, r, stop, limit, t) && Beside(cfg, r, stop, t, u)
    requires Some(o) == EndAct(r, t)
    ensures KeepsOther(cfg, stop, o, u)
  {
  }

  lemma RestartKeepsOther(
    cfg: Config, r: Record, stop: Option<Task>, limit: nat, t: Task, o: Outcome, u: Task)
    requires Movable(cfg, r, stop, limit, t) && Beside(cfg, r, stop, t, u)
    requires Some(o) == RestartAct(r, t)
    ensures KeepsOther(cfg, stop, o, u)
  {
  }

  lemma RespawnKeepsOther(
    cfg: Config, r: Record, stop: Option<Task>, limit: nat, t: Task, logsOpen: bool, o: Outcome, u: Task)
    requires Movable(cfg, r, stop, limit, t) && Beside(cfg, r, stop, t, u)
    requires Some(o) == RespawnAct(r, t, logsOpen) || Some(o) == FailRespawnAct(r, t)
    ensures KeepsOther(cfg, stop, o, u)
  {
  }

  lemma TaskKeepsOther(
    cfg: Config, r: Record, trees: nat, stop: Option<Task>, limit: nat, t: Task, step: Step, u: Task)
    requires Movable(cfg, r, stop, limit, t) && Beside(cfg, r, stop, t, u) && TaskAct(cfg, r, trees, t, step).Some?
    ensures KeepsOther(cfg, stop, TaskAct(cfg, r, trees, t, step).value, u)
  {
    hide KeepsOther, Movable, Beside;
    hide ClaimAct, GiveUpAct, KillAct, CleanOutcome, FailedRecord, RestartAct, EndAct, RespawnAct, FailRespawnAct;
    hide FailPreparationAct, AbandonAct, LaunchAct, AbortAct, ExposeAct, CommitAct, DiscardAct, RetryAct, ExitAct;
    var o := TaskAct(cfg, r, trees, t, step).value;
    if step.Claim? || step.GiveUp? {
      ClaimKeepsOther(cfg, r, stop, limit, t, o, u);
    } else if step.Kill? {
      KillKeepsOther(cfg, r, stop, limit, t, step.killed, o, u);
    } else if step.Conclude? && t.Cleaned? {
      CleanKeepsOther(cfg, r, stop, limit, t, o, u);
    } else if step.Conclude? {
      FailedKeepsOther(cfg, r, stop, limit, t, o, u);
    } else if step.FailPreparation? || step.Abandon? || step.Launch? || step.Abort? {
      PrepareKeepsOther(cfg, r, stop, limit, t, trees, step.Abort? && step.identified, o, u);
    } else if step.Expose? {
      ExposeKeepsOther(cfg, r, stop, limit, t, o, u);
    } else if step.Commit? {
      CommitKeepsOther(cfg, r, stop, limit, t, o, u);
    } else if step.Discard? {
      DiscardKeepsOther(cfg, r, stop, limit, t, step.killed, o, u);
    } else if step.Retry? {
      RetryKeepsOther(cfg, r, stop, limit, t, step.killed, o, u);
    } else if step.Restart? || step.End? || step.Exit? {
      EventKeepsOther(cfg, r, stop, limit, t, if step.Exit? then step.code else None, o, u);
    } else {
      RespawnKeepsOther(cfg, r, stop, limit, t, step.Respawn? && step.logsOpen, o, u);
    }
  }

  lemma StopKeepsRecord(cfg: Config, r: Record, trees: nat, limit: nat, stop: Task, step: Step)
    requires Before(cfg, r, Some(stop), limit)
    requires TaskAct(cfg, r, trees, stop, step).Some?
    ensures var o := TaskAct(cfg, r, trees, stop, step).value;
      && StopOk(o.rec, o.task) && RecordOk(o.rec, o.task, limit)
  {
  }

  /** A task beside the stop in progress, before and after a step of that stop. */
  predicate BesideStop(cfg: Config, r: Record, stop: Task, u: Task) {
    Bounded(u, EffectiveOf(r, Some(stop))) && TaskOk(cfg, r, Some(stop), u) && !(Holder(stop) && Holder(u))
  }

  predicate KeepsBeside(cfg: Config, o: Outcome, u: Task) {
    TaskOk(cfg, o.rec, o.task, u) && (o.task.Some? ==> Apart(o.task.value, u))
  }

  lemma StopConcludesForOther(cfg: Config, r: Record, trees: nat, limit: nat, stop: Task, step: Step, u: Task)
    requires Before(cfg, r, Some(stop), limit) && TaskAct(cfg, r, trees, stop, step).Some? && step.Conclude?
    requires BesideStop(cfg, r, stop, u)
    ensures KeepsBeside(cfg, TaskAct(cfg, r, trees, stop, step).value, u)
  {
  }

  lemma StopClaimsForOther(cfg: Config, r: Record, trees: nat, limit: nat, stop: Task, step: Step, u: Task)
    requires Before(cfg, r, Some(stop), limit) && TaskAct(cfg, r, trees, stop, step).Some? && step.Claim?
    requires BesideStop(cfg, r, stop, u)
    ensures KeepsBeside(cfg, TaskAct(cfg, r, trees, stop, step).value, u)
  {
  }

  lemma StopKillsForOther(cfg: Config, r: Record, trees: nat, limit: nat, stop: Task, step: Step, u: Task)
    requires Before(cfg, r, Some(stop), limit) && TaskAct(cfg, r, trees, stop, step).Some? && step.Kill?
    requires BesideStop(cfg, r, stop, u)
    ensures KeepsBeside(cfg, TaskAct(cfg, r, trees, stop, step).value, u)
  {
  }

  lemma StopKeepsOther(cfg: Config, r: Record, trees: nat, limit: nat, stop: Task, step: Step, u: Task)
    requires Before(cfg, r, Some(stop), limit) && TaskAct(cfg, r, trees, stop, step).Some?
    requires BesideStop(cfg, r, stop, u)
    ensures KeepsBeside(cfg, TaskAct(cfg, r, trees, stop, step).value, u)
  {
    if step.Conclude? {
      StopConcludesForOther(cfg, r, trees, limit, stop, step, u);
    } else if step.Kill? {
      StopKillsForOther(cfg, r, trees, limit, stop, step, u);
    } else if step.Claim? {
      StopClaimsForOther(cfg, r, trees, limit, stop, step, u);
    }
  }

  // ---- Trees ----

  predicate Accounted(o: Outcome, tree: nat) {
    || tree in o.dead
    || o.rec.tree == Some(tree)
    || (o.task.Some? && HoldsTree(o.task.value, tree))
    || (o.left.Some? && HoldsTree(o.left.value, tree))
  }

  lemma CleanupKeepsTree(
    cfg: Config, r: Record, trees: nat, stop: Option<Task>, limit: nat, t: Task, step: Step, tree: nat)
    requires Movable(cfg, r, stop, limit, t) && TaskAct(cfg, r, trees, t, step).Some? && CleanupStep(step)
    requires r.tree == Some(tree) || HoldsTree(t, tree)
    ensures Accounted(TaskAct(cfg, r, trees, t, step).value, tree)
  {
  }

  lemma HandoverKeepsTree(
    cfg: Config, r: Record, trees: nat, stop: Option<Task>, limit: nat, t: Task, step: Step, tree: nat)
    requires Movable(cfg, r, stop, limit, t) && TaskAct(cfg, r, trees, t, step).Some?
    requires step.Expose? || step.Commit?
    requires r.tree == Some(tree) || HoldsTree(t, tree)
    ensures Accounted(TaskAct(cfg, r, trees, t, step).value, tree)
  {
  }

  lemma SpawnKeepsTree(
    cfg: Config, r: Record, trees: nat, stop: Option<Task>, limit: nat, t: Task, step: Step, tree: nat)
    requires Movable(cfg, r, stop, limit, t) && TaskAct(cfg, r, trees, t, step).Some? && SpawnStep(step)
    requires r.tree == Some(tree) || HoldsTree(t, tree)
    ensures Accounted(TaskAct(cfg, r, trees, t, step).value, tree)
  {
    if step.Expose? || step.Commit? {
      HandoverKeepsTree(cfg, r, trees, stop, limit, t, step, tree);
    }
  }

  lemma TaskKeepsTree(
    cfg: Config, r: Record, trees: nat, stop: Option<Task>, limit: nat, t: Task, step: Step, tree: nat)
    requires Movable(cfg, r, stop, limit, t) && TaskAct(cfg, r, trees, t, step).Some?
    requires r.tree == Some(tree) || HoldsTree(t, tree)
    ensures Accounted(TaskAct(cfg, r, trees, t, step).value, tree)
  {
    if CleanupStep(step) {
      CleanupKeepsTree(cfg, r, trees, stop, limit, t, step, tree);
    } else if SpawnStep(step) {
      SpawnKeepsTree(cfg, r, trees, stop, limit, t, step, tree);
    }
  }

  lemma StopKeepsTree(cfg: Config, r: Record, trees: nat, limit: nat, stop: Task, step: Step, tree: nat)
    requires Before(cfg, r, Some(stop), limit) && TaskAct(cfg, r, trees, stop, step).Some?
    requires r.tree == Some(tree) || HoldsTree(stop, tree)
    ensures Accounted(TaskAct(cfg, r, trees, stop, step).value, tree)
  {
  }

  // ---- The whole system ----

  /** The registry's guard or one of the tasks holds the tree. */
  ghost predicate Held(s: State, tree: nat) {
    s.rec.tree == Some(tree) || exists id :: id in s.tasks && HoldsTree(s.tasks[id], tree)
  }

  /** The registry can still kill the tree through the PID and identity of its root. */
  predicate Identified(r: Record, tree: nat) {
    r.pid == Some(tree) && r.identity
  }

  /** Every tree ever spawned is confirmed dead or in somebody's hands. */
  ghost predicate NoTreeLost(s: State) {
    forall tree: nat :: tree < s.trees && tree !in s.dead ==> Held(s, tree) || Identified(s.rec, tree)
  }

  /** A process registered as Errored without its tree: only the PID and the identity lead to
      it, and until it is killed nothing but stops can happen. */
  predicate Orphaned(s: State) {
    && s.trees == 1 && s.tasks.Keys <= {0}
    && s.rec.tree.None? && Identified(s.rec, 0) && EffectiveStatus(s.rec, StopTask(s)) == Errored
    && (0 in s.tasks ==> !s.tasks[0].Cleaned? && (Holder(s.tasks[0]) ==> s.tasks[0].hold == Identity(0)))
  }

  ghost predicate AllHeld(s: State) {
    forall tree: nat :: tree < s.trees && tree !in s.dead ==> Held(s, tree)
  }

  ghost predicate Lines(cfg: Config, s: State) {
    && (forall id :: id in s.tasks && id != 0 ==> TaskOk(cfg, s.rec, StopTask(s), s.tasks[id]))
    && (forall i, j :: i in s.tasks && j in s.tasks && i != 0 && j != 0 && i != j ==> Apart(s.tasks[i], s.tasks[j]))
  }

  ghost predicate Sound(cfg: Config, s: State, limit: nat) {
    && Before(cfg, s.rec, StopTask(s), limit)
    && Stamped(s) && OneCleanup(s)
    && Lines(cfg, s)
    && (AllHeld(s) || Orphaned(s))
  }

  lemma SoundLosesNoTree(cfg: Config, s: State, limit: nat)
    requires Sound(cfg, s, limit)
    ensures NoTreeLost(s)
  {
  }

  lemma InitialIsSound(cfg: Config, how: Origination, enabled: bool, count: nat, limit: nat)
    requires Fits(cfg, limit) && count <= limit
    ensures Sound(cfg, Initial(cfg, how, enabled, count), limit)
  {
    var s := Initial(cfg, how, enabled, count);
    InitialIsStamped(cfg, how, enabled, count);
    if how.AsAdopted? || (how.AsErrored? && how.guarded) {
      assert Held(s, 0);
    }
  }

  lemma MoverKeepsRecord(cfg: Config, s: State, step: Step, limit: nat)
    requires Sound(cfg, s, limit) && Act(cfg, s, step).Some?
    ensures var o := Act(cfg, s, step).value;
      var after := if Mover(step) == 0 then o.task else StopTask(s);
      && StopOk(o.rec, after) && RecordOk(o.rec, after, limit)
      && (Mover(step) != 0 && o.task.Some? ==> TaskOk(cfg, o.rec, after, o.task.value))
      && (o.left.Some? ==> Mover(step) != 0 && TaskOk(cfg, o.rec, after, o.left.value))
  {
    if Creates(step) {
      CreatorKeepsRecord(cfg, s.rec, StopTask(s), limit, step);
    } else if step.id == 0 {
      StopKeepsRecord(cfg, s.rec, s.trees, limit, s.tasks[0], step);
      StopKeepsStamps(cfg, s.rec, s.trees, s.tasks[0], step);
    } else {
      TaskKeepsRecord(cfg, s.rec, s.trees, StopTask(s), limit, s.tasks[step.id], step);
    }
  }

  lemma BeforeStep(cfg: Config, s: State, step: Step, limit: nat)
    requires Sound(cfg, s, limit) && Next(cfg, s, step).Some?
    ensures var t := Next(cfg, s, step).value; Before(cfg, t.rec, StopTask(t), limit)
  {
    hide TaskOk;
    MoverKeepsRecord(cfg, s, step, limit);
    StampedStep(cfg, s, step);
    var o := Act(cfg, s, step).value;
    assert StopTask(Settle(s, step, o)) == if Mover(step) == 0 then o.task else StopTask(s);
    hide Act;
  }

  lemma MoverKeepsOther(cfg: Config, s: State, step: Step, limit: nat, id: nat)
    requires Sound(cfg, s, limit) && Act(cfg, s, step).Some?
    requires id in s.tasks && id != 0 && id != Mover(step)
    ensures var o := Act(cfg, s, step).value;
      var after := if Mover(step) == 0 then o.task else StopTask(s);
      && TaskOk(cfg, o.rec, after, s.tasks[id])
      && (Mover(step) != 0 && o.task.Some? ==> Apart(o.task.value, s.tasks[id]))
      && (Mover(step) != 0 && o.left.Some? ==> Apart(o.left.value, s.tasks[id]))
  {
    if Creates(step) {
      CreatorKeepsOther(cfg, s.rec, StopTask(s), limit, step, s.tasks[id]);
    } else if step.id == 0 {
      StopKeepsOther(cfg, s.rec, s.trees, limit, s.tasks[0], step, s.tasks[id]);
    } else {
      TaskKeepsOther(cfg, s.rec, s.trees, StopTask(s), limit, s.tasks[step.id], step, s.tasks[id]);
    }
  }

  lemma LeftIsApart(cfg: Config, r: Record, stop: Option<Task>, limit: nat, t: Task, killed: bool)
    requires Movable(cfg, r, stop, limit, t) && DiscardAct(r, t, killed).Some?
    ensures var o := DiscardAct(r, t, killed).value;
      o.task.Some? && o.left.Some? ==> Apart(o.task.value, o.left.value)
  {
  }

  lemma SettleKeepsLines(cfg: Config, s: State, step: Step, o: Outcome)
    requires Ready(s, step) && Lines(cfg, s) && (o.left.Some? ==> step.Discard?)
    requires var after := if Mover(step) == 0 then o.task else StopTask(s);
      && (Mover(step) != 0 && o.task.Some? ==> TaskOk(cfg, o.rec, after, o.task.value))
      && (o.left.Some? ==> TaskOk(cfg, o.rec, after, o.left.value))
      && (o.task.Some? && o.left.Some? ==> Apart(o.task.value, o.left.value))
      && (forall id :: id in s.tasks && id != 0 && id != Mover(step) ==>
            && TaskOk(cfg, o.rec, after, s.tasks[id])
            && (Mover(step) != 0 && o.task.Some? ==> Apart(o.task.value, s.tasks[id]))
            && (o.left.Some? ==> Apart(o.left.value, s.tasks[id])))
    ensures Lines(cfg, Settle(s, step, o))
  {
    hide TaskOk;
    var t := Settle(s, step, o);
    assert StopTask(t) == if Mover(step) == 0 then o.task else StopTask(s);
  }

  lemma LinesStep(cfg: Config, s: State, step: Step, limit: nat)
    requires Sound(cfg, s, limit) && Act(cfg, s, step).Some?
    ensures Lines(cfg, Next(cfg, s, step).value)
  {
    var o := Act(cfg, s, step).value;
    var after := if Mover(step) == 0 then o.task else StopTask(s);
    MoverKeepsRecord(cfg, s, step, limit);
    forall id | id in s.tasks && id != 0 && id != Mover(step)
      ensures TaskOk(cfg, o.rec, after, s.tasks[id])
      ensures Mover(step) != 0 && o.task.Some? ==> Apart(o.task.value, s.tasks[id])
      ensures o.left.Some? ==> Apart(o.left.value, s.tasks[id])
    {
      MoverKeepsOther(cfg, s, step, limit, id);
    }
    if step.Discard? {
      LeftIsApart(cfg, s.rec, StopTask(s), limit, s.tasks[step.id], step.killed);
    }
    ActShape(cfg, s, step);
    SettleKeepsLines(cfg, s, step, o);
  }

  lemma TreesStep(cfg: Config, s: State, step: Step, limit: nat)
    requires Sound(cfg, s, limit) && Act(cfg, s, step).Some? && AllHeld(s)
    ensures AllHeld(Next(cfg, s, step).value)
  {
    var o := Act(cfg, s, step).value;
    var t := Next(cfg, s, step).value;
    ActShape(cfg, s, step);
    forall tree: nat | tree < t.trees && tree !in t.dead ensures Held(t, tree) {
      if tree == s.trees {
        assert HoldsTree(t.tasks[Mover(step)], tree);
      } else {
        MoverKeepsTree(cfg, s, step, limit, tree);
        SettleKeepsHeld(s, step, o, tree);
      }
    }
  }

  /** Only a discarded spawn leaves a task behind, and a spawned tree is in its task's hands. */
  lemma ActShape(cfg: Config, s: State, step: Step)
    requires Act(cfg, s, step).Some?
    ensures var o := Act(cfg, s, step).value;
      && Ready(s, step)
      && (o.left.Some? ==> step.Discard?)
      && (o.launched ==> !step.Discard? && o.task.Some? && HoldsTree(o.task.value, s.trees))
  {
  }

  lemma MoverKeepsTree(cfg: Config, s: State, step: Step, limit: nat, tree: nat)
    requires Sound(cfg, s, limit) && Act(cfg, s, step).Some?
    ensures s.rec.tree == Some(tree) || (Mover(step) in s.tasks && HoldsTree(s.tasks[Mover(step)], tree))
      ==> Accounted(Act(cfg, s, step).value, tree)
  {
    if s.rec.tree == Some(tree) || (Mover(step) in s.tasks && HoldsTree(s.tasks[Mover(step)], tree)) {
      if Creates(step) {
        CreatorKeepsRecord(cfg, s.rec, StopTask(s), limit, step);
      } else if step.id == 0 {
        StopKeepsTree(cfg, s.rec, s.trees, limit, s.tasks[0], step, tree);
      } else {
        TaskKeepsTree(cfg, s.rec, s.trees, StopTask(s), limit, s.tasks[step.id], step, tree);
      }
    }
  }

  lemma SettleKeepsHeld(s: State, step: Step, o: Outcome, tree: nat)
    requires Ready(s, step) && Held(s, tree) && tree !in o.dead && (o.left.Some? ==> step.Discard?)
    requires s.rec.tree == Some(tree) || (Mover(step) in s.tasks && HoldsTree(s.tasks[Mover(step)], tree))
      ==> Accounted(o, tree)
    ensures Held(Settle(s, step, o), tree)
  {
    var t := Settle(s, step, o);
    if s.rec.tree == Some(tree) || (Mover(step) in s.tasks && HoldsTree(s.tasks[Mover(step)], tree)) {
      if o.task.Some? && HoldsTree(o.task.value, tree) {
        assert t.tasks[Mover(step)] == o.task.value;
      } else if o.rec.tree != Some(tree) {
        assert t.tasks[step.retry] == o.left.value;
      }
    } else {
      var id :| id in s.tasks && HoldsTree(s.tasks[id], tree);
      assert t.tasks[id] == s.tasks[id];
    }
  }

  /** Every step keeps the whole invariant. */
  lemma SoundStep(cfg: Config, s: State, step: Step, limit: nat)
    requires Sound(cfg, s, limit) && Next(cfg, s, step).Some?
    ensures Sound(cfg, Next(cfg, s, step).value, limit)
  {
    StampedStep(cfg, s, step);
    OneCleanupStep(cfg, s, step);
    BeforeStep(cfg, s, step, limit);
    LinesStep(cfg, s, step, limit);
    hide Act, Settle, Stamped, OneCleanup, Lines, Before, AllHeld, Orphaned;
    if AllHeld(s) {
      TreesStep(cfg, s, step, limit);
    } else {
      OrphanStep(cfg, s, step, limit);
    }
  }

  lemma OrphanStep(cfg: Config, s: State, step: Step, limit: nat)
    requires Before(cfg, s.rec, StopTask(s), limit) && Orphaned(s) && Next(cfg, s, step).Some?
    ensures var t := Next(cfg, s, step).value; AllHeld(t) || Orphaned(t)
  {
  }

  lemma {:induction false} SoundRun(cfg: Config, s: State, steps: seq<Step>, limit: nat)
    requires Sound(cfg, s, limit) && Run(cfg, s, steps).Some?
    ensures Sound(cfg, Run(cfg, s, steps).value, limit)
    decreases |steps|
  {
    if steps != [] {
      SoundStep(cfg, s, steps[0], limit);
      SoundRun(cfg, Next(cfg, s, steps[0]).value, steps[1..], limit);
    }
  }
}
