/** What the ordinary requests and events come to when nothing interferes, from every state in
    which they can come, with the whole state afterwards (src/process/manager.rs). */
module LifecycleScenarios {
  import opened Wrappers
  import opened ManagedProcesses
  import opened Lifecycle
  import opened LifecycleStops

  /** The runs of two parts are a run. */
  lemma Both(cfg: Config, s: State, first: seq<Step>, t: State, second: seq<Step>, u: State)
    requires Run(cfg, s, first) == Some(t) && Run(cfg, t, second) == Some(u)
    ensures Run(cfg, s, first + second) == Some(u)
  {
    RunExtends(cfg, s, first, second);
  }

  lemma One(cfg: Config, s: State, step: Step, t: State)
    requires Next(cfg, s, step) == Some(t)
    ensures Run(cfg, s, [step]) == Some(t)
  {
    assert [step][1..] == [];
  }

  lemma Two(cfg: Config, s: State, first: Step, t: State, second: Step, u: State)
    requires Next(cfg, s, first) == Some(t) && Next(cfg, t, second) == Some(u)
    ensures Run(cfg, s, [first, second]) == Some(u)
  {
    hide Next, Run;
    One(cfg, s, first, t);
    One(cfg, t, second, u);
    Both(cfg, s, [first], t, [second], u);
    assert [first] + [second] == [first, second];
  }

  // ---- Starting ----

  /** A start is refused exactly to a process that is disabled, has a PID, or is active. */
  lemma StartIsRefusedIff(cfg: Config, s: State, id: nat)
    requires Reachable(cfg, s) && 0 !in s.tasks && id != 0 && id !in s.tasks
    ensures Next(cfg, s, Start(id)).None? <==>
      !s.rec.enabled || s.rec.pid.Some? || !(s.rec.status == Stopped || s.rec.status == Errored)
  {
    ReachableNeverCrashed(cfg, s);
  }

  /** A spawn that has begun. */
  predicate Begun(s: State, id: nat, origin: Origin) {
    && id in s.tasks && id != 0 && s.tasks[id] == Preparing(s.rec.generation, origin)
    && s.rec.enabled && s.rec.desired
  }

  /** It is up: the PID, the identity and the tree are on record, and its exit is watched. */
  function Up(cfg: Config, s: State, id: nat, origin: Origin): State {
    var status := if cfg.watch && !origin.CronRun? then Watching else Running;
    s.(rec := s.rec.(status := status, pid := Some(s.trees), identity := true, tree := Some(s.trees)),
       tasks := s.tasks[id := Attached(s.rec.generation, origin, s.rec.restartCount)], trees := s.trees + 1)
  }

  lemma SpawnComesUp(cfg: Config, s: State, id: nat, origin: Origin)
    requires Begun(s, id, origin) && !origin.CronRun?
    ensures Run(cfg, s, [Launch(id), Expose(id), Commit(id)]) == Some(Up(cfg, s, id, origin))
  {
    hide Run;
    var gen, tree := s.rec.generation, s.trees;
    var a := s.(tasks := s.tasks[id := Holding(gen, origin, tree)], trees := tree + 1);
    var b := a.(rec := s.rec.(pid := Some(tree), identity := true),
                tasks := s.tasks[id := Published(gen, origin, tree)]);
    LaunchAndExpose(cfg, s, id, origin, a, b);
    CommitOnly(cfg, s, id, origin, b);
    Both(cfg, s, [Launch(id), Expose(id)], b, [Commit(id)], Up(cfg, s, id, origin));
    assert [Launch(id), Expose(id)] + [Commit(id)] == [Launch(id), Expose(id), Commit(id)];
  }

  lemma LaunchAndExpose(cfg: Config, s: State, id: nat, origin: Origin, a: State, b: State)
    requires Begun(s, id, origin) && !origin.CronRun?
    requires a == s.(tasks := s.tasks[id := Holding(s.rec.generation, origin, s.trees)], trees := s.trees + 1)
    requires b == a.(rec := s.rec.(pid := Some(s.trees), identity := true),
                     tasks := s.tasks[id := Published(s.rec.generation, origin, s.trees)])
    ensures Run(cfg, s, [Launch(id), Expose(id)]) == Some(b)
  {
    hide Run;
    assert a.tasks[id := b.tasks[id]] == b.tasks;
    assert s.dead + {} == s.dead;
    Two(cfg, s, Launch(id), a, Expose(id), b);
  }

  lemma CommitOnly(cfg: Config, s: State, id: nat, origin: Origin, b: State)
    requires Begun(s, id, origin) && !origin.CronRun?
    requires b == s.(rec := s.rec.(pid := Some(s.trees), identity := true),
                     tasks := s.tasks[id := Published(s.rec.generation, origin, s.trees)], trees := s.trees + 1)
    ensures Run(cfg, b, [Commit(id)]) == Some(Up(cfg, s, id, origin))
  {
    hide Run;
    var u := Up(cfg, s, id, origin);
    assert b.tasks[id := u.tasks[id]] == u.tasks && s.dead + {} == s.dead;
    One(cfg, b, Commit(id), u);
  }

  function Starting(s: State, id: nat, origin: Origin): State {
    var gen := s.rec.generation + 1;
    s.(rec := s.rec.(status := Status.Starting, desired := true, generation := gen),
       tasks := s.tasks[id := Preparing(gen, origin)], history := s.history + [gen])
  }

  /** An explicit start of a process at rest: a new generation, and it comes up. */
  lemma StartComesUp(cfg: Config, s: State, id: nat)
    requires 0 !in s.tasks && id != 0 && id !in s.tasks
    requires s.rec.enabled && s.rec.pid.None? && (s.rec.status == Stopped || s.rec.status == Errored)
    ensures Run(cfg, s, [Start(id)] + [Launch(id), Expose(id), Commit(id)])
         == Some(Up(cfg, Starting(s, id, Requested), id, Requested))
  {
    hide Run;
    var t := Starting(s, id, Requested);
    assert s.dead + {} == s.dead;
    One(cfg, s, Start(id), t);
    SpawnComesUp(cfg, t, id, Requested);
    Both(cfg, s, [Start(id)], t, [Launch(id), Expose(id), Commit(id)], Up(cfg, t, id, Requested));
  }

  lemma CronRunComesUp(cfg: Config, s: State, id: nat)
    requires id in s.tasks && id != 0 && s.tasks[id] == Preparing(s.rec.generation, CronRun) && s.rec.desired
    ensures Run(cfg, s, [Launch(id), Expose(id)]) == Some(Up(cfg, s, id, CronRun))
  {
    hide Run;
    var u := Up(cfg, s, id, CronRun);
    var a := s.(tasks := s.tasks[id := Holding(s.rec.generation, CronRun, s.trees)], trees := s.trees + 1);
    assert s.dead + {} == s.dead && a.tasks[id := u.tasks[id]] == u.tasks;
    Two(cfg, s, Launch(id), a, Expose(id), u);
  }

  /** A cron tick of a sleeping process: a new generation, and the run comes up. */
  lemma TickComesUp(cfg: Config, s: State, id: nat)
    requires cfg.cron && id != 0 && id !in s.tasks
    requires s.rec.enabled && s.rec.desired && s.rec.status == Sleeping
    ensures Run(cfg, s, [Tick(id)] + [Launch(id), Expose(id)]) == Some(Up(cfg, Starting(s, id, CronRun), id, CronRun))
  {
    hide Run;
    var t := Starting(s, id, CronRun);
    assert s.dead + {} == s.dead;
    One(cfg, s, Tick(id), t);
    CronRunComesUp(cfg, t, id);
    Both(cfg, s, [Tick(id)], t, [Launch(id), Expose(id)], Up(cfg, t, id, CronRun));
  }

  // ---- Cleaning up ----

  /** A cleanup of the current generation with something on record to kill. */
  predicate Cleans(s: State, id: nat, purpose: Purpose, root: nat) {
    && id in s.tasks && id != 0 && s.tasks[id] == Cleaning(s.rec.generation, purpose, Waiting)
    && !s.rec.cleaning && OnRecord(s.rec, root)
  }

  /** It has killed what was on record, or given it back. */
  function CleanedUp(s: State, id: nat, purpose: Purpose, root: nat, killed: bool): State {
    var gen := s.rec.generation;
    if killed
    then s.(rec := s.rec.(pid := None, identity := false, tree := None),
            tasks := s.tasks[id := Cleaned(gen, purpose)], dead := s.dead + {root})
    else s.(tasks := s.tasks[id := CleanFailed(gen, purpose)])
  }

  lemma CleanupRuns(cfg: Config, s: State, id: nat, purpose: Purpose, root: nat, killed: bool)
    requires Cleans(s, id, purpose, root)
    ensures Run(cfg, s, [Claim(id), Kill(id, killed)]) == Some(CleanedUp(s, id, purpose, root, killed))
  {
    hide Run;
    var r := s.rec;
    var hold := if r.tree.Some? then Guard(root, r.pid) else Identity(root);
    var a := s.(rec := r.(tree := None, cleaning := true),
                tasks := s.tasks[id := Cleaning(r.generation, purpose, hold)]);
    var u := CleanedUp(s, id, purpose, root, killed);
    assert a.tasks[id := u.tasks[id]] == u.tasks && s.dead + {} == s.dead;
    Two(cfg, s, Claim(id), a, Kill(id, killed), u);
  }

  /** What the section after a cleanup does, step by step before and after it. */
  lemma CleanupAnd(cfg: Config, s: State, before: seq<Step>, t: State, id: nat, purpose: Purpose, root: nat,
      killed: bool, u: State)
    requires Run(cfg, s, before) == Some(t) && Cleans(t, id, purpose, root)
    requires Next(cfg, CleanedUp(t, id, purpose, root, killed), Conclude(id)) == Some(u)
    ensures Run(cfg, s, before + [Claim(id), Kill(id, killed)] + [Conclude(id)]) == Some(u)
  {
    hide Run, Next, Cleans, CleanedUp;
    CleanupRuns(cfg, t, id, purpose, root, killed);
    Both(cfg, s, before, t, [Claim(id), Kill(id, killed)], CleanedUp(t, id, purpose, root, killed));
    One(cfg, CleanedUp(t, id, purpose, root, killed), Conclude(id), u);
    Both(cfg, s, before + [Claim(id), Kill(id, killed)], CleanedUp(t, id, purpose, root, killed), [Conclude(id)], u);
  }

  /** A cleanup waits exactly while another one runs. One with nothing on record succeeds at
      once, and one with a PID but no identity fails. */
  lemma CleanupBegins(cfg: Config, s: State, id: nat, purpose: Purpose)
    requires id in s.tasks && s.tasks[id] == Cleaning(s.rec.generation, purpose, Waiting)
    ensures Next(cfg, s, Claim(id)).Some? <==> !s.rec.cleaning
    ensures Next(cfg, s, GiveUp(id)).Some? <==> s.rec.cleaning
    ensures !s.rec.cleaning && s.rec.tree.None? && s.rec.pid.None? ==>
      Next(cfg, s, Claim(id)) == Some(s.(tasks := s.tasks[id := Cleaned(s.rec.generation, purpose)]))
    ensures !s.rec.cleaning && s.rec.tree.None? && s.rec.pid.Some? && !s.rec.identity ==>
      Next(cfg, s, Claim(id)) == Some(s.(tasks := s.tasks[id := CleanFailed(s.rec.generation, purpose)]))
  {
    assert s.dead + {} == s.dead;
  }

  // ---- Exits ----

  /** A running spawn, watched by its task. */
  predicate Watched(s: State, id: nat, origin: Origin, count: nat, root: nat) {
    && id in s.tasks && id != 0 && s.tasks[id] == Attached(s.rec.generation, origin, count)
    && s.rec.desired && !s.rec.cleaning && OnRecord(s.rec, root)
  }

  /** The process is at rest and its tree dead; or the kill failed, and it is Errored with all
      that is needed to stop it. */
  function AtRest(s: State, id: nat, root: nat, killed: bool, status: Status): State {
    var r := s.rec;
    s.(rec := if killed
              then Record(status, None, false, None, false, true, r.generation, r.restartCount, r.enabled)
              else r.(status := Errored, desired := false),
       tasks := s.tasks - {id}, dead := if killed then s.dead + {root} else s.dead)
  }

  /** The exit is being handled. */
  function Handled(s: State, id: nat, purpose: Purpose): State {
    s.(tasks := s.tasks[id := Cleaning(s.rec.generation, purpose, Waiting)])
  }

  /** Which event the exit of a running spawn becomes. */
  predicate Ends(cfg: Config, origin: Origin, code: Option<int>, purpose: Purpose) {
    match origin
    case Adopted => false
    case CronRun => purpose == ForCron
    case _ => purpose == ForExit && (code == Some(0) || !cfg.autorestart || cfg.cron)
  }

  lemma ExitIsHandled(cfg: Config, s: State, id: nat, origin: Origin, count: nat, root: nat, code: Option<int>,
      purpose: Purpose)
    requires Watched(s, id, origin, count, root) && Ends(cfg, origin, code, purpose)
    ensures Run(cfg, s, [Exit(id, code), End(id)]) == Some(Handled(s, id, purpose))
  {
    hide Run;
    var t := Handled(s, id, purpose);
    var a := s.(tasks := s.tasks[id := Ended(s.rec.generation, purpose)]);
    assert a.tasks[id := t.tasks[id]] == t.tasks && s.dead + {} == s.dead;
    Two(cfg, s, Exit(id, code), a, End(id), t);
  }

  lemma RestIsRecorded(cfg: Config, s: State, id: nat, purpose: Purpose, root: nat, killed: bool, status: Status)
    requires id in s.tasks && id != 0 && s.rec.desired && !s.rec.cleaning
    requires (purpose == ForExit && status == if cfg.cron then Sleeping else Stopped)
      || (purpose == ForCron && status == Sleeping)
    ensures Next(cfg, CleanedUp(Handled(s, id, purpose), id, purpose, root, killed), Conclude(id))
         == Some(AtRest(s, id, root, killed, status))
  {
    var c, u := CleanedUp(Handled(s, id, purpose), id, purpose, root, killed), AtRest(s, id, root, killed, status);
    assert c.tasks - {id} == u.tasks && c.dead + {} == c.dead;
  }

  /** A clean exit, or any exit of a process that is not to be restarted: it comes to rest, and
      the counter stays. */
  lemma ExitComesToRest(cfg: Config, s: State, id: nat, origin: Origin, count: nat, root: nat, code: Option<int>,
      killed: bool)
    requires Watched(s, id, origin, count, root) && (origin.Requested? || origin.Respawned?)
    requires code == Some(0) || !cfg.autorestart || cfg.cron
    ensures Run(cfg, s, [Exit(id, code), End(id)] + [Claim(id), Kill(id, killed)] + [Conclude(id)])
         == Some(AtRest(s, id, root, killed, if cfg.cron then Sleeping else Stopped))
  {
    var t, status := Handled(s, id, ForExit), if cfg.cron then Sleeping else Stopped;
    hide Run, Next, AtRest, CleanedUp;
    ExitIsHandled(cfg, s, id, origin, count, root, code, ForExit);
    RestIsRecorded(cfg, s, id, ForExit, root, killed, status);
    CleanupAnd(cfg, s, [Exit(id, code), End(id)], t, id, ForExit, root, killed, AtRest(s, id, root, killed, status));
  }

  /** The end of a cron run: back to sleep, whatever the exit code. */
  lemma CronRunComesToRest(cfg: Config, s: State, id: nat, count: nat, root: nat, code: Option<int>, killed: bool)
    requires Watched(s, id, CronRun, count, root)
    ensures Run(cfg, s, [Exit(id, code), End(id)] + [Claim(id), Kill(id, killed)] + [Conclude(id)])
         == Some(AtRest(s, id, root, killed, Sleeping))
  {
    var t := Handled(s, id, ForCron);
    hide Run, Next, AtRest, CleanedUp;
    ExitIsHandled(cfg, s, id, CronRun, count, root, code, ForCron);
    RestIsRecorded(cfg, s, id, ForCron, root, killed, Sleeping);
    CleanupAnd(cfg, s, [Exit(id, code), End(id)], t, id, ForCron, root, killed, AtRest(s, id, root, killed, Sleeping));
  }

  function AdoptedAtRest(cfg: Config, s: State, id: nat, root: nat): State {
    var r, rest := s.rec, AtRest(s, id, root, true, if cfg.cron && s.rec.enabled then Sleeping else Stopped);
    if cfg.cron then rest
    else if cfg.autorestart && r.enabled && r.restartCount < cfg.maxRestarts
    then rest.(tasks := s.tasks[id := Restarting(r.generation)])
    else rest.(tasks := s.tasks[id := Ended(r.generation, ForExit)])
  }

  lemma AdoptedRestIsRecorded(cfg: Config, s: State, id: nat, root: nat)
    requires id in s.tasks && id != 0 && s.rec.desired && !s.rec.cleaning
    ensures Next(cfg, CleanedUp(Handled(s, id, ForAdopted), id, ForAdopted, root, true), Conclude(id))
         == Some(AdoptedAtRest(cfg, s, id, root))
  {
    var c, u := CleanedUp(Handled(s, id, ForAdopted), id, ForAdopted, root, true), AdoptedAtRest(cfg, s, id, root);
    assert c.tasks - {id} == s.tasks - {id} && c.dead + {} == c.dead;
    assert cfg.cron || c.tasks[id := u.tasks[id]] == u.tasks;
  }

  /** The exit of an adopted process: it comes to rest, and is restarted if its policy says so
      and the budget allows, and otherwise reported. */
  lemma AdoptedExitComesToRest(cfg: Config, s: State, id: nat, count: nat, root: nat, code: Option<int>)
    requires Watched(s, id, Adopted, count, root)
    ensures Run(cfg, s, [Exit(id, code)] + [Claim(id), Kill(id, true)] + [Conclude(id)])
         == Some(AdoptedAtRest(cfg, s, id, root))
  {
    var t := Handled(s, id, ForAdopted);
    assert s.dead + {} == s.dead;
    assert Next(cfg, s, Exit(id, code)) == Some(t);
    hide Run, Next, AdoptedAtRest, CleanedUp;
    One(cfg, s, Exit(id, code), t);
    AdoptedRestIsRecorded(cfg, s, id, root);
    CleanupAnd(cfg, s, [Exit(id, code)], t, id, ForAdopted, root, true, AdoptedAtRest(cfg, s, id, root));
  }

  // ---- Restarts ----

  /** A queued restart of the current spawn. */
  predicate Queued(s: State, id: nat, root: nat) {
    && id in s.tasks && id != 0 && s.tasks[id] == Restarting(s.rec.generation)
    && s.rec.enabled && s.rec.desired && s.rec.status != Stopping
    && !s.rec.cleaning && OnRecord(s.rec, root)
  }

  /** The tree is dead and the counter raised, and a respawn of this generation follows; or the
      kill failed, and everything is as it was. */
  function Cleared(s: State, id: nat, root: nat, killed: bool): State {
    var r := s.rec;
    if killed
    then s.(rec := Record(Stopping, None, false, None, false, true, r.generation, r.restartCount + 1, true),
            tasks := s.tasks[id := Respawning(r.generation)], dead := s.dead + {root})
    else s.(tasks := s.tasks - {id})
  }

  /** The restart has begun to clean up. */
  function Restarted(s: State, id: nat): State {
    s.(rec := s.rec.(status := Stopping),
       tasks := s.tasks[id := Cleaning(s.rec.generation, ForRestart(s.rec.status), Waiting)])
  }

  lemma ClearingIsRecorded(cfg: Config, s: State, id: nat, root: nat, killed: bool)
    requires Queued(s, id, root)
    ensures Next(cfg, CleanedUp(Restarted(s, id), id, ForRestart(s.rec.status), root, killed), Conclude(id))
         == Some(Cleared(s, id, root, killed))
  {
    var c, u := CleanedUp(Restarted(s, id), id, ForRestart(s.rec.status), root, killed), Cleared(s, id, root, killed);
    assert c.tasks - {id} == s.tasks - {id} && c.dead + {} == c.dead;
    assert !killed || c.tasks[id := u.tasks[id]] == u.tasks;
  }

  lemma RestartClears(cfg: Config, s: State, id: nat, root: nat, killed: bool)
    requires Queued(s, id, root)
    ensures Run(cfg, s, [Restart(id)] + [Claim(id), Kill(id, killed)] + [Conclude(id)])
         == Some(Cleared(s, id, root, killed))
  {
    var t := Restarted(s, id);
    assert s.dead + {} == s.dead;
    assert Next(cfg, s, Restart(id)) == Some(t);
    hide Run, Next, Cleared, CleanedUp;
    One(cfg, s, Restart(id), t);
    ClearingIsRecorded(cfg, s, id, root, killed);
    CleanupAnd(cfg, s, [Restart(id)], t, id, ForRestart(s.rec.status), root, killed, Cleared(s, id, root, killed));
  }

  /** The respawn comes up under the next generation. */
  lemma RespawnComesUp(cfg: Config, s: State, id: nat)
    requires id in s.tasks && id != 0 && s.tasks[id] == Respawning(s.rec.generation)
    requires s.rec.enabled && s.rec.desired
    ensures var origin := Respawned(s.rec.generation);
      Run(cfg, s, [Respawn(id, true)] + [Launch(id), Expose(id), Commit(id)])
        == Some(Up(cfg, Starting(s, id, origin), id, origin))
  {
    hide Run;
    var origin := Respawned(s.rec.generation);
    var t := Starting(s, id, origin);
    assert s.dead + {} == s.dead;
    One(cfg, s, Respawn(id, true), t);
    SpawnComesUp(cfg, t, id, origin);
    Both(cfg, s, [Respawn(id, true)], t, [Launch(id), Expose(id), Commit(id)], Up(cfg, t, id, origin));
  }

  /** A respawn that cannot begin, because its log files do not open or the process has been
      disabled, leaves the process Errored and no longer to run. */
  lemma RespawnFails(cfg: Config, s: State, id: nat, logsOpen: bool)
    requires id in s.tasks && id != 0 && s.tasks[id] == Respawning(s.rec.generation) && s.rec.desired
    requires !logsOpen || !s.rec.enabled
    ensures var r := s.rec;
      Run(cfg, s, [Respawn(id, logsOpen), FailRespawn(id)]) == Some(
        s.(rec := Record(Errored, None, false, None, r.cleaning, false, r.generation + 1, r.restartCount, r.enabled),
           tasks := s.tasks - {id}))
  {
    hide Run;
    var r := s.rec;
    var t := s.(tasks := s.tasks[id := RespawnFailing(r.generation, false)]);
    var failed := Record(Errored, None, false, None, r.cleaning, false, r.generation + 1, r.restartCount, r.enabled);
    var u := s.(rec := failed, tasks := s.tasks - {id});
    assert t.tasks - {id} == u.tasks && s.dead + {} == s.dead;
    Two(cfg, s, Respawn(id, logsOpen), t, FailRespawn(id), u);
  }

  /** A change of a watched file queues a restart of the current spawn, exactly if the process is
      to run, and is up or was adopted. */
  lemma FileChangeQueues(cfg: Config, s: State, id: nat, adopted: bool)
    requires id != 0 && id !in s.tasks
    ensures Next(cfg, s, FileChange(id, adopted)) ==
      if cfg.watch && s.rec.desired && (adopted || s.rec.status in {Running, Watching})
      then Some(s.(tasks := s.tasks[id := Restarting(s.rec.generation)]))
      else None
  {
    assert s.dead + {} == s.dead;
  }

  /** A queued restart begins exactly for a process that is enabled, to run, still of that spawn
      and not stopping already; otherwise it is dropped. */
  lemma RestartBeginsIff(cfg: Config, s: State, id: nat, gen: nat)
    requires id in s.tasks && id != 0 && s.tasks[id] == Restarting(gen)
    ensures var r := s.rec;
      Next(cfg, s, Restart(id)) == Some(
        if r.enabled && r.desired && r.generation == gen && r.status != Stopping
        then s.(rec := r.(status := Stopping),
                tasks := s.tasks[id := Cleaning(gen, ForRestart(r.status), Waiting)])
        else s.(tasks := s.tasks - {id}))
  {
    assert s.dead + {} == s.dead;
  }

  /** A process that was disabled while its tree was being killed is not respawned. */
  lemma DisabledIsNotRespawned(cfg: Config, s: State, id: nat, from: Status)
    requires id in s.tasks && id != 0 && s.tasks[id] == Cleaned(s.rec.generation, ForRestart(from))
    requires !s.rec.enabled
    ensures var r := s.rec;
      Next(cfg, s, Conclude(id)) == Some(
        s.(rec := Record(Stopped, None, false, None, r.cleaning, false, r.generation, r.restartCount, false),
           tasks := s.tasks - {id}))
  {
    assert s.dead + {} == s.dead;
  }

  // ---- Spawns that fail ----

  /** A failed preparation: Errored, not to run, and the generation is used up. */
  lemma PreparationFails(cfg: Config, s: State, id: nat, origin: Origin)
    requires Begun(s, id, origin)
    ensures var r := s.rec;
      Next(cfg, s, FailPreparation(id)) == Some(
        s.(rec := Record(Errored, None, false, None, r.cleaning, false, r.generation + 1, r.restartCount, r.enabled),
           tasks := if origin.Respawned? then s.tasks[id := RespawnFailing(origin.previous, true)] else s.tasks - {id}))
  {
    assert s.dead + {} == s.dead;
  }

  /** A child that has to be given up. */
  predicate Holds(s: State, id: nat, tree: nat) {
    id in s.tasks && id != 0 && s.tasks[id] == Holding(s.rec.generation, Requested, tree)
  }

  /** Its tree could not be killed: the process is Errored with its PID on record, and with the
      identity if there was one; a retry goes on. */
  function Retained(s: State, id: nat, tree: nat, identified: bool, retry: nat): State {
    var r, gen := s.rec, s.rec.generation + 1;
    s.(rec := r.(status := Errored, desired := false, generation := gen, pid := Some(tree), identity := identified),
       tasks := (s.tasks - {id})[retry := Retrying(Some(gen), tree, identified)])
  }

  lemma GivenUpIsRetained(cfg: Config, s: State, id: nat, tree: nat, identified: bool, retry: nat)
    requires Holds(s, id, tree) && retry != 0 && retry !in s.tasks
    ensures Run(cfg, s, [Abort(id, identified), Discard(id, false, retry)])
         == Some(Retained(s, id, tree, identified, retry))
  {
    hide Run;
    var gen, u := s.rec.generation, Retained(s, id, tree, identified, retry);
    var t := s.(tasks := s.tasks[id := Discarding(gen, Requested, tree, identified)]);
    assert t.tasks - {id} == s.tasks - {id} && s.dead + {} == s.dead;
    Two(cfg, s, Abort(id, identified), t, Discard(id, false, retry), u);
  }

  /** If it could be killed, nothing is on record and nothing goes on. */
  lemma GivenUpIsReleased(cfg: Config, s: State, id: nat, tree: nat, identified: bool, retry: nat)
    requires Holds(s, id, tree) && retry != 0 && retry !in s.tasks
    ensures var r := s.rec;
      Run(cfg, s, [Abort(id, identified), Discard(id, true, retry)]) == Some(
        s.(rec := r.(status := Errored, desired := false, generation := r.generation + 1,
                     pid := None, identity := false),
           tasks := s.tasks - {id}, dead := s.dead + {tree}))
  {
    hide Run;
    var r := s.rec;
    var t := s.(tasks := s.tasks[id := Discarding(r.generation, Requested, tree, identified)]);
    var u := s.(rec := r.(status := Errored, desired := false, generation := r.generation + 1,
                          pid := None, identity := false),
                tasks := s.tasks - {id}, dead := s.dead + {tree});
    assert t.tasks - {id} == s.tasks - {id} && s.dead + {} == s.dead;
    Two(cfg, s, Abort(id, identified), t, Discard(id, true, retry), u);
  }

  /** A child whose PID has been published is identified. */
  lemma PublishedIsIdentified(cfg: Config, s: State, id: nat, gen: nat, origin: Origin, tree: nat, identified: bool)
    requires id in s.tasks && id != 0 && s.tasks[id] == Published(gen, origin, tree)
    ensures Next(cfg, s, Abort(id, identified)) == Some(s.(tasks := s.tasks[id := Discarding(gen, origin, tree, true)]))
  {
    assert s.dead + {} == s.dead;
  }

  /** Once it is killed the process is Stopped and the PID is gone. A retry that fails still
      finds the identity. */
  lemma RetryReleases(cfg: Config, s: State, id: nat, tree: nat, identified: bool)
    requires id in s.tasks && id != 0 && s.tasks[id] == Retrying(Some(s.rec.generation), tree, identified)
    requires s.rec.pid == Some(tree)
    ensures Next(cfg, s, Retry(id, true)) == Some(
      s.(rec := s.rec.(pid := None, identity := false, status := Stopped), tasks := s.tasks - {id},
         dead := s.dead + {tree}))
    ensures !identified ==> Next(cfg, s, Retry(id, false)) == Some(
      s.(rec := s.rec.(identity := true), tasks := s.tasks[id := Retrying(Some(s.rec.generation), tree, true)]))
  {
    assert s.dead + {} == s.dead;
  }

  // ---- Enabling ----

  /** Disabling a process without PID puts it to rest; one with a PID is left alone. Enabling a
      scheduled process at rest puts it to sleep, ready for its next tick. */
  lemma DisableAndEnable(cfg: Config, s: State)
    requires 0 !in s.tasks && s.rec.pid.None? && s.rec.enabled
    ensures var r := s.rec;
      && Next(cfg, s, Enable(false)) == Some(
           s.(rec := r.(enabled := false, desired := false, generation := r.generation + 1, status := Stopped)))
      && Run(cfg, s, [Enable(false), Enable(true)]) == Some(
           if cfg.cron
           then s.(rec := r.(desired := true, generation := r.generation + 2, status := Sleeping))
           else s.(rec := r.(desired := false, generation := r.generation + 1, status := Stopped)))
  {
    hide Run;
    var r := s.rec;
    var t := s.(rec := r.(enabled := false, desired := false, generation := r.generation + 1, status := Stopped));
    var u := if cfg.cron
      then s.(rec := r.(desired := true, generation := r.generation + 2, status := Sleeping))
      else s.(rec := r.(desired := false, generation := r.generation + 1, status := Stopped));
    assert s.tasks - {0} == s.tasks && s.dead + {} == s.dead;
    Two(cfg, s, Enable(false), t, Enable(true), u);
  }

  lemma RunningKeepsRunning(cfg: Config, s: State, on: bool)
    requires 0 !in s.tasks && s.rec.pid.Some?
    ensures Next(cfg, s, Enable(on)) == Some(s.(rec := s.rec.(enabled := on)))
  {
    assert s.tasks - {0} == s.tasks && s.dead + {} == s.dead;
  }

  /** A disabled process is never started: no spawn begins, no restart is accepted, and a spawn
      in flight is not published and takes no tree, except for a cron run, whose commit does not
      look at the flag. */
  lemma DisabledNeverComesUp(cfg: Config, s: State, step: Step)
    requires !s.rec.enabled && Next(cfg, s, step).Some? && !step.Enable? && !step.Flag?
    ensures var t := Next(cfg, s, step).value;
      && t.history == s.history && !t.rec.enabled
      && (step.Restart? ==> t.rec == s.rec)
      && (step.Commit? ==> t.rec == s.rec && t.tasks[step.id].Discarding?)
      && (step.Expose? && !s.tasks[step.id].origin.CronRun? ==> t.rec == s.rec && t.tasks[step.id].Discarding?)
  {
  }

  /** An exhausted budget is reported for the count it was found at: if the counter has been
      changed since, nothing happens. And a cron run returns without a child only if it has been
      cancelled. */
  lemma StaleReportsAreDropped(cfg: Config, s: State, id: nat, gen: nat, count: nat)
    requires id in s.tasks && id != 0
    ensures s.tasks[id] == Ended(gen, ForMax(count)) && (s.rec.restartCount != count || s.rec.generation != gen) ==>
      Next(cfg, s, End(id)) == Some(s.(tasks := s.tasks - {id}))
    ensures s.tasks[id] == Cleaned(gen, ForMax(count)) && s.rec.restartCount != count ==>
      Next(cfg, s, Conclude(id)) == Some(s.(tasks := s.tasks - {id}))
    ensures s.tasks[id] == Preparing(gen, CronRun) ==>
      (Next(cfg, s, Abandon(id)).Some? <==> !s.rec.enabled || !s.rec.desired || s.rec.generation != gen)
  {
    assert s.dead + {} == s.dead;
  }
}
