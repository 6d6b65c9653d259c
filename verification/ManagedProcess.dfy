/** The shared lifecycle record of one managed process and every write-lock section
    that changes it (src/process/manager.rs, src/process/instance.rs).

    A process tree is named by the serial number of its spawn, and the PID of its root
    carries the same number: a PID is never reused for another tree. */
module ManagedProcesses {
  import opened Wrappers

  datatype Status = Starting | Stopping | Running | Watching | Sleeping | Stopped | Crashed | Errored

  datatype Config = Config(cron: bool, watch: bool, autorestart: bool, maxRestarts: nat)

  datatype Record = Record(
    status: Status,
    pid: Option<nat>,
    identity: bool,       // a stable OS identity is recorded together with the PID
    tree: Option<nat>,    // the process-tree guard the registry owns
    cleaning: bool,       // process_tree_cleanup_in_progress
    desired: bool,        // desired_running
    generation: nat,
    restartCount: nat,
    enabled: bool)

  /** What a tree cleanup took out of the record. */
  datatype Hold = Waiting | Guard(tree: nat, owned: Option<nat>) | Identity(pid: nat)

  /** The answer of the section that opens a tree cleanup. */
  datatype Claim = Busy | Superseded | Nothing | Unidentified | Took(hold: Hold)

  predicate Active(status: Status) {
    status.Starting? || status.Stopping? || status.Running? || status.Watching? || status.Sleeping?
  }

  predicate Stoppable(r: Record) {
    || Active(r.status)
    || (r.status == Errored && r.pid.Some?)
    || (r.status == Stopped && r.desired)
  }

  predicate Current(r: Record, stamp: nat) {
    r.desired && r.generation == stamp
  }

  predicate Admits(r: Record, stamp: nat) {
    r.enabled && Current(r, stamp)
  }

  // ---- Explicit requests ----

  function BeginStop(r: Record): Record {
    r.(desired := false, generation := r.generation + 1, status := Stopping)
  }

  function RollBackStop(r: Record, stamp: nat, previousStatus: Status, previousGeneration: nat): Record {
    if r.generation != stamp then r
    else r.(status := previousStatus, desired := true, generation := previousGeneration)
  }

  function CommitStop(r: Record, stamp: nat): Record {
    if r.generation != stamp then r
    else r.(status := Stopped, pid := None, identity := false, tree := None)
  }

  function SetEnabled(r: Record, cfg: Config, on: bool): Record {
    if !on then
      if r.pid.None?
      then r.(enabled := false, desired := false, generation := r.generation + 1, status := Stopped)
      else r.(enabled := false)
    else if !r.enabled && cfg.cron && r.pid.None? && r.status == Stopped
    then r.(enabled := true, desired := true, generation := r.generation + 1, status := Sleeping)
    else r.(enabled := true)
  }

  // ---- Spawning ----

  /** The spawn precheck and its write section. `expected` is the generation a respawn
      continues; an explicit request has none. `None` is a refusal. */
  function BeginSpawn(r: Record, expected: Option<nat>): Option<Record> {
    if !r.enabled then None
    else if expected.None? && (r.pid.Some? || Active(r.status)) then None
    else if expected.Some? && !Current(r, expected.value) then None
    else Some(r.(desired := true, generation := r.generation + 1, status := Starting))
  }

  function BeginCronRun(r: Record): Option<Record> {
    if !r.enabled || !r.desired || r.status != Sleeping then None
    else Some(r.(generation := r.generation + 1, status := Starting))
  }

  function Publish(r: Record, stamp: nat, pid: nat): Option<Record> {
    if !Admits(r, stamp) then None else Some(r.(pid := Some(pid), identity := true))
  }

  function CommitSpawn(r: Record, cfg: Config, stamp: nat, tree: nat): Option<Record> {
    if !Admits(r, stamp) then None
    else Some(r.(status := if cfg.watch then Watching else Running, tree := Some(tree)))
  }

  function CommitCronRun(r: Record, stamp: nat, tree: nat): Option<Record> {
    if !Current(r, stamp) then None
    else Some(r.(pid := Some(tree), identity := true, tree := Some(tree), status := Running))
  }

  function MarkErrored(r: Record, stamp: nat): Record {
    if !Current(r, stamp) then r
    else r.(status := Errored, desired := false, generation := r.generation + 1,
            pid := None, identity := false, tree := None)
  }

  /** The section of cleanup_failed_spawn that follows the first kill attempt. */
  function DiscardSpawn(r: Record, stamp: nat, pid: nat, identified: bool, killed: bool): Record {
    if r.generation != stamp then r
    else r.(status := Errored, desired := false, generation := r.generation + 1,
            pid := if killed then None else Some(pid), identity := !killed && identified)
  }

  predicate Retains(r: Record, retained: Option<nat>, pid: nat) {
    retained == Some(r.generation) && r.pid == Some(pid)
  }

  function CaptureIdentity(r: Record, retained: Option<nat>, pid: nat): Record {
    if Retains(r, retained, pid) then r.(identity := true) else r
  }

  function ReleaseRetained(r: Record, retained: Option<nat>, pid: nat): Record {
    if Retains(r, retained, pid) then r.(pid := None, identity := false, status := Stopped) else r
  }

  predicate RespawnFailureApplies(r: Record, previous: nat) {
    r.desired && (r.generation == previous || r.generation == previous + 1)
  }

  function MarkRespawnFailed(r: Record, previous: nat): Record {
    if !RespawnFailureApplies(r, previous) then r
    else r.(generation := previous + 1, status := Errored, desired := false,
            pid := None, identity := false, tree := None)
  }

  // ---- Tree cleanup ----

  function ClaimCleanup(r: Record, stamp: nat): (Record, Claim) {
    if r.cleaning then (r, Busy)
    else if r.generation != stamp then (r, Superseded)
    else if r.tree.Some? then (r.(tree := None, cleaning := true), Took(Guard(r.tree.value, r.pid)))
    else if r.pid.None? then (r, Nothing)
    else if r.identity then (r.(cleaning := true), Took(Identity(r.pid.value)))
    else (r, Unidentified)
  }

  function FinishCleanup(r: Record, hold: Hold, killed: bool): Record
    requires !hold.Waiting?
  {
    var owned := if hold.Guard? then hold.owned else Some(hold.pid);
    if r.tree.Some? || r.pid != owned then r.(cleaning := false)
    else if killed then r.(cleaning := false, pid := None, identity := false)
    else if hold.Guard? then r.(cleaning := false, tree := Some(hold.tree))
    else r.(cleaning := false)
  }

  // ---- Background events ----

  function BeginRestart(r: Record, stamp: nat): Option<Record> {
    if !Admits(r, stamp) || r.status == Stopping then None else Some(r.(status := Stopping))
  }

  function RestoreAfterFailedRestart(r: Record, stamp: nat, previousStatus: Status): Record {
    if r.generation == stamp then r.(status := previousStatus) else r
  }

  /** The section between the confirmed cleanup and the respawn; true when a respawn follows. */
  function ClearForRespawn(r: Record, stamp: nat): (Record, bool) {
    if Admits(r, stamp)
    then (r.(pid := None, identity := false, tree := None, restartCount := r.restartCount + 1), true)
    else if !r.enabled && r.generation == stamp
    then (r.(status := Stopped, desired := false, pid := None, identity := false, tree := None), false)
    else (r, false)
  }

  function RecordExit(r: Record, cfg: Config, stamp: nat): Record {
    if !Current(r, stamp) then r
    else r.(status := if cfg.cron then Sleeping else Stopped, pid := None, identity := false, tree := None)
  }

  function RecordMaxRestarts(r: Record, stamp: nat, count: nat): Record {
    if !Current(r, stamp) || r.restartCount != count then r
    else r.(status := Errored, desired := false, pid := None, identity := false, tree := None)
  }

  /** The failure section shared by the Exited and MaxRestartsReached events. */
  function RecordExitFailure(r: Record, stamp: nat): Record {
    if r.generation != stamp then r else r.(status := Errored, desired := false)
  }

  /** The failure section shared by a cron run and by the adopted-PID watcher. */
  function RecordCleanupFailure(r: Record, stamp: nat): Record {
    if !Current(r, stamp) then r else r.(status := Errored, desired := false)
  }

  function FinishCronRun(r: Record, stamp: nat): Record {
    if !Current(r, stamp) then r
    else r.(status := Sleeping, pid := None, identity := false, tree := None)
  }

  function RecordAdoptedExit(r: Record, cfg: Config, stamp: nat): Record {
    if !Current(r, stamp) then r
    else r.(status := if cfg.cron && r.enabled then Sleeping else Stopped,
            pid := None, identity := false, tree := None)
  }

  /** The record as the source holds it: mutable fields behind a write lock. Each method
      is the body of one write-lock section. */
  class ManagedProcess {
    const cfg: Config
    var status: Status
    var pid: Option<nat>
    var identity: bool
    var tree: Option<nat>
    var cleaning: bool
    var desired: bool
    var generation: nat
    var restartCount: nat
    var enabled: bool

    function Snapshot(): Record
      reads this
    {
      Record(status, pid, identity, tree, cleaning, desired, generation, restartCount, enabled)
    }

    constructor (cfg: Config, enabled: bool, restartCount: nat)
      ensures this.cfg == cfg
      ensures Snapshot() == Record(Stopped, None, false, None, false, false, 0, restartCount, enabled)
    {
      this.cfg := cfg;
      status, pid, identity, tree, cleaning := Stopped, None, false, None, false;
      desired, generation := false, 0;
      this.restartCount, this.enabled := restartCount, enabled;
    }

    method StopSection() returns (accepted: bool, previousStatus: Status, previousGeneration: nat)
      modifies this
      ensures accepted == Stoppable(old(Snapshot()))
      ensures previousStatus == old(status) && previousGeneration == old(generation)
      ensures Snapshot() == if accepted then BeginStop(old(Snapshot())) else old(Snapshot())
    {
      previousStatus, previousGeneration := status, generation;
      accepted := Stoppable(Snapshot());
      if accepted {
        desired := false;
        generation := generation + 1;
        status := Stopping;
      }
    }

    method StopFailedSection(stamp: nat, previousStatus: Status, previousGeneration: nat)
      modifies this
      ensures Snapshot() == RollBackStop(old(Snapshot()), stamp, previousStatus, previousGeneration)
    {
      if generation != stamp {
        return;
      }
      status := previousStatus;
      desired := true;
      generation := previousGeneration;
    }

    method StopCommitSection(stamp: nat)
      modifies this
      ensures Snapshot() == CommitStop(old(Snapshot()), stamp)
    {
      if generation != stamp {
        return;
      }
      status := Stopped;
      pid, identity, tree := None, false, None;
    }

    method EnabledSection(on: bool)
      modifies this
      ensures Snapshot() == SetEnabled(old(Snapshot()), cfg, on)
    {
      var previous := enabled;
      enabled := on;
      if !on && pid.None? {
        desired := false;
        generation := generation + 1;
        status := Stopped;
      }
      if on && !previous && cfg.cron && pid.None? && status == Stopped {
        desired := true;
        generation := generation + 1;
        status := Sleeping;
      }
    }

    method SpawnSection(expected: Option<nat>) returns (accepted: bool)
      modifies this
      ensures accepted == BeginSpawn(old(Snapshot()), expected).Some?
      ensures Snapshot() == if accepted then BeginSpawn(old(Snapshot()), expected).value else old(Snapshot())
    {
      if !enabled {
        return false;
      }
      if expected.None? && (pid.Some? || Active(status)) {
        return false;
      }
      if expected.Some? && (!desired || generation != expected.value) {
        return false;
      }
      if expected.None? {
        desired := true;
      }
      generation := generation + 1;
      status := Starting;
      return true;
    }

    method CronSection() returns (accepted: bool)
      modifies this
      ensures accepted == BeginCronRun(old(Snapshot())).Some?
      ensures Snapshot() == if accepted then BeginCronRun(old(Snapshot())).value else old(Snapshot())
    {
      if !enabled || !desired || status != Sleeping {
        return false;
      }
      generation := generation + 1;
      status := Starting;
      return true;
    }

    method PublishSection(stamp: nat, child: nat) returns (accepted: bool)
      modifies this
      ensures accepted == Publish(old(Snapshot()), stamp, child).Some?
      ensures Snapshot() == if accepted then Publish(old(Snapshot()), stamp, child).value else old(Snapshot())
    {
      if !enabled || generation != stamp || !desired {
        return false;
      }
      pid, identity := Some(child), true;
      return true;
    }

    method CommitSection(stamp: nat, child: nat) returns (accepted: bool)
      modifies this
      ensures accepted == CommitSpawn(old(Snapshot()), cfg, stamp, child).Some?
      ensures Snapshot() == if accepted then CommitSpawn(old(Snapshot()), cfg, stamp, child).value else old(Snapshot())
    {
      if !enabled || generation != stamp || !desired {
        return false;
      }
      status := if cfg.watch then Watching else Running;
      tree := Some(child);
      return true;
    }

    method CronCommitSection(stamp: nat, child: nat) returns (accepted: bool)
      modifies this
      ensures accepted == CommitCronRun(old(Snapshot()), stamp, child).Some?
      ensures Snapshot() == if accepted then CommitCronRun(old(Snapshot()), stamp, child).value else old(Snapshot())
    {
      if generation != stamp || !desired {
        return false;
      }
      pid, identity, tree := Some(child), true, Some(child);
      status := Running;
      return true;
    }

    method MarkErroredIfCurrent(stamp: nat)
      modifies this
      ensures Snapshot() == MarkErrored(old(Snapshot()), stamp)
    {
      if generation != stamp || !desired {
        return;
      }
      status, desired := Errored, false;
      generation := generation + 1;
      pid, identity, tree := None, false, None;
    }

    method DiscardSection(stamp: nat, child: nat, identified: bool, killed: bool) returns (retained: Option<nat>)
      modifies this
      ensures Snapshot() == DiscardSpawn(old(Snapshot()), stamp, child, identified, killed)
      ensures retained == if old(generation) == stamp then Some(generation) else None
    {
      if generation != stamp {
        return None;
      }
      status, desired := Errored, false;
      generation := generation + 1;
      pid := if killed then None else Some(child);
      identity := !killed && identified;
      return Some(generation);
    }

    method RetrySection(retained: Option<nat>, child: nat)
      modifies this
      ensures Snapshot() == ReleaseRetained(old(Snapshot()), retained, child)
    {
      if retained == Some(generation) && pid == Some(child) {
        pid, identity, status := None, false, Stopped;
      }
    }

    method RespawnFailedSection(previous: nat) returns (applied: bool)
      modifies this
      ensures applied == RespawnFailureApplies(old(Snapshot()), previous)
      ensures Snapshot() == MarkRespawnFailed(old(Snapshot()), previous)
    {
      var failed := previous + 1;
      if !desired || (generation != previous && generation != failed) {
        return false;
      }
      generation, status, desired := failed, Errored, false;
      pid, identity, tree := None, false, None;
      return true;
    }

    method ClaimSection(stamp: nat) returns (claim: Claim)
      modifies this
      ensures (Snapshot(), claim) == ClaimCleanup(old(Snapshot()), stamp)
    {
      if cleaning {
        return Busy;
      }
      if generation != stamp {
        return Superseded;
      }
      match tree {
        case Some(guard) =>
          claim := Took(Guard(guard, pid));
          tree, cleaning := None, true;
        case None =>
          match pid {
            case None => claim := Nothing;
            case Some(root) =>
              if identity {
                cleaning := true;
                claim := Took(Identity(root));
              } else {
                claim := Unidentified;
              }
          }
      }
    }

    method ReleaseSection(hold: Hold, killed: bool)
      requires !hold.Waiting?
      modifies this
      ensures Snapshot() == FinishCleanup(old(Snapshot()), hold, killed)
    {
      cleaning := false;
      match hold {
        case Guard(guard, owned) =>
          if tree.None? && pid == owned {
            if killed {
              pid, identity := None, false;
            } else {
              tree := Some(guard);
            }
          }
        case Identity(root) =>
          if killed && tree.None? && pid == Some(root) {
            pid, identity := None, false;
          }
      }
    }

    method RestartSection(stamp: nat) returns (accepted: bool, previousStatus: Status)
      modifies this
      ensures previousStatus == old(status)
      ensures accepted == BeginRestart(old(Snapshot()), stamp).Some?
      ensures Snapshot() == if accepted then BeginRestart(old(Snapshot()), stamp).value else old(Snapshot())
    {
      previousStatus := status;
      if !enabled || !desired || generation != stamp || status == Stopping {
        return false, previousStatus;
      }
      status := Stopping;
      return true, previousStatus;
    }

    method RespawnSection(stamp: nat) returns (respawn: bool)
      modifies this
      ensures (Snapshot(), respawn) == ClearForRespawn(old(Snapshot()), stamp)
    {
      if !enabled || !desired || generation != stamp {
        if !enabled && generation == stamp {
          status, desired := Stopped, false;
          pid, identity, tree := None, false, None;
        }
        return false;
      }
      pid, identity, tree := None, false, None;
      restartCount := restartCount + 1;
      return true;
    }

    method ExitSection(stamp: nat)
      modifies this
      ensures Snapshot() == RecordExit(old(Snapshot()), cfg, stamp)
    {
      if !desired || generation != stamp {
        return;
      }
      status := if cfg.cron then Sleeping else Stopped;
      pid, identity, tree := None, false, None;
    }

    method CronFinishSection(stamp: nat)
      modifies this
      ensures Snapshot() == FinishCronRun(old(Snapshot()), stamp)
    {
      if generation != stamp || !desired {
        return;
      }
      status := Sleeping;
      pid, identity, tree := None, false, None;
    }

    method CleanupFailedSection(stamp: nat)
      modifies this
      ensures Snapshot() == RecordCleanupFailure(old(Snapshot()), stamp)
    {
      if generation != stamp || !desired {
        return;
      }
      status, desired := Errored, false;
    }

    method ExitFailedSection(stamp: nat)
      modifies this
      ensures Snapshot() == RecordExitFailure(old(Snapshot()), stamp)
    {
      if generation != stamp {
        return;
      }
      status, desired := Errored, false;
    }

    method RestartFailedSection(stamp: nat, previousStatus: Status)
      modifies this
      ensures Snapshot() == RestoreAfterFailedRestart(old(Snapshot()), stamp, previousStatus)
    {
      if generation == stamp {
        status := previousStatus;
      }
    }

    method IdentitySection(retained: Option<nat>, child: nat) returns (captured: bool)
      modifies this
      ensures captured == Retains(old(Snapshot()), retained, child)
      ensures Snapshot() == CaptureIdentity(old(Snapshot()), retained, child)
    {
      captured := retained == Some(generation) && pid == Some(child);
      if captured {
        identity := true;
      }
    }

    method MaxRestartsSection(stamp: nat, count: nat)
      modifies this
      ensures Snapshot() == RecordMaxRestarts(old(Snapshot()), stamp, count)
    {
      if !desired || generation != stamp || restartCount != count {
        return;
      }
      status, desired := Errored, false;
      pid, identity, tree := None, false, None;
    }

    method AdoptedExitSection(stamp: nat) returns (applied: bool)
      modifies this
      ensures applied == Current(old(Snapshot()), stamp)
      ensures Snapshot() == RecordAdoptedExit(old(Snapshot()), cfg, stamp)
    {
      if !desired || generation != stamp {
        return false;
      }
      status := if cfg.cron && enabled then Sleeping else Stopped;
      pid, identity, tree := None, false, None;
      return true;
    }
  }
}
