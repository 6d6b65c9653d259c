/** In watch mode two Restart events of one spawn can overlap, and mark_respawn_failed then
    acts on the respawn of the other one (src/process/manager.rs:2223-2238). */
module LifecycleWatchRace {
  import opened Wrappers
  import opened ManagedProcesses
  import opened Lifecycle
  import opened LifecycleOwnership
  import opened LifecycleGuarantees

  // The race. Task 1 is the first spawn and its exit, tasks 2 and 3 are the two Restart events.

  function Origin0(cfg: Config, count: nat): State {
    Initial(cfg, AsStopped, true, count)
  }

  /** The first spawn is running. */
  function FirstRuns(count: nat): State {
    State(Record(Watching, Some(0), true, Some(0), false, true, 1, count, true),
          map[1 := Attached(1, Requested, count)], 1, {}, [1])
  }

  /** The first spawn has its tree. */
  function FirstHeld(count: nat): State {
    State(Record(Starting, None, false, None, false, true, 1, count, true),
          map[1 := Holding(1, Requested, 0)], 1, {}, [1])
  }

  lemma SpawnPart(cfg: Config, count: nat) returns (steps: seq<Step>)
    requires cfg.watch
    ensures Run(cfg, Origin0(cfg, count), steps) == Some(FirstHeld(count))
  {
    hide Run;
    var o := Origin0(cfg, count);
    var a := State(FirstHeld(count).rec, map[1 := Preparing(1, Requested)], 0, {}, [1]);
    RunBegins(cfg, o);
    Extend(cfg, o, [], o, Start(1), a);
    steps := [] + [Start(1)];
    Extend(cfg, o, steps, a, Launch(1), FirstHeld(count));
    steps := steps + [Launch(1)];
  }

  lemma CommitPart(cfg: Config, count: nat, before: seq<Step>) returns (steps: seq<Step>)
    requires cfg.watch && Run(cfg, Origin0(cfg, count), before) == Some(FirstHeld(count))
    ensures Run(cfg, Origin0(cfg, count), steps) == Some(FirstRuns(count))
  {
    hide Run;
    var o, origin := FirstHeld(count), Origin0(cfg, count);
    var a := o.(rec := o.rec.(pid := Some(0), identity := true), tasks := map[1 := Published(1, Requested, 0)]);
    Extend(cfg, origin, before, o, Expose(1), a);
    steps := before + [Expose(1)];
    Extend(cfg, origin, steps, a, Commit(1), FirstRuns(count));
    steps := steps + [Commit(1)];
  }

  /** Two files have changed, and the root of the first spawn has exited cleanly. */
  function TwoChangesAndAnExit(count: nat): State {
    FirstRuns(count).(tasks := map[1 := Ended(1, ForExit), 2 := Restarting(1), 3 := Restarting(1)])
  }

  lemma ChangePart(cfg: Config, count: nat, before: seq<Step>) returns (steps: seq<Step>)
    requires cfg.watch && Run(cfg, Origin0(cfg, count), before) == Some(FirstRuns(count))
    ensures Run(cfg, Origin0(cfg, count), steps) == Some(TwoChangesAndAnExit(count))
  {
    hide Run;
    var o, origin := FirstRuns(count), Origin0(cfg, count);
    var first := Attached(1, Requested, count);
    var a := o.(tasks := map[1 := first, 2 := Restarting(1)]);
    var b := o.(tasks := map[1 := first, 2 := Restarting(1), 3 := Restarting(1)]);
    Extend(cfg, origin, before, o, FileChange(2, false), a);
    steps := before + [FileChange(2, false)];
    Extend(cfg, origin, steps, a, FileChange(3, false), b);
    steps := steps + [FileChange(3, false)];
    Extend(cfg, origin, steps, b, Exit(1, Some(0)), TwoChangesAndAnExit(count));
    steps := steps + [Exit(1, Some(0))];
  }

  /** The first Restart has killed the tree. */
  function FirstCleaned(count: nat): State {
    State(Record(Stopping, None, false, None, false, true, 1, count, true),
          map[1 := Ended(1, ForExit), 2 := Cleaned(1, ForRestart(Watching)), 3 := Restarting(1)], 1, {0}, [1])
  }

  lemma CleanPart(cfg: Config, count: nat, before: seq<Step>) returns (steps: seq<Step>)
    requires cfg.watch && Run(cfg, Origin0(cfg, count), before) == Some(TwoChangesAndAnExit(count))
    ensures Run(cfg, Origin0(cfg, count), steps) == Some(FirstCleaned(count))
  {
    hide Run;
    var o, origin := TwoChangesAndAnExit(count), Origin0(cfg, count);
    var r := o.rec.(status := Stopping);
    var waiting := Cleaning(1, ForRestart(Watching), Waiting);
    var holding := Cleaning(1, ForRestart(Watching), Guard(0, Some(0)));
    var a := State(r, map[1 := Ended(1, ForExit), 2 := waiting, 3 := Restarting(1)], 1, {}, [1]);
    var b := State(r.(tree := None, cleaning := true),
                   map[1 := Ended(1, ForExit), 2 := holding, 3 := Restarting(1)], 1, {}, [1]);
    Extend(cfg, origin, before, o, Restart(2), a);
    steps := before + [Restart(2)];
    Extend(cfg, origin, steps, a, Claim(2), b);
    steps := steps + [Claim(2)];
    Extend(cfg, origin, steps, b, Kill(2, true), FirstCleaned(count));
    steps := steps + [Kill(2, true)];
  }

  /** The exit event has reset the status. */
  function ExitOvertakes(cfg: Config, count: nat): State {
    State(Record(if cfg.cron then Sleeping else Stopped, None, false, None, false, true, 1, count, true),
          map[2 := Cleaned(1, ForRestart(Watching)), 3 := Restarting(1)], 1, {0}, [1])
  }

  lemma ExitPart(cfg: Config, count: nat, before: seq<Step>) returns (steps: seq<Step>)
    requires cfg.watch && Run(cfg, Origin0(cfg, count), before) == Some(FirstCleaned(count))
    ensures Run(cfg, Origin0(cfg, count), steps) == Some(ExitOvertakes(cfg, count))
  {
    hide Run;
    var o, origin := FirstCleaned(count), Origin0(cfg, count);
    var clean := Cleaned(1, ForRestart(Watching));
    var a := o.(tasks := map[1 := Cleaning(1, ForExit, Waiting), 2 := clean, 3 := Restarting(1)]);
    var b := o.(tasks := map[1 := Cleaned(1, ForExit), 2 := clean, 3 := Restarting(1)]);
    Extend(cfg, origin, before, o, End(1), a);
    steps := before + [End(1)];
    Extend(cfg, origin, steps, a, Claim(1), b);
    steps := steps + [Claim(1)];
    Extend(cfg, origin, steps, b, Conclude(1), ExitOvertakes(cfg, count));
    steps := steps + [Conclude(1)];
  }

  /** The second Restart has found nothing to kill. */
  function SecondCleaned(cfg: Config, count: nat): State {
    var before := ExitOvertakes(cfg, count);
    before.(rec := before.rec.(status := Stopping),
            tasks := map[2 := Cleaned(1, ForRestart(Watching)), 3 := Cleaned(1, ForRestart(before.rec.status))])
  }

  lemma SecondPart(cfg: Config, count: nat, before: seq<Step>) returns (steps: seq<Step>)
    requires cfg.watch && Run(cfg, Origin0(cfg, count), before) == Some(ExitOvertakes(cfg, count))
    ensures Run(cfg, Origin0(cfg, count), steps) == Some(SecondCleaned(cfg, count))
  {
    hide Run;
    var o, origin := ExitOvertakes(cfg, count), Origin0(cfg, count);
    var waiting := Cleaning(1, ForRestart(o.rec.status), Waiting);
    var a := o.(rec := o.rec.(status := Stopping), tasks := map[2 := Cleaned(1, ForRestart(Watching)), 3 := waiting]);
    Extend(cfg, origin, before, o, Restart(3), a);
    steps := before + [Restart(3)];
    Extend(cfg, origin, steps, a, Claim(3), SecondCleaned(cfg, count));
    steps := steps + [Claim(3)];
  }

  /** Both Restart events are about to respawn the same generation. */
  function BothRespawn(count: nat): State {
    State(Record(Stopping, None, false, None, false, true, 1, count + 2, true),
          map[2 := Respawning(1), 3 := Respawning(1)], 1, {0}, [1])
  }

  lemma ClearPart(cfg: Config, count: nat, before: seq<Step>) returns (steps: seq<Step>)
    requires cfg.watch && Run(cfg, Origin0(cfg, count), before) == Some(SecondCleaned(cfg, count))
    ensures Run(cfg, Origin0(cfg, count), steps) == Some(BothRespawn(count))
  {
    hide Run;
    var o, origin := SecondCleaned(cfg, count), Origin0(cfg, count);
    var a := o.(rec := o.rec.(restartCount := count + 1), tasks := map[2 := Respawning(1), 3 := o.tasks[3]]);
    Extend(cfg, origin, before, o, Conclude(2), a);
    steps := before + [Conclude(2)];
    Extend(cfg, origin, steps, a, Conclude(3), BothRespawn(count));
    steps := steps + [Conclude(3)];
  }

  /** The first respawn has its tree. */
  function SecondHeld(count: nat): State {
    State(Record(Starting, None, false, None, false, true, 2, count + 2, true),
          map[2 := Holding(2, Respawned(1), 1), 3 := Respawning(1)], 2, {0}, [1, 2])
  }

  lemma RespawnPart(cfg: Config, count: nat, before: seq<Step>) returns (steps: seq<Step>)
    requires cfg.watch && Run(cfg, Origin0(cfg, count), before) == Some(BothRespawn(count))
    ensures Run(cfg, Origin0(cfg, count), steps) == Some(SecondHeld(count))
  {
    hide Run;
    var o, origin := BothRespawn(count), Origin0(cfg, count);
    var a := State(SecondHeld(count).rec, map[2 := Preparing(2, Respawned(1)), 3 := Respawning(1)], 1, {0}, [1, 2]);
    Extend(cfg, origin, before, o, Respawn(2, true), a);
    steps := before + [Respawn(2, true)];
    Extend(cfg, origin, steps, a, Launch(2), SecondHeld(count));
    steps := steps + [Launch(2)];
  }

  /** The first respawn runs. */
  function SecondRuns(count: nat): State {
    State(Record(Watching, Some(1), true, Some(1), false, true, 2, count + 2, true),
          map[2 := Attached(2, Respawned(1), count + 2), 3 := Respawning(1)], 2, {0}, [1, 2])
  }

  lemma RecommitPart(cfg: Config, count: nat, before: seq<Step>) returns (steps: seq<Step>)
    requires cfg.watch && Run(cfg, Origin0(cfg, count), before) == Some(SecondHeld(count))
    ensures Run(cfg, Origin0(cfg, count), steps) == Some(SecondRuns(count))
  {
    hide Run;
    var o, origin := SecondHeld(count), Origin0(cfg, count);
    var shown := map[2 := Published(2, Respawned(1), 1), 3 := Respawning(1)];
    var a := o.(rec := o.rec.(pid := Some(1), identity := true), tasks := shown);
    Extend(cfg, origin, before, o, Expose(2), a);
    steps := before + [Expose(2)];
    Extend(cfg, origin, steps, a, Commit(2), SecondRuns(count));
    steps := steps + [Commit(2)];
  }

  /** The second respawn was refused, and its failure report dropped the tree of the first. */
  function TreeLost(count: nat): State {
    State(Record(Errored, None, false, None, false, false, 2, count + 2, true),
          map[2 := Attached(2, Respawned(1), count + 2)], 2, {0}, [1, 2])
  }

  lemma LosePart(cfg: Config, count: nat, before: seq<Step>) returns (steps: seq<Step>)
    requires cfg.watch && Run(cfg, Origin0(cfg, count), before) == Some(SecondRuns(count))
    ensures Run(cfg, Origin0(cfg, count), steps) == Some(TreeLost(count))
  {
    hide Run;
    var o, origin := SecondRuns(count), Origin0(cfg, count);
    var a := o.(tasks := map[2 := Attached(2, Respawned(1), count + 2), 3 := RespawnFailing(1, false)]);
    Extend(cfg, origin, before, o, Respawn(3, true), a);
    steps := before + [Respawn(3, true)];
    Extend(cfg, origin, steps, a, FailRespawn(3), TreeLost(count));
    steps := steps + [FailRespawn(3)];
  }

  /** Every watch-mode process can lose a live tree: nobody holds tree 1, and it is not dead. */
  lemma WatchModeLosesATree(cfg: Config, count: nat)
    requires cfg.watch
    ensures Reachable(cfg, TreeLost(count)) && !NoTreeLost(TreeLost(count))
  {
    hide Run;
    var steps := SpawnPart(cfg, count);
    steps := CommitPart(cfg, count, steps);
    steps := ChangePart(cfg, count, steps);
    steps := CleanPart(cfg, count, steps);
    steps := ExitPart(cfg, count, steps);
    steps := SecondPart(cfg, count, steps);
    steps := ClearPart(cfg, count, steps);
    steps := RespawnPart(cfg, count, steps);
    steps := RecommitPart(cfg, count, steps);
    steps := LosePart(cfg, count, steps);
    assert Run(cfg, Initial(cfg, AsStopped, true, count), steps) == Some(TreeLost(count));
    assert 1 < TreeLost(count).trees && !Held(TreeLost(count), 1);
  }

  /** Watch mode is exactly what decides whether live trees are safe. */
  lemma TreesAreSafeIffNotWatched(cfg: Config)
    ensures (forall s :: Reachable(cfg, s) ==> NoTreeLost(s)) <==> !cfg.watch
  {
    if cfg.watch {
      WatchModeLosesATree(cfg, 0);
    } else {
      forall s | Reachable(cfg, s) ensures NoTreeLost(s) {
        NothingIsLostWithoutWatch(cfg, s);
      }
    }
  }
}
