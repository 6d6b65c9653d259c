/** The crash-recoverable transaction over the state and project stores
    (src/config/state_transaction.rs). */
module StateTransaction {
  import opened Wrappers
  import opened FileStore

  /** A pair of documents, one of each store. */
  datatype Pair = Pair(state: Document, projects: Document)

  predicate ValidPair(pair: Pair) {
    Valid(StateStore, pair.state) && Valid(ProjectStore, pair.projects)
  }

  /** Both stores load, and this is what they load. */
  predicate Shows(disk: Disk, pair: Pair) {
    && LoadsFrom(disk, StateStore) == Some(pair.state)
    && LoadsFrom(disk, ProjectStore) == Some(pair.projects)
  }

  predicate Loadable(disk: Disk) {
    LoadsFrom(disk, StateStore).Some? && LoadsFrom(disk, ProjectStore).Some?
  }

  predicate Staged(disk: Disk, slot: Slot, pair: Pair) {
    && At(disk, Stage(slot, StateStore)) == Json(pair.state)
    && At(disk, Stage(slot, ProjectStore)) == Json(pair.projects)
  }

  function SlotOf(phase: Phase): Slot {
    if phase.CommitNext? then NextSlot else PreviousSlot
  }

  predicate MarkerIs(disk: Disk, phase: Phase) {
    At(disk, Marker) == Json(MarkerDoc(1, phase))
  }

  /** A completed recovery followed by a load yields exactly this pair. */
  predicate Settles(disk: Disk, pair: Pair) {
    && ValidPair(pair)
    && Loadable(disk)
    && (if At(disk, Marker).Absent? then Shows(disk, pair)
        else exists phase: Phase :: MarkerIs(disk, phase) && Staged(disk, SlotOf(phase), pair))
  }

  lemma SettlesOnOne(disk: Disk, a: Pair, b: Pair)
    requires Settles(disk, a) && Settles(disk, b)
    ensures a == b
  {
  }

  /** A turned marker stands for the next pair, an unturned one for the previous. */
  lemma MarkerDecides(disk: Disk, pair: Pair)
    requires Settles(disk, pair)
    ensures MarkerIs(disk, CommitNext) ==>
      && At(disk, Stage(NextSlot, StateStore)) == Json(pair.state)
      && At(disk, Stage(NextSlot, ProjectStore)) == Json(pair.projects)
    ensures MarkerIs(disk, RollBack) ==>
      && At(disk, Stage(PreviousSlot, StateStore)) == Json(pair.state)
      && At(disk, Stage(PreviousSlot, ProjectStore)) == Json(pair.projects)
    ensures At(disk, Marker).Absent? || MarkerIs(disk, CommitNext) || MarkerIs(disk, RollBack)
  {
    if !At(disk, Marker).Absent? {
      var phase :| MarkerIs(disk, phase) && Staged(disk, SlotOf(phase), pair);
      assert phase == CommitNext || phase == RollBack;
    }
  }

  /** No file that the transaction reads back differs, except those of one store. */
  ghost predicate OnlyStores(before: Disk, after: Disk) {
    forall p: Path :: !p.Primary? && !p.Backup? ==> At(after, p) == At(before, p)
  }

  ghost predicate SameStores(before: Disk, after: Disk) {
    forall p: Path :: p.Primary? || p.Backup? ==> At(after, p) == At(before, p)
  }

  // ---- The steps of the transaction ----

  /** Bring both primaries to the pair, one after the other. */
  method ApplyPair(fs: FileSystem, pair: Pair) returns (io: Io)
    requires ValidPair(pair)
    modifies fs
    ensures OnlyStores(old(fs.disk), fs.disk)
    ensures Loadable(old(fs.disk)) ==> Loadable(fs.disk)
    ensures io.Done? ==>
      && At(fs.disk, Primary(StateStore)) == Json(pair.state)
      && At(fs.disk, Primary(ProjectStore)) == Json(pair.projects)
      && Shows(fs.disk, pair)
    ensures fs.troubles >= old(fs.troubles)
    ensures Loadable(old(fs.disk)) ==> (io.Done? <==> fs.troubles == old(fs.troubles))
  {
    var state, projects := LoadsFrom(fs.disk, StateStore), LoadsFrom(fs.disk, ProjectStore);
    ghost var before := fs.disk;
    io := WriteJson(fs, StateStore, pair.state);
    if state.Some? {
      WriteIsAllOrNothing(StateStore, At(before, Primary(StateStore)), At(before, Backup(StateStore)), pair.state,
                          At(fs.disk, Primary(StateStore)), At(fs.disk, Backup(StateStore)));
    }
    if !io.Done? {
      return;
    }
    ghost var middle := fs.disk;
    io := WriteJson(fs, ProjectStore, pair.projects);
    if projects.Some? {
      WriteIsAllOrNothing(ProjectStore, At(middle, Primary(ProjectStore)), At(middle, Backup(ProjectStore)),
                          pair.projects, At(fs.disk, Primary(ProjectStore)), At(fs.disk, Backup(ProjectStore)));
    }
  }

  /** Copy one validated primary over its backup. */
  method RefreshBackup(fs: FileSystem, store: Store) returns (io: Io)
    modifies fs
    ensures Elsewhere(old(fs.disk), fs.disk, store)
    ensures At(fs.disk, Primary(store)) == At(old(fs.disk), Primary(store))
    ensures Good(store, At(fs.disk, Primary(store))) ==> LoadsFrom(fs.disk, store) == LoadsFrom(old(fs.disk), store)
    ensures !Good(store, At(old(fs.disk), Primary(store))) ==> io.Failed? && fs.disk == old(fs.disk)
    ensures io.Done? ==> At(fs.disk, Backup(store)) == At(fs.disk, Primary(store))
    ensures fs.troubles >= old(fs.troubles)
    ensures Good(store, At(old(fs.disk), Primary(store))) ==> (io.Done? <==> fs.troubles == old(fs.troubles))
  {
    var primary := At(fs.disk, Primary(store));
    if !Good(store, primary) {
      return Failed;
    }
    io := fs.WriteBare(Backup(store), primary);
  }

  method RefreshPairBackups(fs: FileSystem) returns (io: Io)
    requires Good(StateStore, At(fs.disk, Primary(StateStore)))
    requires Good(ProjectStore, At(fs.disk, Primary(ProjectStore)))
    modifies fs
    ensures OnlyStores(old(fs.disk), fs.disk)
    ensures forall store :: At(fs.disk, Primary(store)) == At(old(fs.disk), Primary(store))
    ensures forall store: Store :: !store.OffsetStore? ==> LoadsFrom(fs.disk, store) == LoadsFrom(old(fs.disk), store)
    ensures io.Done? ==>
      && At(fs.disk, Backup(StateStore)) == At(fs.disk, Primary(StateStore))
      && At(fs.disk, Backup(ProjectStore)) == At(fs.disk, Primary(ProjectStore))
    ensures fs.troubles >= old(fs.troubles) && (io.Done? <==> fs.troubles == old(fs.troubles))
  {
    io := RefreshBackup(fs, StateStore);
    if !io.Done? {
      return;
    }
    io := RefreshBackup(fs, ProjectStore);
  }

  /** Nothing is left of a transaction. */
  predicate NoTransaction(disk: Disk) {
    && At(disk, Marker).Absent? && At(disk, Retired).Absent?
    && At(disk, Stage(NextSlot, StateStore)).Absent? && At(disk, Stage(NextSlot, ProjectStore)).Absent?
    && At(disk, Stage(PreviousSlot, StateStore)).Absent? && At(disk, Stage(PreviousSlot, ProjectStore)).Absent?
  }

  /** Move the marker away, then delete the stages and the inert marker; only the move can
      fail the call. */
  method Cleanup(fs: FileSystem) returns (io: Io)
    modifies fs
    ensures SameStores(old(fs.disk), fs.disk)
    ensures At(fs.disk, Marker).Absent? || (forall p: Path :: !p.Retired? ==> At(fs.disk, p) == At(old(fs.disk), p))
    ensures io.Done? ==> At(fs.disk, Marker).Absent?
    ensures fs.troubles >= old(fs.troubles)
    ensures fs.troubles == old(fs.troubles) ==> io.Done? && NoTransaction(fs.disk)
  {
    if !At(fs.disk, Marker).Absent? {
      io := fs.Rename(Marker, Retired);
      if !io.Done? {
        return;
      }
    }
    var stages := [Stage(NextSlot, StateStore), Stage(NextSlot, ProjectStore),
                   Stage(PreviousSlot, StateStore), Stage(PreviousSlot, ProjectStore), Retired];
    for i := 0 to |stages|
      invariant SameStores(old(fs.disk), fs.disk) && At(fs.disk, Marker).Absent?
      invariant fs.troubles >= old(fs.troubles)
      invariant fs.troubles == old(fs.troubles) ==> forall j :: 0 <= j < i ==> At(fs.disk, stages[j]).Absent?
    {
      io := fs.Remove(stages[i]);
      if io.Crashed? {
        return;
      }
    }
    assert fs.troubles == old(fs.troubles) ==>
      At(fs.disk, stages[0]).Absent? && At(fs.disk, stages[1]).Absent? && At(fs.disk, stages[2]).Absent?
      && At(fs.disk, stages[3]).Absent? && At(fs.disk, stages[4]).Absent?;
    return Done;
  }

  datatype Recovery = Idle | Recovered | Broken | Interrupted

  /** recover_paths: finish whatever the active marker asks for. */
  method RecoverPaths(fs: FileSystem, ghost pair: Pair) returns (r: Recovery)
    requires Settles(fs.disk, pair)
    modifies fs
    ensures Settles(fs.disk, pair)
    ensures r.Idle? <==> At(old(fs.disk), Marker).Absent?
    ensures r.Idle? ==> fs.disk == old(fs.disk)
    ensures r.Idle? || r.Recovered? ==> At(fs.disk, Marker).Absent? && Shows(fs.disk, pair)
    ensures r.Recovered? ==>
      && At(fs.disk, Primary(StateStore)) == Json(pair.state)
      && At(fs.disk, Primary(ProjectStore)) == Json(pair.projects)
    ensures r.Recovered? && MarkerIs(old(fs.disk), RollBack) ==>
      && At(fs.disk, Backup(StateStore)) == Json(pair.state)
      && At(fs.disk, Backup(ProjectStore)) == Json(pair.projects)
    ensures fs.troubles >= old(fs.troubles)
    ensures fs.troubles == old(fs.troubles) ==> r.Idle? || (r.Recovered? && NoTransaction(fs.disk))
  {
    var marker := At(fs.disk, Marker);
    if marker.Absent? {
      return Idle;
    }
    if !marker.Json? || !marker.doc.MarkerDoc? || marker.doc.version != 1 {
      return Broken;
    }
    var slot := SlotOf(marker.doc.phase);
    var state, projects := At(fs.disk, Stage(slot, StateStore)), At(fs.disk, Stage(slot, ProjectStore));
    if !Good(StateStore, state) || !Good(ProjectStore, projects) {
      return Broken;
    }
    var io := ApplyPair(fs, Pair(state.doc, projects.doc));
    assert MarkerIs(fs.disk, marker.doc.phase) && Staged(fs.disk, slot, pair);
    if !io.Done? {
      return if io.Crashed? then Interrupted else Broken;
    }
    if marker.doc.phase.RollBack? {
      io := RefreshPairBackups(fs);
      assert MarkerIs(fs.disk, marker.doc.phase) && Staged(fs.disk, slot, pair);
      if !io.Done? {
        return if io.Crashed? then Interrupted else Broken;
      }
    }
    io := Cleanup(fs);
    if At(fs.disk, Marker).Absent? {
      assert Shows(fs.disk, pair);
    } else {
      assert MarkerIs(fs.disk, marker.doc.phase) && Staged(fs.disk, slot, pair);
    }
    if !io.Done? {
      return if io.Crashed? then Interrupted else Broken;
    }
    return Recovered;
  }

  // ---- Commit ----

  /** Write the four stages. */
  method WriteStages(fs: FileSystem, previous: Pair, next: Pair) returns (io: Io)
    modifies fs
    ensures forall p: Path :: !p.Stage? ==> At(fs.disk, p) == At(old(fs.disk), p)
    ensures io.Done? ==> Staged(fs.disk, PreviousSlot, previous) && Staged(fs.disk, NextSlot, next)
    ensures fs.troubles >= old(fs.troubles) && (io.Done? <==> fs.troubles == old(fs.troubles))
  {
    io := fs.WriteBare(Stage(PreviousSlot, StateStore), Json(previous.state));
    if !io.Done? {
      return;
    }
    io := fs.WriteBare(Stage(PreviousSlot, ProjectStore), Json(previous.projects));
    if !io.Done? {
      return;
    }
    io := fs.WriteBare(Stage(NextSlot, StateStore), Json(next.state));
    if !io.Done? {
      return;
    }
    io := fs.WriteBare(Stage(NextSlot, ProjectStore), Json(next.projects));
  }

  /** Write the four stages and then the rollback marker. */
  method Prepare(fs: FileSystem, previous: Pair, next: Pair) returns (io: Io)
    requires ValidPair(previous) && ValidPair(next)
    requires Shows(fs.disk, previous) && At(fs.disk, Marker).Absent?
    modifies fs
    ensures SameStores(old(fs.disk), fs.disk)
    ensures Settles(fs.disk, previous)
    ensures io.Done? ==>
      MarkerIs(fs.disk, RollBack) && Staged(fs.disk, PreviousSlot, previous) && Staged(fs.disk, NextSlot, next)
    ensures fs.troubles >= old(fs.troubles) && (io.Done? <==> fs.troubles == old(fs.troubles))
  {
    io := WriteStages(fs, previous, next);
    if !io.Done? {
      return;
    }
    ghost var staged := fs.disk;
    io := fs.WriteBare(Marker, Json(MarkerDoc(1, RollBack)));
    assert Staged(fs.disk, PreviousSlot, previous) && Staged(fs.disk, NextSlot, next);
    if fs.disk != staged {
      assert MarkerIs(fs.disk, RollBack);
    }
  }

  /** The previous pair is back in all four files, and nothing is left of the transaction. */
  predicate RolledBack(disk: Disk, previous: Pair) {
    && NoTransaction(disk) && Shows(disk, previous)
    && At(disk, Primary(StateStore)) == At(disk, Backup(StateStore)) == Json(previous.state)
    && At(disk, Primary(ProjectStore)) == At(disk, Backup(ProjectStore)) == Json(previous.projects)
  }

  /** Compensate a failed commit: write the previous pair back, align the backups, clean up.
      The call reports the failure of the commit in every case. */
  method Compensate(fs: FileSystem, previous: Pair, ghost next: Pair) returns (io: Io)
    requires ValidPair(previous) && ValidPair(next) && Loadable(fs.disk)
    requires Staged(fs.disk, PreviousSlot, previous) && Staged(fs.disk, NextSlot, next)
    requires MarkerIs(fs.disk, RollBack) || MarkerIs(fs.disk, CommitNext)
    modifies fs
    ensures Settles(fs.disk, previous) || Settles(fs.disk, next)
    ensures MarkerIs(old(fs.disk), RollBack) ==> Settles(fs.disk, previous)
    ensures !io.Done?
    ensures fs.troubles >= old(fs.troubles)
    ensures fs.troubles == old(fs.troubles) ==> RolledBack(fs.disk, previous) && io.Failed?
    ensures MarkerIs(fs.disk, CommitNext) ==> Settles(fs.disk, next)
    ensures MarkerIs(fs.disk, RollBack) ==> Settles(fs.disk, previous)
  {
    io := ApplyPair(fs, previous);
    assert Pending(fs.disk, previous, next, At(old(fs.disk), Marker));
    if !io.Done? {
      return;
    }
    io := RefreshPairBackups(fs);
    assert Pending(fs.disk, previous, next, At(old(fs.disk), Marker));
    if !io.Done? {
      return;
    }
    io := Cleanup(fs);
    if At(fs.disk, Marker).Absent? {
      assert Shows(fs.disk, previous);
    } else {
      assert Pending(fs.disk, previous, next, At(old(fs.disk), Marker));
    }
    io := if io.Crashed? then Crashed else Failed;
  }

  /** A transaction whose marker is active: the stages are in place, so recovery is decided. */
  predicate Pending(disk: Disk, previous: Pair, next: Pair, marker: File) {
    && At(disk, Marker) == marker
    && (MarkerIs(disk, RollBack) || MarkerIs(disk, CommitNext))
    && Staged(disk, PreviousSlot, previous) && Staged(disk, NextSlot, next)
    && (if MarkerIs(disk, RollBack)
        then Staged(disk, SlotOf(RollBack), previous)
        else Staged(disk, SlotOf(CommitNext), next))
    && Loadable(disk)
  }

  /** Preparing failed: the error of the cleanup itself is ignored. */
  method Abandon(fs: FileSystem, ghost previous: Pair) returns (io: Io)
    requires Settles(fs.disk, previous) && Shows(fs.disk, previous)
    modifies fs
    ensures Settles(fs.disk, previous)
    ensures !io.Done?
    ensures fs.troubles >= old(fs.troubles)
    ensures fs.troubles == old(fs.troubles) ==> io.Failed? && NoTransaction(fs.disk) && Shows(fs.disk, previous)
  {
    ghost var before := fs.disk;
    io := Cleanup(fs);
    if !At(fs.disk, Marker).Absent? {
      ghost var phase :| MarkerIs(before, phase) && Staged(before, SlotOf(phase), previous);
      assert MarkerIs(fs.disk, phase) && Staged(fs.disk, SlotOf(phase), previous);
    }
    io := if io.Crashed? then Crashed else Failed;
  }

  /** The prepared transaction: apply, turn the marker forward, clean up. */
  method Execute(fs: FileSystem, previous: Pair, next: Pair) returns (io: Io)
    requires ValidPair(previous) && ValidPair(next) && Loadable(fs.disk)
    requires Staged(fs.disk, PreviousSlot, previous) && Staged(fs.disk, NextSlot, next) && MarkerIs(fs.disk, RollBack)
    modifies fs
    ensures Settles(fs.disk, previous) || Settles(fs.disk, next)
    ensures io.Done? ==>
      && Settles(fs.disk, next) && At(fs.disk, Marker).Absent?
      && At(fs.disk, Primary(StateStore)) == Json(next.state)
      && At(fs.disk, Primary(ProjectStore)) == Json(next.projects)
    ensures fs.troubles >= old(fs.troubles)
    ensures fs.troubles == old(fs.troubles) ==> io.Done? && NoTransaction(fs.disk)
    ensures fs.troubles == old(fs.troubles) + 1 && io.Failed? ==>
      RolledBack(fs.disk, previous) || Settles(fs.disk, next)
    ensures MarkerIs(fs.disk, CommitNext) ==> Settles(fs.disk, next)
    ensures MarkerIs(fs.disk, RollBack) ==> Settles(fs.disk, previous)
  {
    io := ApplyPair(fs, next);
    assert Pending(fs.disk, previous, next, Json(MarkerDoc(1, RollBack)));
    if io.Crashed? {
      return;
    }
    if io.Failed? {
      io := Compensate(fs, previous, next);
      return;
    }
    io := fs.WriteBare(Marker, Json(MarkerDoc(1, CommitNext)));
    assert Pending(fs.disk, previous, next, At(fs.disk, Marker));
    if io.Crashed? {
      return;
    }
    if io.Failed? {
      io := Compensate(fs, previous, next);
      return;
    }
    io := Cleanup(fs);
    if At(fs.disk, Marker).Absent? {
      assert Shows(fs.disk, next);
    } else {
      assert Pending(fs.disk, previous, next, Json(MarkerDoc(1, CommitNext)));
    }
  }

  /** Commit both stores together. Whatever fails and wherever the machine stops, a later
      recovery and load yield exactly the previous or exactly the next pair; a commit that
      returns Ok has installed the next one. */
  method Commit(fs: FileSystem, next: Pair, ghost previous: Pair) returns (io: Io)
    requires Settles(fs.disk, previous)
    modifies fs
    ensures Settles(fs.disk, previous) || (ValidPair(next) && Settles(fs.disk, next))
    ensures !ValidPair(next) ==> io.Failed? && fs.disk == old(fs.disk)
    ensures io.Done? ==>
      && Settles(fs.disk, next) && At(fs.disk, Marker).Absent?
      && At(fs.disk, Primary(StateStore)) == Json(next.state)
      && At(fs.disk, Primary(ProjectStore)) == Json(next.projects)
    ensures fs.troubles >= old(fs.troubles)
    ensures ValidPair(next) && fs.troubles == old(fs.troubles) ==> io.Done? && NoTransaction(fs.disk)
    ensures At(old(fs.disk), Marker).Absent? && fs.troubles == old(fs.troubles) + 1 && io.Failed? && ValidPair(next) ==>
      (NoTransaction(fs.disk) && Shows(fs.disk, previous)) || Settles(fs.disk, next)
  {
    if !ValidPair(next) {
      return Failed;
    }
    if !At(fs.disk, Marker).Absent? {
      var recovery := RecoverPaths(fs, previous);
      if !recovery.Idle? && !recovery.Recovered? {
        return if recovery.Interrupted? then Crashed else Failed;
      }
    }
    var state := Load(fs, StateStore);
    if !state.Document? {
      return if state.LoadCrash? then Crashed else Failed;
    }
    var projects := Load(fs, ProjectStore);
    if !projects.Document? {
      return if projects.LoadCrash? then Crashed else Failed;
    }
    var found := Pair(state.doc, projects.doc);
    assert found == previous;

    io := Prepare(fs, found, next);
    if io.Crashed? {
      return;
    }
    if io.Failed? {
      io := Abandon(fs, previous);
      return;
    }
    io := Execute(fs, found, next);
  }

  /** Start-up: finish a pending transaction, then load both stores. */
  method Reopen(fs: FileSystem, ghost pair: Pair) returns (found: Option<Pair>)
    requires Settles(fs.disk, pair)
    modifies fs
    ensures Settles(fs.disk, pair)
    ensures found.Some? ==> found.value == pair && At(fs.disk, Marker).Absent?
    ensures fs.troubles >= old(fs.troubles)
    ensures fs.troubles == old(fs.troubles) ==> found.Some?
  {
    var recovery := RecoverPaths(fs, pair);
    if !recovery.Idle? && !recovery.Recovered? {
      return None;
    }
    var state := Load(fs, StateStore);
    if !state.Document? {
      return None;
    }
    var projects := Load(fs, ProjectStore);
    if !projects.Document? {
      return None;
    }
    return Some(Pair(state.doc, projects.doc));
  }

  /** A life of the two stores: any commits, each of which may fail or stop the machine, and
      after each any number of interrupted restarts. What a restart finds is always one of
      the pairs ever handed to a commit, and the last one if that commit returned Ok. */
  method Lifetime(fs: FileSystem, requests: seq<Pair>, restarts: seq<nat>, ghost first: Pair)
    returns (last: Io, ghost settled: Pair)
    requires Settles(fs.disk, first) && |restarts| == |requests|
    modifies fs
    ensures Settles(fs.disk, settled)
    ensures settled == first || settled in requests
    ensures requests != [] && last.Done? ==> settled == requests[|requests| - 1]
    ensures requests != [] && ValidPair(requests[|requests| - 1]) && fs.troubles == old(fs.troubles) ==> last.Done?
  {
    settled, last := first, Done;
    for i := 0 to |requests|
      invariant Settles(fs.disk, settled)
      invariant settled == first || settled in requests[..i]
      invariant i > 0 && last.Done? ==> settled == requests[i - 1]
      invariant fs.troubles >= old(fs.troubles)
      invariant i > 0 && ValidPair(requests[i - 1]) && fs.troubles == old(fs.troubles) ==> last.Done?
    {
      last := Commit(fs, requests[i], settled);
      if ValidPair(requests[i]) && Settles(fs.disk, requests[i]) {
        settled := requests[i];
      }
      for j := 0 to restarts[i]
        invariant Settles(fs.disk, settled) && fs.troubles >= old(fs.troubles)
        invariant ValidPair(requests[i]) && fs.troubles == old(fs.troubles) ==> last.Done?
      {
        var found := Reopen(fs, settled);
      }
    }
  }
}
