/** The file system under the configuration stores, and the last-known-good document store
    on top of it (src/config/atomic_file.rs).

    Replacing, renaming or removing one file is atomic. Each of them may succeed, may report
    a failure with or without having taken effect, and the machine may stop just before or
    just after it took effect: the result `Crashed` ends every method above it at once. */
module FileStore {
  import opened Wrappers

  // ---- Documents ----

  /** `accepted` stands for the per-application checks of the configuration and identity. */
  datatype SavedApp = SavedApp(id: int, accepted: bool)

  datatype SavedState = SavedState(schemaVersion: int, apps: seq<SavedApp>)

  datatype ProjectRecord = ProjectRecord(id: int, accepted: bool)

  datatype Projects = Projects(projects: map<int, ProjectRecord>)

  datatype Checkpoint = Checkpoint(fingerprint: string, nextUpdateId: int)

  datatype Phase = CommitNext | RollBack

  datatype Document =
    | StateDoc(state: SavedState)
    | ProjectsDoc(projects: Projects)
    | OffsetDoc(checkpoint: Checkpoint)
    | MarkerDoc(version: int, phase: Phase)

  datatype Store = StateStore | ProjectStore | OffsetStore

  predicate ValidState(s: SavedState) {
    && s.schemaVersion == 1
    && |s.apps| <= 1_000
    && (forall i, j :: 0 <= i < j < |s.apps| ==> s.apps[i].id != s.apps[j].id)
    && (forall i :: 0 <= i < |s.apps| ==> s.apps[i].accepted)
  }

  predicate ValidProjects(p: Projects) {
    && |p.projects| <= 1_000
    && (forall key :: key in p.projects ==> p.projects[key].id == key && p.projects[key].accepted)
  }

  predicate LowercaseHex(c: char) {
    '0' <= c <= '9' || 'a' <= c <= 'f'
  }

  predicate ValidCheckpoint(c: Checkpoint) {
    && (if c.fingerprint == ""
        then c.nextUpdateId == 0
        else |c.fingerprint| == 64 && forall i :: 0 <= i < 64 ==> LowercaseHex(c.fingerprint[i]))
    && c.nextUpdateId >= 0
  }

  /** The document has the type of the store and passes its semantic validation. */
  predicate Valid(store: Store, doc: Document) {
    match store
    case StateStore => doc.StateDoc? && ValidState(doc.state)
    case ProjectStore => doc.ProjectsDoc? && ValidProjects(doc.projects)
    case OffsetStore => doc.OffsetDoc? && ValidCheckpoint(doc.checkpoint)
  }

  /** Applications and projects are checked one by one and for distinct IDs, and there may be a
      thousand of each. */
  lemma OneMoreIsValid(state: SavedState, app: SavedApp, projects: Projects, key: int, project: ProjectRecord)
    requires ValidState(state) && ValidProjects(projects) && key !in projects.projects
    ensures ValidState(state.(apps := state.apps + [app])) <==>
      && |state.apps| < 1_000 && app.accepted
      && forall i :: 0 <= i < |state.apps| ==> state.apps[i].id != app.id
    ensures ValidProjects(Projects(projects.projects[key := project])) <==>
      |projects.projects| < 1_000 && project.accepted && project.id == key
    ensures ValidState(SavedState(1, [])) && ValidProjects(Projects(map[]))
  {
    var more := state.(apps := state.apps + [app]);
    assert more.apps[|state.apps|] == app;
    assert forall i :: 0 <= i < |state.apps| ==> more.apps[i] == state.apps[i];
    var all := projects.projects[key := project];
    assert all[key] == project;
  }

  function Default(store: Store): (doc: Document)
    ensures Valid(store, doc)
  {
    match store
    case StateStore => StateDoc(SavedState(1, []))
    case ProjectStore => ProjectsDoc(Projects(map[]))
    case OffsetStore => OffsetDoc(Checkpoint("", 0))
  }

  // ---- Files ----

  /** `Corrupt` is a file that cannot be read or does not parse. */
  datatype File = Absent | Corrupt | Json(doc: Document)

  datatype Slot = NextSlot | PreviousSlot

  datatype Path = Primary(store: Store) | Backup(of: Store) | Stage(slot: Slot, staged: Store) | Marker | Retired

  type Disk = map<Path, File>

  function At(disk: Disk, path: Path): File {
    if path in disk then disk[path] else Absent
  }

  /** Nothing but the one path may have changed, and to nothing but the one file. */
  ghost predicate MayPut(before: Disk, after: Disk, path: Path, file: File) {
    && (forall p :: p != path ==> At(after, p) == At(before, p))
    && (At(after, path) == At(before, path) || At(after, path) == file)
  }

  predicate Good(store: Store, file: File) {
    file.Json? && Valid(store, file.doc)
  }

  datatype Io = Done | Failed | Crashed

  /** `troubles` counts what has gone wrong: operations that failed or were cut short by a
      stop of the machine, read-backs that differed, documents that could not be encoded. The
      claims about success are made in its terms: without trouble every operation succeeds. */
  class FileSystem {
    var disk: Disk
    ghost var troubles: nat
    ghost var misreads: nat   // those of them that were read-backs

    constructor (disk: Disk)
      ensures this.disk == disk
    {
      this.disk := disk;
    }

    /** The outcome of one step that may go wrong. */
    method Chance() returns (io: Io)
      modifies this`troubles
      ensures troubles == if io.Done? then old(troubles) else old(troubles) + 1
    {
      io := *;
      if !io.Done? {
        troubles := troubles + 1;
      }
    }

    /** Something that may turn out not to be the case. */
    method Check() returns (ok: bool)
      modifies this`troubles
      ensures troubles == if ok then old(troubles) else old(troubles) + 1
    {
      ok := *;
      if !ok {
        troubles := troubles + 1;
      }
    }

    /** Read the file back and compare. */
    method Verify() returns (ok: bool)
      modifies this`troubles, this`misreads
      ensures troubles == if ok then old(troubles) else old(troubles) + 1
      ensures misreads == if ok then old(misreads) else old(misreads) + 1
    {
      ok := Check();
      if !ok {
        misreads := misreads + 1;
      }
    }

    /** Write a unique temporary file and rename it over the path. */
    method Replace(path: Path, file: File) returns (io: Io)
      modifies this`disk, this`troubles
      ensures disk == old(disk) || disk == old(disk)[path := file]
      ensures io.Done? ==> disk == old(disk)[path := file]
      ensures MayPut(old(disk), disk, path, file) && (io.Done? ==> At(disk, path) == file)
      ensures troubles == if io.Done? then old(troubles) else old(troubles) + 1
    {
      io := Chance();
      var effective: bool := *;
      if io.Done? || effective {
        disk := disk[path := file];
      }
    }

    method Rename(source: Path, destination: Path) returns (io: Io)
      modifies this
      ensures disk == old(disk) || disk == old(disk)[destination := At(old(disk), source)] - {source}
      ensures io.Done? ==> disk == old(disk)[destination := At(old(disk), source)] - {source}
      ensures troubles == if io.Done? then old(troubles) else old(troubles) + 1
    {
      io := Chance();
      var effective: bool := *;
      if io.Done? || effective {
        disk := disk[destination := At(disk, source)] - {source};
      }
    }

    method Remove(path: Path) returns (io: Io)
      modifies this
      ensures disk == old(disk) || disk == old(disk) - {path}
      ensures io.Done? ==> disk == old(disk) - {path}
      ensures troubles == if io.Done? then old(troubles) else old(troubles) + 1
    {
      io := Chance();
      var effective: bool := *;
      if io.Done? || effective {
        disk := disk - {path};
      }
    }

    /** write_with_backup without a recovery copy: replace, then read back. */
    method WriteBare(path: Path, file: File) returns (io: Io)
      modifies this
      ensures disk == old(disk) || disk == old(disk)[path := file]
      ensures io.Done? ==> disk == old(disk)[path := file]
      ensures troubles == if io.Done? then old(troubles) else old(troubles) + 1
    {
      io := Replace(path, file);
      if io.Done? {
        var verified := Verify();
        io := if verified then Done else Failed;
      }
    }

    /** write_with_backup with a recovery copy, which is committed first and put back over
        the primary when the read-back fails. */
    method WriteWithBackup(path: Path, file: File, backup: Path, previous: File) returns (io: Io)
      requires path != backup
      modifies this
      ensures forall p :: p != path && p != backup ==> At(disk, p) == At(old(disk), p)
      ensures At(disk, backup) == previous
        || (At(disk, backup) == At(old(disk), backup) && At(disk, path) == At(old(disk), path))
      ensures At(disk, path) == At(old(disk), path) || At(disk, path) == file || At(disk, path) == previous
      ensures At(disk, path) == file || io != Done
      ensures io.Done? ==> At(disk, backup) == previous
      ensures troubles >= old(troubles) && (io.Done? <==> troubles == old(troubles))
      ensures misreads > old(misreads) && troubles == old(troubles) + 1 ==>
        At(disk, path) == previous && At(disk, backup) == previous
    {
      hide At;
      io := Replace(backup, previous);
      if !io.Done? {
        return;
      }
      io := Replace(path, file);
      if !io.Done? {
        return;
      }
      var verified := Verify();
      if !verified {
        var readable := Check();
        if readable {
          io := Replace(path, At(disk, backup));
          if io.Crashed? {
            return;
          }
        }
        return Failed;
      }
    }
  }

  // ---- Loading ----

  /** What a load of the two files returns; None is an error. */
  function Loads(store: Store, primary: File, backup: File): Option<Document> {
    if Good(store, primary) then Some(primary.doc)
    else if Good(store, backup) then Some(backup.doc)
    else if primary.Absent? && backup.Absent? then Some(Default(store))
    else None
  }

  function LoadsFrom(disk: Disk, store: Store): Option<Document> {
    Loads(store, At(disk, Primary(store)), At(disk, Backup(store)))
  }

  /** Everything but the two files of this store is untouched. */
  ghost predicate Elsewhere(before: Disk, after: Disk, store: Store) {
    forall p :: p != Primary(store) && p != Backup(store) ==> At(after, p) == At(before, p)
  }

  datatype Loaded = Document(doc: Document) | LoadError | LoadCrash

  /** load_json_with_backup_validated: the first candidate that parses and validates. A
      missing or invalid backup of a valid primary is repaired on the way. */
  method Load(fs: FileSystem, store: Store) returns (r: Loaded)
    modifies fs
    ensures Elsewhere(old(fs.disk), fs.disk, store)
    ensures At(fs.disk, Primary(store)) == At(old(fs.disk), Primary(store))
    ensures At(fs.disk, Backup(store)) == At(old(fs.disk), Backup(store))
      || (Good(store, At(fs.disk, Primary(store))) && !Good(store, At(old(fs.disk), Backup(store)))
          && At(fs.disk, Backup(store)) == At(fs.disk, Primary(store)))
    ensures LoadsFrom(fs.disk, store) == LoadsFrom(old(fs.disk), store)
    ensures match r
      case Document(doc) => LoadsFrom(old(fs.disk), store) == Some(doc)
      case LoadError => LoadsFrom(old(fs.disk), store) == None
      case LoadCrash => true
    ensures r.Document? ==> Valid(store, r.doc)
    ensures fs.troubles >= old(fs.troubles) && (r.LoadCrash? ==> fs.troubles > old(fs.troubles))
    ensures fs.troubles == old(fs.troubles) && Good(store, At(fs.disk, Primary(store))) ==>
      Good(store, At(fs.disk, Backup(store)))
  {
    var primary := At(fs.disk, Primary(store));
    var backup := At(fs.disk, Backup(store));
    if Good(store, primary) {
      if !Good(store, backup) {
        var io := fs.WriteBare(Backup(store), primary);
        if io.Crashed? {
          return LoadCrash;
        }
      }
      return Document(primary.doc);
    }
    if primary.Absent? && backup.Absent? {
      return Document(Default(store));
    }
    if Good(store, backup) {
      return Document(backup.doc);
    }
    return LoadError;
  }

  // ---- Writing ----

  /** read_validated_candidate. */
  datatype Candidate = Found | Missing | Rejected

  function Examine(store: Store, file: File): Candidate {
    match file
    case Absent => Missing
    case Corrupt => Rejected
    case Json(doc) => if Valid(store, doc) then Found else Rejected
  }

  /** What the writer decides from the two existing files. */
  datatype Basis = Keep(previous: File) | Begin | Refuse

  function BasisOf(store: Store, primary: File, backup: File): Basis {
    match (Examine(store, primary), Examine(store, backup))
    case (Found, _) => Keep(primary)
    case (_, Found) => Keep(backup)
    case (Missing, Missing) => Begin
    case (_, _) => Refuse
  }

  /** The writer refuses existing files exactly when the loader would fail on them. */
  lemma WriterRefusesIffLoaderFails(store: Store, primary: File, backup: File)
    ensures BasisOf(store, primary, backup).Refuse? <==> Loads(store, primary, backup).None?
    ensures BasisOf(store, primary, backup).Keep? ==>
      Loads(store, primary, backup) == Loads(store, BasisOf(store, primary, backup).previous, Absent)
  {
  }

  /** The last-known-good copy a write keeps: the primary if it is good, else the backup. */
  function Previous(store: Store, primary: File, backup: File): File {
    if Good(store, primary) then primary else if Good(store, backup) then backup else Absent
  }

  function Secured(store: Store, primary: File, backup: File): File {
    if Previous(store, primary, backup).Absent? then backup else Previous(store, primary, backup)
  }

  /** The pairs of files a write may leave behind, at whatever point it ended. */
  predicate WriteLeaves(store: Store, primary: File, backup: File, value: Document, primary': File, backup': File) {
    var previous := Previous(store, primary, backup);
    var secured := Secured(store, primary, backup);
    || (primary' == primary && backup' == backup)
    || (primary' == primary && backup' == secured)
    || (primary' == Json(value) && backup' == secured)
    || (!previous.Absent? && primary' == previous && backup' == secured)
    || (!Good(store, primary) && !previous.Absent? && primary' == Json(value) && backup' == Json(value))
  }

  /** The pair of files a completed write leaves behind. */
  function Written(store: Store, primary: File, backup: File, value: Document): (File, File) {
    (Json(value),
     if !Good(store, primary) && Good(store, backup) then Json(value) else Secured(store, primary, backup))
  }

  /** write_json_with_backup_validated. The value may also fail to serialise or be too large. */
  method WriteJson(fs: FileSystem, store: Store, value: Document) returns (io: Io)
    modifies fs
    ensures Elsewhere(old(fs.disk), fs.disk, store)
    ensures !Valid(store, value) || LoadsFrom(old(fs.disk), store).None? ==> io.Failed? && fs.disk == old(fs.disk)
    ensures WriteLeaves(store, At(old(fs.disk), Primary(store)), At(old(fs.disk), Backup(store)), value,
                        At(fs.disk, Primary(store)), At(fs.disk, Backup(store)))
    ensures io.Done? ==> (At(fs.disk, Primary(store)), At(fs.disk, Backup(store)))
                         == Written(store, At(old(fs.disk), Primary(store)), At(old(fs.disk), Backup(store)), value)
    ensures fs.troubles >= old(fs.troubles)
    ensures Valid(store, value) && LoadsFrom(old(fs.disk), store).Some? ==>
      (io.Done? <==> fs.troubles == old(fs.troubles))
  {
    if !Valid(store, value) {
      return Failed;
    }
    var encodes := fs.Check();
    if !encodes {
      return Failed;
    }
    var primary := At(fs.disk, Primary(store));
    var backup := At(fs.disk, Backup(store));
    var recovering := !Examine(store, primary).Found? && Examine(store, backup).Found?;
    match BasisOf(store, primary, backup) {
      case Refuse => return Failed;
      case Begin => io := fs.WriteBare(Primary(store), Json(value));
      case Keep(previous) => io := fs.WriteWithBackup(Primary(store), Json(value), Backup(store), previous);
    }
    if io.Done? && recovering {
      io := fs.WriteBare(Backup(store), Json(value));
    }
  }

  /** The writer refuses exactly when the loader fails; otherwise, wherever the write ended,
      a load returns the old or the new document, and the store stays loadable. */
  lemma WriteIsAllOrNothing(store: Store, primary: File, backup: File, value: Document, primary': File, backup': File)
    requires Valid(store, value) && Loads(store, primary, backup).Some?
    requires WriteLeaves(store, primary, backup, value, primary', backup')
    ensures Loads(store, primary', backup') == Loads(store, primary, backup)
      || Loads(store, primary', backup') == Some(value)
  {
  }

  lemma CompletedWriteLoads(store: Store, primary: File, backup: File, value: Document)
    requires Valid(store, value)
    ensures var (primary', backup') := Written(store, primary, backup, value);
      Loads(store, primary', backup') == Some(value)
  {
  }

  /** A store without files starts out empty, and its first write leaves a primary only. */
  lemma NewStoreIsEmpty(store: Store, value: Document)
    requires Valid(store, value)
    ensures Loads(StateStore, Absent, Absent) == Some(StateDoc(SavedState(1, [])))
    ensures Loads(ProjectStore, Absent, Absent) == Some(ProjectsDoc(Projects(map[])))
    ensures Loads(OffsetStore, Absent, Absent) == Some(OffsetDoc(Checkpoint("", 0)))
    ensures Written(store, Absent, Absent, value) == (Json(value), Absent)
  {
  }

  // ---- Runs of a store ----

  /** What can happen to the two files between two observations. */
  datatype Event =
    | Complete(value: Document)                     // a write that returned Ok
    | Attempt(value: Document, primary: File, backup: File)   // any write, as it left the files
    | Repair(done: bool)                            // a load
    | Damage(file: File)                            // the primary became unusable

  predicate Possible(store: Store, primary: File, backup: File, e: Event) {
    match e
    case Complete(value) => Valid(store, value) && Loads(store, primary, backup).Some?
    case Attempt(value, primary', backup') =>
      && Valid(store, value) && Loads(store, primary, backup).Some?
      && WriteLeaves(store, primary, backup, value, primary', backup')
    case Repair(_) => true
    case Damage(file) => !Good(store, file)
  }

  function After(store: Store, primary: File, backup: File, e: Event): (File, File) {
    match e
    case Complete(value) => Written(store, primary, backup, value)
    case Attempt(_, primary', backup') => (primary', backup')
    case Repair(done) => (primary, if done && Good(store, primary) && !Good(store, backup) then primary else backup)
    case Damage(file) => (file, backup)
  }

  /** The write got as far as installing its value. */
  predicate Installs(primary: File, backup: File, e: Event) {
    match e
    case Complete(_) => true
    case Attempt(value, primary', backup') =>
      primary' == Json(value) && (primary' != primary || backup' != backup)
    case _ => false
  }

  function Recorded(primary: File, backup: File, written: seq<Document>, e: Event): seq<Document> {
    if Installs(primary, backup, e) then written + [e.value] else written
  }

  /** The written values, oldest first, after a run. */
  function History(store: Store, primary: File, backup: File, written: seq<Document>, events: seq<Event>): seq<Document>
    decreases |events|
  {
    if events == [] then written
    else
      var (p, b) := After(store, primary, backup, events[0]);
      History(store, p, b, Recorded(primary, backup, written, events[0]), events[1..])
  }

  function Final(store: Store, primary: File, backup: File, events: seq<Event>): (File, File)
    decreases |events|
  {
    if events == [] then (primary, backup)
    else
      var (p, b) := After(store, primary, backup, events[0]);
      Final(store, p, b, events[1..])
  }

  predicate PossibleRun(store: Store, primary: File, backup: File, events: seq<Event>)
    decreases |events|
  {
    events == [] || (
      && Possible(store, primary, backup, events[0])
      && var (p, b) := After(store, primary, backup, events[0]);
         PossibleRun(store, p, b, events[1..]))
  }

  /** The backup holds one of the last two values written, the primary the last one or nothing. */
  predicate LastKnownGood(store: Store, primary: File, backup: File, written: seq<Document>) {
    && Good(store, backup)
    && |written| > 0
    && (Good(store, primary) ==> primary.doc == written[|written| - 1])
    && (backup.doc == written[|written| - 1] || (|written| > 1 && backup.doc == written[|written| - 2]))
  }

  predicate LoadsOneOfLastTwo(store: Store, primary: File, backup: File, written: seq<Document>)
    requires |written| > 0
  {
    || Loads(store, primary, backup) == Some(written[|written| - 1])
    || (|written| > 1 && Loads(store, primary, backup) == Some(written[|written| - 2]))
  }

  /** The write began with a good primary, or with a backup that already held the last value,
      or it was not cut short between its last two replacements. */
  predicate Orderly(store: Store, primary: File, backup: File, written: seq<Document>, e: Event) {
    e.Attempt? ==>
      || Good(store, primary)
      || (e.primary, e.backup) == (primary, backup)
      || (e.primary, e.backup) == Written(store, primary, backup, e.value)
      || (Good(store, backup) && |written| > 0 && backup.doc == written[|written| - 1])
  }

  predicate OrderlyRun(store: Store, primary: File, backup: File, written: seq<Document>, events: seq<Event>)
    decreases |events|
  {
    events == [] || (
      && Orderly(store, primary, backup, written, events[0])
      && var (p, b) := After(store, primary, backup, events[0]);
         OrderlyRun(store, p, b, Recorded(primary, backup, written, events[0]), events[1..]))
  }

  /** After no event of the run can damage to the primary expose anything older than the last
      two values. */
  predicate AlwaysLastKnownGood(store: Store, primary: File, backup: File, written: seq<Document>, events: seq<Event>)
    decreases |events|
  {
    && LastKnownGood(store, primary, backup, written)
    && (events == [] ||
          var (p, b) := After(store, primary, backup, events[0]);
          AlwaysLastKnownGood(store, p, b, Recorded(primary, backup, written, events[0]), events[1..]))
  }

  lemma StaysLastKnownGoodIff(store: Store, primary: File, backup: File, written: seq<Document>, e: Event)
    requires LastKnownGood(store, primary, backup, written) && Possible(store, primary, backup, e)
    ensures var (p, b) := After(store, primary, backup, e);
      LastKnownGood(store, p, b, Recorded(primary, backup, written, e)) <==> Orderly(store, primary, backup, written, e)
  {
  }

  /** Once a valid backup exists, a run of writes, loads and damage to the primary keeps the
      store within the last two values written if and only if every event of it is orderly. */
  lemma {:induction false} LastKnownGoodIffOrderly(
    store: Store, primary: File, backup: File, written: seq<Document>, events: seq<Event>)
    requires LastKnownGood(store, primary, backup, written) && PossibleRun(store, primary, backup, events)
    ensures AlwaysLastKnownGood(store, primary, backup, written, events)
      <==> OrderlyRun(store, primary, backup, written, events)
    decreases |events|
  {
    hide LastKnownGood, Orderly, Possible, After, Recorded;
    if events != [] {
      var (p, b) := After(store, primary, backup, events[0]);
      var more := Recorded(primary, backup, written, events[0]);
      StaysLastKnownGoodIff(store, primary, backup, written, events[0]);
      if LastKnownGood(store, p, b, more) {
        LastKnownGoodIffOrderly(store, p, b, more, events[1..]);
      }
    }
  }

  /** Such a run leaves a store that loads the last or the second-last value written. */
  lemma {:induction false} LastOrSecondLast(
    store: Store, primary: File, backup: File, written: seq<Document>, events: seq<Event>)
    requires AlwaysLastKnownGood(store, primary, backup, written, events)
    ensures var (p, b) := Final(store, primary, backup, events);
      var all := History(store, primary, backup, written, events);
      LastKnownGood(store, p, b, all) && LoadsOneOfLastTwo(store, p, b, all)
    decreases |events|
  {
    hide After, Recorded;
    if events != [] {
      var (p, b) := After(store, primary, backup, events[0]);
      LastOrSecondLast(store, p, b, Recorded(primary, backup, written, events[0]), events[1..]);
    }
  }

  /** Without order the claim fails: a write begun on a damaged primary and cut short between
      its last two replacements leaves a backup three values old, and the next damage to the
      primary exposes it. */
  lemma DisorderlyWriteExposesThirdLast()
    ensures var oldest, middle, newest := Offset(0), Offset(1), Offset(2);
      var events := [Damage(Corrupt), Attempt(newest, Json(newest), Json(oldest)), Damage(Corrupt)];
      && LastKnownGood(OffsetStore, Json(middle), Json(oldest), [oldest, middle])
      && PossibleRun(OffsetStore, Json(middle), Json(oldest), events)
      && History(OffsetStore, Json(middle), Json(oldest), [oldest, middle], events) == [oldest, middle, newest]
      && Final(OffsetStore, Json(middle), Json(oldest), events) == (Corrupt, Json(oldest))
      && !LoadsOneOfLastTwo(OffsetStore, Corrupt, Json(oldest), [oldest, middle, newest])
  {
    var oldest, middle, newest := Offset(0), Offset(1), Offset(2);
    var cut := Attempt(newest, Json(newest), Json(oldest));
    var events := [Damage(Corrupt), cut, Damage(Corrupt)];
    var store := OffsetStore;
    assert events[1..] == [cut, Damage(Corrupt)] && events[1..][1..] == [Damage(Corrupt)];
    assert events[1..][1..][1..] == [];
    assert After(store, Json(middle), Json(oldest), events[0]) == (Corrupt, Json(oldest));
    assert After(store, Corrupt, Json(oldest), cut) == (Json(newest), Json(oldest));
    assert After(store, Json(newest), Json(oldest), Damage(Corrupt)) == (Corrupt, Json(oldest));
    assert PossibleRun(store, Json(newest), Json(oldest), events[1..][1..]);
    assert PossibleRun(store, Corrupt, Json(oldest), events[1..]);
    assert Final(store, Json(newest), Json(oldest), events[1..][1..]) == (Corrupt, Json(oldest));
    assert Final(store, Corrupt, Json(oldest), events[1..]) == (Corrupt, Json(oldest));
    var written := [oldest, middle];
    assert History(store, Json(newest), Json(oldest), written + [newest], events[1..][1..]) == written + [newest];
    assert History(store, Corrupt, Json(oldest), written, events[1..]) == written + [newest];
  }

  function Offset(id: nat): (doc: Document)
    ensures Valid(OffsetStore, doc)
  {
    OffsetDoc(Checkpoint(seq(64, i => '0'), id))
  }

  /** The documents a load would have returned, one after each event, oldest first; `loaded`
      is the list so far. */
  ghost predicate Tracks(store: Store, primary: File, backup: File, loaded: seq<Document>) {
    && Good(store, backup)
    && |loaded| > 0
    && Loads(store, primary, backup) == Some(loaded[|loaded| - 1])
    && (backup.doc == loaded[|loaded| - 1] || (|loaded| > 1 && backup.doc == loaded[|loaded| - 2]))
  }

  /** The list grows only when the loaded document changes. */
  function Track(loaded: seq<Document>, next: Option<Document>): seq<Document>
    requires |loaded| > 0
  {
    if next.None? || next.value == loaded[|loaded| - 1] then loaded else loaded + [next.value]
  }

  /** Even when writes are interrupted anywhere, an event either leaves the loaded document
      alone, or installs the value being written, or, when the primary is damaged, undoes
      just the last change. */
  lemma OneChangeAtATime(store: Store, primary: File, backup: File, loaded: seq<Document>, e: Event)
    requires Tracks(store, primary, backup, loaded) && Possible(store, primary, backup, e)
    ensures var (p, b) := After(store, primary, backup, e);
      && Tracks(store, p, b, Track(loaded, Loads(store, p, b)))
      && match e
         case Complete(value) => Loads(store, p, b) == Some(value)
         case Attempt(value, _, _) =>
           Loads(store, p, b) == Some(value) || Loads(store, p, b) == Some(loaded[|loaded| - 1])
         case Repair(_) => Loads(store, p, b) == Some(loaded[|loaded| - 1])
         case Damage(_) =>
           || Loads(store, p, b) == Some(loaded[|loaded| - 1])
           || (|loaded| > 1 && Loads(store, p, b) == Some(loaded[|loaded| - 2]))
  {
  }
}
