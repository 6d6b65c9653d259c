/** Handing the service to a restarted daemon (src/daemon/mod.rs, src/daemon/state.rs,
    src/utils/pid.rs, src/lib.rs). The daemon whose loop this is shares the PID file with its
    replacements and its flags with whoever asks it to shut down; both may act between any two
    of its steps. What happens is written to a log, and the claims are about that log. */
module Handoff {
  import opened Wrappers

  type Pid = nat

  /** The process this loop runs in; it is alive as long as the loop runs. */
  const SELF: Pid := 0

  datatype Owner = Owner(pid: Pid, token: nat)

  datatype PidFile = NoFile | Garbled | Record(owner: Owner)

  datatype Attempt = Attempt(child: Pid)

  datatype Event =
    | Shutdown                                              // an external request was recorded
    | Served(file: PidFile, token: nat, live: set<Pid>, strays: set<Pid>)   // server::run was entered
    | Removed(owner: Owner, live: set<Pid>)                 // this daemon removed a PID record
    | Closed(saved: bool, served: bool)                     // the final save and the server: did they end well
    | Took(child: Pid)                                      // an armed attempt was taken up
    | Stopping(child: Pid)                                  // this daemon set out to kill a replacement
    | Committed                                             // the handoff was committed
    | Resumed                                               // the cancelled restart was undone

  // ---- The claims about a log ----

  /** External shutdown and commit are ordered: whichever is recorded first wins. A commit or a
      resumption comes before any shutdown, and after a commit this daemon neither serves, nor
      kills, nor touches a PID record. */
  predicate Linear(log: seq<Event>) {
    && (forall i, j :: 0 <= i < j < |log| && log[i].Shutdown? ==> !log[j].Committed? && !log[j].Resumed?)
    && (forall i, j :: 0 <= i < j < |log| && log[i].Committed? ==> log[j].Shutdown?)
  }

  /** The server is entered only with this daemon's own record on file and no replacement
      alive, but strays; a record is removed only by its owner or when its owner is dead. */
  predicate Careful(log: seq<Event>) {
    forall i :: 0 <= i < |log| ==> Proper(log[i])
  }

  /** The commit is on record, and no shutdown before it. */
  predicate CommitFirst(log: seq<Event>) {
    exists i :: 0 <= i < |log| && log[i].Committed? && Shutdown !in log[..i]
  }

  /** How the server and the final save last ended. */
  function LastClosed(log: seq<Event>): Option<Event> {
    if log == [] then None
    else if log[|log| - 1].Closed? then Some(log[|log| - 1])
    else LastClosed(log[..|log| - 1])
  }

  /** Only shutdown requests were added. */
  predicate Quiet(log: seq<Event>, log': seq<Event>) {
    log <= log' && forall i :: |log| <= i < |log'| ==> log'[i].Shutdown?
  }

  /** Only shutdown requests and removals of PID records were added. */
  predicate Clearing(log: seq<Event>, log': seq<Event>) {
    log <= log' && forall i :: |log| <= i < |log'| ==> log'[i].Shutdown? || log'[i].Removed?
  }

  /** No attempt was taken up since. */
  predicate NoneTaken(log: seq<Event>, log': seq<Event>) {
    log <= log' && forall i :: |log| <= i < |log'| ==> !log'[i].Took? && !log'[i].Closed?
  }

  lemma {:induction false} ClosedStays(log: seq<Event>, log': seq<Event>)
    requires NoneTaken(log, log')
    ensures LastClosed(log') == LastClosed(log)
    decreases |log'|
  {
    if |log'| > |log| {
      ClosedStays(log, log'[..|log'| - 1]);
    } else {
      assert log' == log;
    }
  }

  predicate Proper(e: Event) {
    match e
    case Served(file, token, live, strays) => file == Record(Owner(SELF, token)) && live <= {SELF} + strays
    case Removed(owner, live) => owner.pid == SELF || owner.pid !in live
    case _ => true
  }

  lemma OneMoreKeeps(log: seq<Event>, e: Event)
    requires Linear(log) && Careful(log) && Committed !in log
    requires Proper(e) && !e.Shutdown? && !e.Committed? && !e.Resumed?
    ensures Linear(log + [e]) && Careful(log + [e])
  {
  }

  lemma LogGrows(log: seq<Event>, log': seq<Event>)
    requires NoneTaken(log, log')
    ensures forall e :: e in log ==> e in log'
    ensures forall child: Pid :: Took(child) in log' ==> Took(child) in log
  {
    assert forall i :: 0 <= i < |log| ==> log'[i] == log[i];
  }

  lemma CommitFirstIsLogged(log: seq<Event>)
    ensures CommitFirst(log) ==> Committed in log
  {
  }

  lemma NothingAdded(log: seq<Event>, log': seq<Event>)
    requires Quiet(log, log')
    ensures log' == log || Shutdown in log'
  {
    if |log'| > |log| {
      assert log'[|log|] == Shutdown;
    }
  }

  lemma CloseIsLast(log: seq<Event>, saved: bool, served: bool)
    requires log != [] && log[|log| - 1] == Closed(saved, served)
    ensures LastClosed(log) == Some(Closed(saved, served))
    ensures forall child: Pid :: LastClosed(log + [Took(child)]) == Some(Closed(saved, served))
  {
    forall child: Pid
      ensures LastClosed(log + [Took(child)]) == Some(Closed(saved, served))
    {
      assert (log + [Took(child)])[..|log|] == log;
    }
  }

  /** Every replacement taken up, other than this one, has been stopped. */
  ghost predicate AllStoppedBut(log: seq<Event>, other: Option<Pid>) {
    forall child: Pid :: Took(child) in log && Some(child) != other ==> Stopping(child) in log
  }

  lemma StoppedStay(log: seq<Event>, log': seq<Event>, other: Option<Pid>)
    requires AllStoppedBut(log, other) && NoneTaken(log, log')
    ensures AllStoppedBut(log', other)
  {
    LogGrows(log, log');
  }

  lemma LastIsStopped(log: seq<Event>, log': seq<Event>, child: Pid)
    requires AllStoppedBut(log, Some(child)) && NoneTaken(log + [Stopping(child)], log')
    ensures AllStoppedBut(log', None) && Stopping(child) in log'
  {
    LogGrows(log + [Stopping(child)], log');
    assert Stopping(child) in log + [Stopping(child)];
  }

  lemma QuietKeeps(log: seq<Event>, log': seq<Event>)
    requires Linear(log) && Careful(log) && Quiet(log, log')
    ensures Linear(log') && Careful(log')
  {
  }

  // ---- What others do ----

  /** What this daemon shares with others. */
  datatype World = World(
    file: PidFile, live: set<Pid>, ready: set<Pid>, tokens: nat, shutdown: bool, poisoned: bool)

  datatype Move =
    | Request           // an external shutdown is requested
    | Poison            // a panic poisons the coordination lock
    | Claim(pid: Pid)   // a replacement writes the PID file, free or left by a dead owner
    | Report(pid: Pid)  // the owner of the PID file reports ready
    | Withdraw(pid: Pid)   // it exits and removes its record
    | Die(pid: Pid)     // it exits and leaves its record

  predicate Own(file: PidFile) {
    file.Record? && file.owner.pid == SELF
  }

  predicate Owns(w: World, pid: Pid) {
    w.file.Record? && w.file.owner.pid == pid
  }

  function Moved(w: World, move: Move): World {
    match move
    case Request => w.(shutdown := true)
    case Poison => w.(poisoned := true)
    case _ => if move.pid == SELF || move.pid !in w.live then w else Acted(w, move)
  }

  function Acted(w: World, move: Move): World
    requires !move.Request? && !move.Poison?
  {
    match move
    case Claim(pid) =>
      if w.file.NoFile? || (w.file.Record? && w.file.owner.pid !in w.live)
      then w.(file := Record(Owner(pid, w.tokens)), tokens := w.tokens + 1) else w
    case Report(pid) => if Owns(w, pid) then w.(ready := w.ready + {pid}) else w
    case Withdraw(pid) => w.(file := if Owns(w, pid) then NoFile else w.file, live := w.live - {pid})
    case Die(pid) => w.(live := w.live - {pid})
  }

  function AfterMoves(w: World, moves: seq<Move>): World {
    if moves == [] then w else Moved(AfterMoves(w, moves[..|moves| - 1]), moves[|moves| - 1])
  }

  /** What is never taken back: recorded requests, a poisoned lock, readiness reports. */
  predicate Kept(before: World, after: World) {
    && (before.shutdown ==> after.shutdown)
    && (before.poisoned ==> after.poisoned)
    && before.ready <= after.ready
    && before.tokens <= after.tokens
  }

  /** Others leave this daemon's record alone, and claim the file only for themselves. */
  predicate Others(before: World, after: World) {
    && Kept(before, after) && after.live <= before.live
    && (SELF in before.live ==> SELF in after.live)
    && (Own(before.file) && SELF in before.live ==> after.file == before.file)
    && (after.file == before.file || after.file == NoFile
        || (after.file.Record? && after.file.owner.pid in before.live - {SELF}))
  }

  lemma MoveIsOfOthers(w: World, v: World, move: Move)
    requires Others(w, v)
    ensures Others(w, Moved(v, move))
  {
  }

  // ---- Attempts that may go wrong, and what becomes of them ----

  /** One attempt to release the record, and what others do in the pause after it. */
  datatype Chance = Chance(renamed: bool, unlinked: bool, moves: seq<Move>)

  /** Releasing an active record: an absent file counts as released. */
  function ReleaseOnce(w: World, token: nat, chance: Chance): (World, bool) {
    if w.file.NoFile? then (w, true)
    else
      var moved := w.file == Record(Owner(SELF, token)) && chance.renamed;
      var v := if moved then w.(file := NoFile) else w;
      if moved && chance.unlinked then (v, true) else (AfterMoves(v, chance.moves), false)
  }

  function ReleaseRun(w: World, token: nat, chances: seq<Chance>): (World, bool)
    decreases |chances|
  {
    if chances == [] then (w, false)
    else
      var (v, released) := ReleaseOnce(w, token, chances[0]);
      if released then (v, true) else ReleaseRun(v, token, chances[1..])
  }

  /** One attempt to create the file: what others do before it and between the two looks at a
      record, and whether its own steps work. */
  datatype Try = Try(before: seq<Move>, between: seq<Move>, written: bool, renamed: bool, unlinked: bool)

  /** What one attempt comes to: success or failure, or None if another one is made. */
  function ClaimOnce(w: World, t: Try): (World, Option<bool>) {
    var v := AfterMoves(w, t.before);
    match v.file
    case NoFile =>
      if t.written then (v.(file := Record(Owner(SELF, v.tokens)), tokens := v.tokens + 1), Some(true))
      else (v.(file := Garbled), Some(false))
    case Garbled => (v, Some(false))
    case Record(owner) =>
      if owner.pid in v.live then (v, Some(false))
      else
        var u := AfterMoves(v, t.between);
        if u.file != v.file then (u, None)
        else if !t.renamed then (u, Some(false))
        else (u.(file := NoFile), if t.unlinked then None else Some(false))
  }

  function ClaimRun(w: World, tries: seq<Try>): (World, bool)
    decreases |tries|
  {
    if tries == [] then (w, false)
    else
      match ClaimOnce(w, tries[0])
      case (v, Some(ok)) => (v, ok)
      case (v, None) => ClaimRun(v, tries[1..])
  }

  function EnsureRun(w: World, token: nat, tries: seq<Try>): (World, bool) {
    if w.file.NoFile? then ClaimRun(w, tries) else (w, w.file == Record(Owner(SELF, token)))
  }

  /** One look at the replacement: what happened since the last one, whether its report is
      unreadable, whether it answers, and whether the time is up. */
  datatype Look = Look(moves: seq<Move>, unreadable: bool, answers: bool, expired: bool)

  function WaitRun(w: World, child: Pid, looks: seq<Look>): (World, bool)
    decreases |looks|
  {
    if looks == [] || w.shutdown || child !in w.live then (w, false)
    else
      var v := AfterMoves(w, looks[0].moves);
      if looks[0].unreadable then (v, false)
      else if child in v.ready && looks[0].answers then (v, !v.shutdown)
      else if looks[0].expired then (v, false)
      else WaitRun(v, child, looks[1..])
  }

  /** The world after some looks that decided nothing. */
  function Meanwhile(w: World, looks: seq<Look>): World
    decreases |looks|
  {
    if looks == [] then w else Meanwhile(AfterMoves(w, looks[0].moves), looks[1..])
  }

  /** A look that neither ends the waiting nor finds the replacement ready. */
  predicate Undecided(w: World, child: Pid, look: Look) {
    var v := AfterMoves(w, look.moves);
    !w.shutdown && child in w.live && !look.unreadable && !look.expired && !(child in v.ready && look.answers)
  }

  /** The replacement is found ready at this look: no earlier one decided anything, it is alive,
      has reported and answers, and no shutdown was requested. */
  predicate FoundReady(w: World, child: Pid, looks: seq<Look>, k: nat)
    requires k < |looks|
  {
    && (forall i :: 0 <= i < k ==> Undecided(Meanwhile(w, looks[..i]), child, looks[i]))
    && var v := Meanwhile(w, looks[..k]);
    var u := AfterMoves(v, looks[k].moves);
    && !v.shutdown && child in v.live && !looks[k].unreadable && looks[k].answers
    && child in u.ready && !u.shutdown
  }

  lemma MeanwhileFrom(w: World, looks: seq<Look>, i: nat)
    requires i < |looks|
    ensures Meanwhile(w, looks[..i + 1]) == Meanwhile(AfterMoves(w, looks[0].moves), looks[1..][..i])
    ensures Meanwhile(w, looks[..0]) == w
  {
    assert looks[..i + 1][0] == looks[0] && looks[..i + 1][1..] == looks[1..][..i];
  }

  lemma FoundLater(w: World, child: Pid, looks: seq<Look>, k: nat)
    requires k + 1 < |looks|
    ensures FoundReady(w, child, looks, k + 1)
       <==> Undecided(w, child, looks[0]) && FoundReady(AfterMoves(w, looks[0].moves), child, looks[1..], k)
  {
    hide AfterMoves, Meanwhile, Undecided;
    var v, rest := AfterMoves(w, looks[0].moves), looks[1..];
    MeanwhileFrom(w, looks, k);
    forall i | 0 <= i < k
      ensures Undecided(Meanwhile(v, rest[..i]), child, rest[i])
         <==> Undecided(Meanwhile(w, looks[..i + 1]), child, looks[i + 1])
    {
      MeanwhileFrom(w, looks, i);
    }
    if Undecided(w, child, looks[0]) && FoundReady(v, child, rest, k) {
      forall i | 0 <= i < k + 1
        ensures Undecided(Meanwhile(w, looks[..i]), child, looks[i])
      {
        if i > 0 {
          assert Undecided(Meanwhile(v, rest[..i - 1]), child, rest[i - 1]);
        }
      }
    }
    if FoundReady(w, child, looks, k + 1) {
      assert Undecided(Meanwhile(w, looks[..0]), child, looks[0]);
    }
  }

  /** The wait succeeds if and only if the replacement is found ready at some look. */
  lemma {:induction false} ReadyIffFound(w: World, child: Pid, looks: seq<Look>)
    ensures WaitRun(w, child, looks).1 <==> exists k :: 0 <= k < |looks| && FoundReady(w, child, looks, k)
    decreases |looks|
  {
    hide AfterMoves, FoundReady;
    if looks != [] {
      var v, rest := AfterMoves(w, looks[0].moves), looks[1..];
      ReadyIffFound(v, child, rest);
      FoundFirst(w, child, looks);
      if WaitRun(w, child, looks).1 && !FoundReady(w, child, looks, 0) {
        var k :| 0 <= k < |rest| && FoundReady(v, child, rest, k);
        FoundLater(w, child, looks, k);
      }
      if k :| 0 < k < |looks| && FoundReady(w, child, looks, k) {
        FoundLater(w, child, looks, k - 1);
      }
    }
  }

  lemma FoundFirst(w: World, child: Pid, looks: seq<Look>)
    requires looks != []
    ensures var u := AfterMoves(w, looks[0].moves);
      FoundReady(w, child, looks, 0) <==>
        !w.shutdown && child in w.live && !looks[0].unreadable && looks[0].answers && child in u.ready && !u.shutdown
  {
    hide AfterMoves;
  }

  /** An own record is released by the first attempt that works; one that only moves the record
      aside is made good by the next if nobody has claimed the file; and while no attempt even
      moves it, the record stays. */
  lemma {:induction false} OwnRecordIsReleased(w: World, token: nat, chances: seq<Chance>, k: nat)
    requires w.file == Record(Owner(SELF, token)) && SELF in w.live && k < |chances|
    requires forall i :: 0 <= i < k ==> !chances[i].renamed
    ensures chances[k].renamed && chances[k].unlinked ==>
      ReleaseRun(w, token, chances).1 && ReleaseRun(w, token, chances).0.file == NoFile
    ensures chances[k].renamed && k + 1 < |chances| && Idle(chances[k].moves) ==> ReleaseRun(w, token, chances).1
    ensures k == |chances| - 1 && !chances[k].renamed ==> !ReleaseRun(w, token, chances).1
    decreases k
  {
    var v := AfterMoves(w, chances[0].moves);
    AfterMovesIsOfOthers(w, chances[0].moves);
    if k > 0 {
      assert forall i :: 0 <= i < k - 1 ==> chances[1..][i] == chances[i + 1];
      OwnRecordIsReleased(v, token, chances[1..], k - 1);
    } else if Idle(chances[0].moves) {
      assert AfterMoves(w.(file := NoFile), chances[0].moves) == w.(file := NoFile);
    }
  }

  predicate Idle(moves: seq<Move>) {
    moves == []
  }

  lemma {:induction false} AfterMovesIsOfOthers(w: World, moves: seq<Move>)
    ensures Others(w, AfterMoves(w, moves))
  {
    if moves != [] {
      AfterMovesIsOfOthers(w, moves[..|moves| - 1]);
      MoveIsOfOthers(w, AfterMoves(w, moves[..|moves| - 1]), moves[|moves| - 1]);
    }
  }

  /** A free file is claimed, and a dead owner's record is first removed; the record of a live
      owner is left alone. (Nobody else acts in these three.) */
  lemma FilesAreClaimed(w: World, t: Try, u: Try)
    requires t.before == [] && t.between == [] && u.before == []
    ensures w.file.NoFile? ==> ClaimRun(w, [t, u]).1 == t.written
    ensures w.file.Record? && w.file.owner.pid !in w.live ==>
      ClaimRun(w, [t, u]).1 == (t.renamed && t.unlinked && u.written)
    ensures w.file.Garbled? || (w.file.Record? && w.file.owner.pid in w.live) ==> ClaimRun(w, [t, u]) == (w, false)
  {
    assert [t, u][1..] == [u];
  }

  /** Everything that chance decides from the moment an attempt is taken up. */
  datatype Luck = Luck(
    release: seq<Chance>,    // releasing the record for the replacement
    looks: seq<Look>,        // waiting for it
    last: seq<Move>,         // between its readiness and the commit
    stop: seq<Move>,         // while it is being stopped
    confirmed: bool,         // whether its end could be confirmed
    claim: seq<Try>,         // putting this daemon's record back
    leave: seq<Chance>)      // releasing it at the end

  /** The record has been offered: what the world is then, whether the record was released, and
      whether the replacement is ready. */
  function Offered(w: World, token: nat, child: Pid, luck: Luck): (World, bool, bool) {
    var (v, released) := ReleaseRun(w, token, luck.release);
    if !released then (v, false, false)
    else var (u, ready) := WaitRun(v, child, luck.looks); (u, true, ready)
  }

  /** The replacement takes over: the record is released, it gets ready in time, and no shutdown
      comes first. */
  predicate TakesOver(w: World, token: nat, child: Pid, luck: Luck) {
    var (v, released, ready) := Offered(w, token, child, luck);
    ready && !AfterMoves(v, luck.last).shutdown && !AfterMoves(v, luck.last).poisoned
  }

  /** A replacement that claims the released file, reports ready and answers takes over, if no
      shutdown is requested. */
  lemma HealthyReplacementTakesOver(w: World, token: nat, child: Pid, luck: Luck)
    requires w.file == Record(Owner(SELF, token)) && child in w.live && child != SELF && !w.shutdown && !w.poisoned
    requires luck.release != [] && luck.release[0].renamed && luck.release[0].unlinked
    requires luck.looks != [] && luck.looks[0].moves == [Claim(child), Report(child)]
    requires !luck.looks[0].unreadable && luck.looks[0].answers && luck.last == []
    ensures TakesOver(w, token, child, luck)
  {
    var v, moves := w.(file := NoFile), [Claim(child), Report(child)];
    assert ReleaseOnce(w, token, luck.release[0]) == (v, true);
    assert moves[..1] == [Claim(child)] && moves[..1][..0] == [];
    assert AfterMoves(v, moves[..1]) == Moved(v, Claim(child));
    assert AfterMoves(v, moves) == Moved(Moved(v, Claim(child)), Report(child));
  }

  /** A replacement that did not get ready is stopped and this daemon serves on, if the end of
      the replacement can be confirmed and the PID file is free or still its own. */
  lemma ThisDaemonServesOn(w: World, token: nat, child: Pid, released: bool, luck: Luck)
    requires luck.confirmed && luck.stop == [] && luck.claim != [] && luck.claim[0].before == []
    requires luck.claim[0].written && !w.shutdown
    requires if released then w.file.NoFile? else w.file.NoFile? || w.file == Record(Owner(SELF, token))
    ensures GoesOn(w, token, child, released, luck)
  {
  }

  /** The replacement has been told to stop. */
  function Stopped(w: World, child: Pid, luck: Luck): World {
    var v := AfterMoves(w, luck.stop);
    if luck.confirmed then v.(live := v.live - {child}) else v
  }

  /** This daemon goes on: the replacement is confirmed dead, the record is its own again, and no
      shutdown was requested. */
  predicate GoesOn(w: World, token: nat, child: Pid, released: bool, luck: Luck) {
    luck.confirmed &&
    var v := Stopped(w, child, luck);
    var (u, owned) := if released then ClaimRun(v, luck.claim) else EnsureRun(v, token, luck.claim);
    owned && !u.shutdown
  }

  /** While the server runs: what others do, and perhaps a restart request, whose replacement may
      report prepared or not and be killed or not. */
  datatype Call = Call(moves: seq<Move>, restart: bool, prepared: bool, killed: bool)

  /** One of the requests gets a replacement prepared. */
  predicate Arms(requests: seq<Call>) {
    exists i :: 0 <= i < |requests| && requests[i].restart && requests[i].prepared
  }

  lemma ArmsMore(requests: seq<Call>, i: nat)
    requires i < |requests|
    ensures Arms(requests[..i + 1]) <==> Arms(requests[..i]) || (requests[i].restart && requests[i].prepared)
  {
    assert requests[..i + 1][i] == requests[i];
    if Arms(requests[..i]) {
      var k :| 0 <= k < i && requests[..i][k].restart && requests[..i][k].prepared;
      assert requests[..i + 1][k] == requests[..i][k];
    }
    if Arms(requests[..i + 1]) {
      var k :| 0 <= k < i + 1 && requests[..i + 1][k].restart && requests[..i + 1][k].prepared;
      if k < i {
        assert requests[..i][k] == requests[..i + 1][k];
      }
    }
  }

  // ---- Shared state ----

  /** What outlives the daemon's own variables: its flags, the armed attempt, the PID file and
      the daemon processes alive. A stray is a replacement that was rejected before it was
      armed and could not be killed. */
  class DaemonState {
    var shutdownRequested: bool
    var restartRequested: bool
    var committed: bool
    var slot: Option<Attempt>
    var poisoned: bool

    var file: PidFile
    var live: set<Pid>
    var ready: set<Pid>
    var tokens: nat
    var pids: nat
    ghost var strays: set<Pid>
    ghost var log: seq<Event>

    ghost predicate Valid()
      reads this
    {
      && SELF in live && SELF < pids && SELF !in strays
      && (forall p :: p in live ==> p < pids)
      && (forall p :: p in strays ==> p < pids)
      && (shutdownRequested <==> Shutdown in log)
      && (forall p: Pid :: Stopping(p) in log || Took(p) in log ==> p < pids)
      && Careful(log) && Linear(log)
    }

    ghost function Around(): World
      reads this
    {
      World(file, live, ready, tokens, shutdownRequested, poisoned)
    }

    /** This daemon's own variables. */
    ghost function Flags(): (bool, bool, Option<Attempt>, nat, set<Pid>)
      reads this
    {
      (restartRequested, committed, slot, pids, strays)
    }

    constructor (file: PidFile)
      ensures Valid() && this.file == file && live == {SELF} && slot == None && strays == {} && log == []
      ensures !shutdownRequested && !restartRequested && !committed && !poisoned
    {
      shutdownRequested, restartRequested, committed, slot, poisoned := false, false, false, None, false;
      this.file := file;
      live, ready, tokens, pids, strays, log := {SELF}, {}, 0, 1, {}, [];
    }

    method RequestShutdown()
      requires Valid()
      modifies this`shutdownRequested, this`log
      ensures Valid() && shutdownRequested && log == old(log) + [Shutdown]
    {
      shutdownRequested := true;
      log := log + [Shutdown];
      QuietKeeps(old(log), log);
    }

    method RequestRestartShutdown()
      modifies this`restartRequested
      ensures restartRequested
    {
      restartRequested := true;
    }

    /** The linearization point; a poisoned coordination lock counts as lost. */
    method CommitRestartHandoff() returns (won: bool)
      requires Valid() && Committed !in log
      modifies this`committed, this`log
      ensures Valid()
      ensures won <==> !shutdownRequested && !poisoned
      ensures won ==> committed && log == old(log) + [Committed] && CommitFirst(log)
      ensures !won ==> committed == old(committed) && log == old(log)
    {
      if poisoned || shutdownRequested {
        return false;
      }
      committed := true;
      log := log + [Committed];
      assert log[|log| - 1].Committed? && log[..|log| - 1] == old(log);
      return true;
    }

    /** A second attempt is refused and its replacement killed. */
    method ArmRestart(attempt: Attempt) returns (armed: bool)
      requires Valid() && attempt.child != SELF
      modifies this`committed, this`slot, this`live
      ensures Valid() && !committed
      ensures armed <==> old(slot) == None
      ensures slot == if armed then Some(attempt) else old(slot)
      ensures live == if armed then old(live) else old(live) - {attempt.child}
    {
      committed := false;
      if slot.Some? {
        live := live - {attempt.child};
        return false;
      }
      slot := Some(attempt);
      return true;
    }

    method TakeRestartAttempt() returns (attempt: Option<Attempt>)
      requires Valid() && Committed !in log && (slot.Some? ==> slot.value.child < pids)
      modifies this`slot, this`log
      ensures Valid() && attempt == old(slot) && slot == None
      ensures log == if attempt.Some? then old(log) + [Took(attempt.value.child)] else old(log)
    {
      attempt := slot;
      slot := None;
      if attempt.Some? {
        log := log + [Took(attempt.value.child)];
      }
    }

    /** The server has ended and the final save was tried. */
    method Close(saved: bool, served: bool)
      requires Valid() && Committed !in log
      modifies this`log
      ensures Valid() && log == old(log) + [Closed(saved, served)]
    {
      hide Linear, Careful;
      OneMoreKeeps(log, Closed(saved, served));
      log := log + [Closed(saved, served)];
    }

    method ResumeAfterFailedRestart() returns (resumed: bool)
      requires Valid() && Committed !in log
      modifies this`restartRequested, this`committed, this`log
      ensures Valid() && !restartRequested && !committed
      ensures resumed <==> !shutdownRequested
      ensures log == if resumed then old(log) + [Resumed] else old(log)
    {
      restartRequested := false;
      committed := false;
      resumed := !shutdownRequested;
      if resumed {
        log := log + [Resumed];
      }
    }

    // ---- Steps of others ----

    method Apply(move: Move)
      requires Valid()
      modifies this`shutdownRequested, this`poisoned, this`file, this`live, this`ready, this`tokens, this`log
      ensures Valid() && Around() == Moved(old(Around()), move) && Quiet(old(log), log)
    {
      if move.Request? {
        RequestShutdown();
      } else if move.Poison? {
        poisoned := true;
      } else if move.pid != SELF && move.pid in live {
        Act(move);
      }
    }

    method Act(move: Move)
      requires Valid() && !move.Request? && !move.Poison? && move.pid != SELF
      modifies this`file, this`live, this`ready, this`tokens
      ensures Valid() && Around() == Acted(old(Around()), move)
    {
      match move {
        case Claim(pid) =>
          if file.NoFile? || (file.Record? && file.owner.pid !in live) {
            file := Record(Owner(pid, tokens));
            tokens := tokens + 1;
          }
        case Report(pid) =>
          if file.Record? && file.owner.pid == pid {
            ready := ready + {pid};
          }
        case Withdraw(pid) =>
          if file.Record? && file.owner.pid == pid {
            file := NoFile;
          }
          live := live - {pid};
        case Die(pid) => live := live - {pid};
      }
    }

    /** Any number of steps of others. */
    method Interfere(moves: seq<Move>)
      requires Valid()
      modifies this`shutdownRequested, this`poisoned, this`file, this`live, this`ready, this`tokens, this`log
      ensures Valid() && Quiet(old(log), log)
      ensures Around() == AfterMoves(old(Around()), moves) && Others(old(Around()), Around())
    {
      hide Moved, Linear, Careful;
      assert moves[..|moves|] == moves;
      for i := 0 to |moves|
        invariant Valid() && Quiet(old(log), log)
        invariant Around() == AfterMoves(old(Around()), moves[..i]) && Others(old(Around()), Around())
      {
        assert moves[..i + 1][..i] == moves[..i];
        MoveIsOfOthers(old(Around()), Around(), moves[i]);
        Apply(moves[i]);
      }
    }

    /** terminate_failed_replacement: confirmed dead, or an error. */
    method StopReplacement(child: Pid, moves: seq<Move>, confirmed: bool)
      requires Valid() && child != SELF && child < pids && Committed !in log
      modifies this
      ensures Valid() && Quiet(old(log) + [Stopping(child)], log) && Flags() == old(Flags())
      ensures var w := AfterMoves(old(Around()), moves);
        && Around() == (if confirmed then w.(live := w.live - {child}) else w)
        && Others(old(Around()), Around())
    {
      hide Linear, Careful, AfterMoves;
      OneMoreKeeps(log, Stopping(child));
      log := log + [Stopping(child)];
      Interfere(moves);
      if confirmed {
        live := live - {child};
      }
    }

    // ---- The PID file ----

    /** remove_unchanged_pid_file: the record is moved aside first, and then deleted. */
    method RemoveUnchanged(owner: Owner, renamed: bool, unlinked: bool) returns (removed: bool)
      requires Valid() && Committed !in log && file == Record(owner) && (owner.pid == SELF || owner.pid !in live)
      modifies this`file, this`log
      ensures Valid() && removed == (renamed && unlinked)
      ensures file == if renamed then NoFile else old(file)
      ensures log == if renamed then old(log) + [Removed(owner, live)] else old(log)
    {
      hide Linear, Careful;
      if renamed {
        file := NoFile;
        OneMoreKeeps(log, Removed(owner, live));
        log := log + [Removed(owner, live)];
      }
      return renamed && unlinked;
    }

    /** One attempt of write_pid_file: create the file, or remove a record whose owner is dead
        and which has been looked at twice. Any step may fail; a failed write leaves an
        unreadable file. */
    method TryToClaim(t: Try) returns (outcome: Option<bool>)
      requires Valid() && Committed !in log
      modifies this`shutdownRequested, this`poisoned, this`file, this`live, this`ready, this`tokens, this`log
      ensures Valid() && Clearing(old(log), log)
      ensures (Around(), outcome) == ClaimOnce(old(Around()), t)
      ensures Kept(old(Around()), Around()) && live <= old(live)
      ensures outcome == Some(true) ==> tokens > old(tokens) && file == Record(Owner(SELF, tokens - 1))
      ensures outcome != Some(true) ==> !Own(file) || file == old(file)
      ensures Own(old(file)) ==> outcome == Some(false) && file == old(file)
    {
      hide Linear, Careful, AfterMoves;
      Interfere(t.before);
      match file {
        case NoFile =>
          file := if t.written then Record(Owner(SELF, tokens)) else Garbled;
          tokens := if t.written then tokens + 1 else tokens;
          return Some(t.written);
        case Garbled =>
          return Some(false);
        case Record(owner) =>
          if owner.pid in live {
            return Some(false);
          }
          Interfere(t.between);
          if file != Record(owner) {
            return None;
          }
          var removed := RemoveUnchanged(owner, t.renamed, t.unlinked);
          return if removed then None else Some(false);
      }
    }

    /** write_pid_file: up to three attempts. */
    method WritePidFile(tries: seq<Try>) returns (token: Option<nat>)
      requires Valid() && Committed !in log && |tries| == 3
      modifies this`shutdownRequested, this`poisoned, this`file, this`live, this`ready, this`tokens, this`log
      ensures Valid() && Clearing(old(log), log)
      ensures (Around(), token.Some?) == ClaimRun(old(Around()), tries)
      ensures Kept(old(Around()), Around()) && live <= old(live)
      ensures token.Some? ==> file == Record(Owner(SELF, token.value)) && old(tokens) <= token.value < tokens
      ensures token.None? ==> !Own(file) || file == old(file)
      ensures Own(old(file)) ==> token == None && file == old(file)
    {
      hide Linear, Careful, ClaimOnce;
      assert tries[0..] == tries;
      for i := 0 to 3
        invariant Valid() && Clearing(old(log), log) && Committed !in log
        invariant ClaimRun(old(Around()), tries) == ClaimRun(Around(), tries[i..])
        invariant Kept(old(Around()), Around()) && live <= old(live)
        invariant !Own(file) || file == old(file)
        invariant Own(old(file)) ==> file == old(file)
      {
        assert tries[i..][0] == tries[i] && tries[i..][1..] == tries[i + 1..];
        var outcome := TryToClaim(tries[i]);
        if outcome.Some? {
          return if outcome.value then Some(tokens - 1) else None;
        }
      }
      return None;
    }

    /** remove_pid_file: an absent file counts as removed; anything but the given record is
        refused. */
    method RemovePidFile(token: nat, renamed: bool, unlinked: bool) returns (removed: bool)
      requires Valid() && Committed !in log
      modifies this`file, this`log
      ensures Valid() && Committed !in log
      ensures var mine := old(file) == Record(Owner(SELF, token));
        && file == (if mine && renamed then NoFile else old(file))
        && log == (if mine && renamed then old(log) + [Removed(Owner(SELF, token), live)] else old(log))
        && removed == (old(file).NoFile? || (mine && renamed && unlinked))
    {
      match file {
        case NoFile => return true;
        case Garbled => return false;
        case Record(owner) =>
          if owner != Owner(SELF, token) {
            return false;
          }
          removed := RemoveUnchanged(owner, renamed, unlinked);
      }
    }

    /** The restart request: spawn a replacement, arm it once it has reported prepared, and
        ask the server to end. A replacement that does not report is killed if that works. */
    method Restart(prepared: bool, killed: bool)
      requires Valid()
      requires slot.Some? ==> slot.value.child < pids
      modifies this`restartRequested, this`committed, this`slot, this`live, this`pids, this`strays
      ensures Valid() && pids == old(pids) + 1 && (committed <==> old(committed) && !prepared)
      ensures var child, armed := old(pids), prepared && old(slot) == None;
        && slot == (if armed then Some(Attempt(child)) else old(slot))
        && live == (if armed || (!prepared && !killed) then old(live) + {child} else old(live))
        && strays == (if !prepared && !killed then old(strays) + {child} else old(strays))
        && restartRequested == (armed || old(restartRequested))
    {
      var child := pids;
      pids := pids + 1;
      live := live + {child};
      if prepared {
        var armed := ArmRestart(Attempt(child));
        if armed {
          RequestRestartShutdown();
        }
      } else if killed {
        live := live - {child};
      } else {
        strays := strays + {child};
      }
    }

    /** The armed replacement is fresh, and only it and strays are alive beside this daemon. */
    ghost predicate Armed(first: nat)
      reads this
    {
      match slot
      case None => live <= {SELF} + strays
      case Some(attempt) =>
        attempt.child != SELF && first <= attempt.child < pids && live <= {SELF, attempt.child} + strays
    }

    /** server::run: serves until a shutdown, a restart request or an error ends it. */
    method Serve(token: nat, requests: seq<Call>, failed: bool) returns (ok: bool)
      requires Valid() && Committed !in log && file == Record(Owner(SELF, token)) && slot == None
      requires live <= {SELF} + strays
      modifies this
      ensures Valid() && file == old(file) && Kept(old(Around()), Around())
      ensures Quiet(old(log) + [Served(old(file), token, old(live), old(strays))], log)
      ensures !committed || old(committed)
      ensures old(strays) <= strays && old(pids) <= pids && Armed(old(pids))
      ensures slot.Some? <==> Arms(requests)
      ensures ok <==> !failed && (shutdownRequested || slot.Some?)
    {
      hide Linear, Careful, AfterMoves;
      OneMoreKeeps(log, Served(file, token, live, strays));
      log := log + [Served(file, token, live, strays)];
      ghost var base := log;
      assert requests[..|requests|] == requests;
      for i := 0 to |requests|
        invariant slot.Some? <==> Arms(requests[..i])
        invariant Valid() && file == old(file) && Kept(old(Around()), Around()) && Quiet(base, log)
        invariant !committed || old(committed)
        invariant old(strays) <= strays && old(pids) <= pids && Armed(old(pids))
      {
        ArmsMore(requests, i);
        Interfere(requests[i].moves);
        if requests[i].restart {
          Restart(requests[i].prepared, requests[i].killed);
        }
      }
      ok := !failed && (shutdownRequested || slot.Some?);
    }
  }

  // ---- The guard of this daemon's record ----

  class PidFileGuard {
    var ownerToken: nat
    var active: bool

    constructor (ownerToken: nat)
      ensures this.ownerToken == ownerToken && active
    {
      this.ownerToken := ownerToken;
      active := true;
    }

    method Release(state: DaemonState, renamed: bool, unlinked: bool) returns (ok: bool)
      requires state.Valid() && (active ==> Committed !in state.log)
      modifies this`active, state`file, state`log
      ensures state.Valid()
      ensures var mine := old(active) && old(state.file) == Record(Owner(SELF, ownerToken));
        && state.file == (if mine && renamed then NoFile else old(state.file))
        && state.log == (if mine && renamed then old(state.log) + [Removed(Owner(SELF, ownerToken), state.live)]
                         else old(state.log))
        && ok == (!old(active) || old(state.file).NoFile? || (mine && renamed && unlinked))
      ensures ok <==> !active
    {
      if active {
        var removed := state.RemovePidFile(ownerToken, renamed, unlinked);
        if !removed {
          return false;
        }
        active := false;
      }
      return true;
    }

    method Reacquire(state: DaemonState, tries: seq<Try>) returns (ok: bool)
      requires state.Valid() && Committed !in state.log && |tries| == 3
      modifies this, state`shutdownRequested, state`poisoned, state`file, state`live
      modifies state`ready, state`tokens, state`log
      ensures state.Valid() && Clearing(old(state.log), state.log)
      ensures (state.Around(), ok) == ClaimRun(old(state.Around()), tries)
      ensures Kept(old(state.Around()), state.Around()) && state.live <= old(state.live)
      ensures ok ==> active && state.file == Record(Owner(SELF, ownerToken))
      ensures !ok ==> active == old(active) && ownerToken == old(ownerToken)
      ensures Own(old(state.file)) ==> !ok
    {
      var token := state.WritePidFile(tries);
      if token.Some? {
        ownerToken := token.value;
        active := true;
      }
      return token.Some?;
    }

    /** A record of another process is refused even if that process is dead. */
    method EnsureOwned(state: DaemonState, tries: seq<Try>) returns (ok: bool)
      requires state.Valid() && Committed !in state.log && |tries| == 3
      modifies this, state`shutdownRequested, state`poisoned, state`file, state`live
      modifies state`ready, state`tokens, state`log
      ensures state.Valid() && Clearing(old(state.log), state.log)
      ensures Kept(old(state.Around()), state.Around()) && state.live <= old(state.live)
      ensures (state.Around(), ok) == EnsureRun(old(state.Around()), old(ownerToken), tries)
      ensures ok ==> active && state.file == Record(Owner(SELF, ownerToken))
      ensures !old(state.file).NoFile? ==>
        && (ok <==> old(state.file) == Record(Owner(SELF, old(ownerToken))))
        && state.Around() == old(state.Around()) && state.log == old(state.log)
    {
      match state.file {
        case Garbled => return false;
        case Record(owner) =>
          if owner != Owner(SELF, ownerToken) {
            return false;
          }
          active := true;
          return true;
        case NoFile =>
          active := false;
          ok := Reacquire(state, tries);
      }
    }

    /** One attempt, and if it fails a pause in which others act. */
    method TryToRelease(state: DaemonState, chance: Chance) returns (ok: bool)
      requires state.Valid() && active && Committed !in state.log
      requires Own(state.file) ==> state.file.owner.token == ownerToken
      modifies this`active, state
      ensures state.Valid() && Clearing(old(state.log), state.log) && state.Flags() == old(state.Flags())
      ensures (state.Around(), ok) == ReleaseOnce(old(state.Around()), ownerToken, chance)
      ensures Kept(old(state.Around()), state.Around()) && state.live <= old(state.live)
      ensures ok <==> !active
      ensures ok ==> !Own(state.file)
      ensures Own(state.file) ==> state.file.owner.token == ownerToken
    {
      hide Linear, Careful, AfterMoves;
      ok := Release(state, chance.renamed, chance.unlinked);
      if !ok {
        state.Interfere(chance.moves);
      }
    }

    /** Six attempts. An inactive guard releases nothing. */
    method ReleaseWithRetry(state: DaemonState, chances: seq<Chance>) returns (ok: bool)
      requires state.Valid() && (active ==> Committed !in state.log) && |chances| == 6
      requires Own(state.file) ==> active && state.file.owner.token == ownerToken
      modifies this`active, state
      ensures state.Valid() && Clearing(old(state.log), state.log) && state.Flags() == old(state.Flags())
      ensures (state.Around(), ok)
           == if old(active) then ReleaseRun(old(state.Around()), ownerToken, chances) else (old(state.Around()), true)
      ensures Kept(old(state.Around()), state.Around()) && state.live <= old(state.live)
      ensures !old(active) ==> state.log == old(state.log)
      ensures ok <==> !active
      ensures ok ==> !Own(state.file)
      ensures Own(state.file) ==> active && state.file.owner.token == ownerToken
    {
      hide Linear, Careful, ReleaseOnce;
      if !active {
        return true;
      }
      assert chances[0..] == chances;
      for i := 0 to 6
        invariant active
        invariant ReleaseRun(old(state.Around()), ownerToken, chances)
               == ReleaseRun(state.Around(), ownerToken, chances[i..])
        invariant state.Valid() && Clearing(old(state.log), state.log) && state.Flags() == old(state.Flags())
        invariant Kept(old(state.Around()), state.Around()) && state.live <= old(state.live)
        invariant Own(state.file) ==> state.file.owner.token == ownerToken
      {
        assert chances[i..][0] == chances[i] && chances[i..][1..] == chances[i + 1..];
        ok := TryToRelease(state, chances[i]);
        if ok {
          return;
        }
      }
      return false;
    }
  }

  // ---- The loop ----

  /** wait_for_replacement_ready: success means that the replacement had claimed the PID file
      and that no shutdown was on record at the last look. */
  method WaitForReplacementReady(state: DaemonState, attempt: Attempt, looks: seq<Look>) returns (ok: bool)
    requires state.Valid()
    modifies state
    ensures state.Valid() && Quiet(old(state.log), state.log) && state.Flags() == old(state.Flags())
    ensures (state.Around(), ok) == WaitRun(old(state.Around()), attempt.child, looks)
    ensures Kept(old(state.Around()), state.Around()) && state.live <= old(state.live)
    ensures old(state.shutdownRequested) ==> !ok
    ensures !Own(old(state.file)) ==> !Own(state.file)
    ensures ok ==> attempt.child in state.ready && !state.shutdownRequested
  {
    hide Linear, Careful, AfterMoves;
    assert looks[0..] == looks;
    for i := 0 to |looks|
      invariant state.Valid() && Quiet(old(state.log), state.log) && state.Flags() == old(state.Flags())
      invariant WaitRun(old(state.Around()), attempt.child, looks)
             == WaitRun(state.Around(), attempt.child, looks[i..])
      invariant Kept(old(state.Around()), state.Around()) && state.live <= old(state.live)
      invariant !Own(old(state.file)) ==> !Own(state.file)
    {
      assert looks[i..][0] == looks[i] && looks[i..][1..] == looks[i + 1..];
      if state.shutdownRequested || attempt.child !in state.live {
        return false;
      }
      state.Interfere(looks[i].moves);
      if looks[i].unreadable {
        return false;
      }
      if attempt.child in state.ready && looks[i].answers {
        return !state.shutdownRequested;
      }
      if looks[i].expired {
        return false;
      }
    }
    return false;
  }

  datatype End =
    | HandedOver(child: Pid)   // committed: the replacement keeps the service
    | Exited                   // stopped on a request
    | Aborted                  // an error ended the process
    | Serving                  // the run was only followed this far

  /** What an error does on its way out: the guard is dropped, and tries once to release. */
  method Abort(guard: PidFileGuard, state: DaemonState) returns (end: End)
    requires state.Valid() && Committed !in state.log
    modifies guard`active, state`file, state`log
    ensures state.Valid() && Clearing(old(state.log), state.log) && end == Aborted
  {
    var renamed: bool, unlinked: bool := *, *;
    var released := guard.Release(state, renamed, unlinked);
    return Aborted;
  }

  predicate Complete(luck: Luck) {
    |luck.release| == 6 && |luck.claim| == 3 && |luck.leave| == 6
  }

  /** Undoing a restart: the replacement is stopped, this daemon's record is put back, and
      service resumes unless a shutdown is on record. None is an error. */
  method Cancel(guard: PidFileGuard, state: DaemonState, child: Pid, released: bool, luck: Luck)
    returns (resumed: Option<bool>)
    requires state.Valid() && Committed !in state.log && Complete(luck)
    requires state.live <= {SELF, child} + state.strays && child != SELF && child < state.pids
    modifies guard, state
    ensures state.Valid() && Committed !in state.log && state.slot == old(state.slot)
    ensures NoneTaken(old(state.log) + [Stopping(child)], state.log)
    ensures resumed == Some(true) <==> GoesOn(old(state.Around()), old(guard.ownerToken), child, released, luck)
    ensures resumed.Some? ==>
      && state.live <= {SELF} + state.strays && !state.committed
      && guard.active && state.file == Record(Owner(SELF, guard.ownerToken))
    ensures resumed.Some? ==> (resumed.value <==> !state.shutdownRequested)
  {
    hide Linear, Careful, AfterMoves, ClaimRun;
    state.StopReplacement(child, luck.stop, luck.confirmed);
    if !luck.confirmed {
      return None;
    }
    var owned;
    if released {
      owned := guard.Reacquire(state, luck.claim);
    } else {
      owned := guard.EnsureOwned(state, luck.claim);
    }
    if !owned {
      return None;
    }
    var again := state.ResumeAfterFailedRestart();
    return Some(again);
  }

  /** Release the record, but stay until the replacement is healthy. */
  method Offer(guard: PidFileGuard, state: DaemonState, child: Pid, luck: Luck) returns (released: bool, ready: bool)
    requires state.Valid() && Committed !in state.log && state.slot == None && Complete(luck)
    requires state.live <= {SELF, child} + state.strays && child != SELF && child < state.pids
    requires guard.active && state.file == Record(Owner(SELF, guard.ownerToken))
    modifies guard`active, state
    ensures state.Valid() && state.slot == None && state.live <= {SELF, child} + state.strays
    ensures Clearing(old(state.log), state.log) && child < state.pids
    ensures (state.Around(), released, ready) == Offered(old(state.Around()), guard.ownerToken, child, luck)
    ensures old(state.shutdownRequested) ==> !ready
    ensures ready ==> released && child in state.ready
    ensures released ==> !guard.active && !Own(state.file)
  {
    hide Linear, Careful, ReleaseRun, WaitRun;
    ready := false;
    released := guard.ReleaseWithRetry(state, luck.release);
    if released {
      ready := WaitForReplacementReady(state, Attempt(child), luck.looks);
    }
  }

  /** A run of these steps on which an undone restart ends the daemon. The record is moved
      aside but not deleted, so the release counts as failed; the replacement claims the free
      file; it is killed and leaves its record; and that record, although nobody owns it, is
      refused. No shutdown was requested. */
  method HalfReleaseIsRefused(guard: PidFileGuard, state: DaemonState, child: Pid, tries: seq<Try>)
    returns (owned: bool)
    requires |tries| == 3
    requires state.Valid() && Committed !in state.log && !state.shutdownRequested && !state.poisoned
    requires child in state.live && child != SELF && child < state.pids
    requires guard.active && state.file == Record(Owner(SELF, guard.ownerToken))
    modifies guard, state
    ensures state.Valid() && !state.shutdownRequested && !state.poisoned
    ensures !owned && child !in state.live && state.file == Record(Owner(child, old(state.tokens)))
    ensures state.log == old(state.log)
      + [Removed(Owner(SELF, old(guard.ownerToken)), old(state.live)), Stopping(child)]
  {
    hide Linear, Careful;
    var released := guard.Release(state, true, false);
    ghost var w := state.Around();
    assert AfterMoves(w, [Claim(child)]) == Moved(AfterMoves(w, []), Claim(child)) by {
      assert [Claim(child)][..0] == [];
    }
    ghost var log := state.log;
    state.Interfere([Claim(child)]);
    NothingAdded(log, state.log);
    ghost var claimed := state.Around();
    for attempt := 2 to 7
      invariant state.Valid() && state.Around() == claimed && state.log == log && guard.active
      invariant guard.ownerToken == old(guard.ownerToken) && Committed !in log && child < state.pids
    {
      var renamed: bool, unlinked: bool := *, *;
      released := guard.Release(state, renamed, unlinked);
    }
    state.StopReplacement(child, [], true);
    NothingAdded(log + [Stopping(child)], state.log);
    owned := guard.EnsureOwned(state, tries);
  }

  /** From a ready replacement to the end: commit, or stop it because a shutdown came first. */
  method Conclude(guard: PidFileGuard, state: DaemonState, child: Pid, luck: Luck) returns (end: End)
    requires state.Valid() && Committed !in state.log && Complete(luck)
    requires state.live <= {SELF, child} + state.strays && child != SELF && child < state.pids
    requires child in state.ready && Stopping(child) !in state.log
    requires !guard.active && !Own(state.file)
    modifies guard, state
    ensures state.Valid() && NoneTaken(old(state.log), state.log)
    ensures end.HandedOver? ==> end.child == child && child in state.ready
    ensures end.HandedOver? <==> CommitFirst(state.log)
    ensures end.HandedOver? <==> Stopping(child) !in state.log
    ensures Committed in state.log ==> end.HandedOver?
    ensures var v := AfterMoves(old(state.Around()), luck.last);
      end.HandedOver? <==> !v.shutdown && !v.poisoned
    ensures !state.shutdownRequested && !state.poisoned ==> end.HandedOver?
    ensures end.Exited? ==>
      state.live <= {SELF} + state.strays && !Own(state.file) && (state.shutdownRequested || state.poisoned)
    ensures !end.Serving?
  {
    hide Linear, Careful, AfterMoves, CommitFirst, ReleaseRun;
    state.Interfere(luck.last);
    var committed := state.CommitRestartHandoff();
    if committed {
      var released := guard.ReleaseWithRetry(state, luck.leave);
      return HandedOver(child);
    }
    end := Yield(guard, state, child, luck);
    CommitFirstIsLogged(state.log);
  }

  /** A shutdown came first: the replacement is stopped and this daemon ends. */
  method Yield(guard: PidFileGuard, state: DaemonState, child: Pid, luck: Luck) returns (end: End)
    requires state.Valid() && Committed !in state.log && (state.shutdownRequested || state.poisoned) && Complete(luck)
    requires state.live <= {SELF, child} + state.strays && child != SELF && child < state.pids
    modifies guard, state
    ensures state.Valid() && Committed !in state.log && NoneTaken(old(state.log), state.log)
    ensures Stopping(child) in state.log && (state.shutdownRequested || state.poisoned)
    ensures end in {Exited, Aborted}
    ensures end.Exited? <==>
      luck.confirmed &&
      var (v, owned) := ClaimRun(Stopped(old(state.Around()), child, luck), luck.claim);
      owned && v.file.Record? && ReleaseRun(v, v.file.owner.token, luck.leave).1
    ensures end.Exited? ==> state.live <= {SELF} + state.strays && !Own(state.file)
  {
    hide Linear, Careful, AfterMoves, ClaimRun, ReleaseRun;
    ghost var before := state.log;
    state.StopReplacement(child, luck.stop, luck.confirmed);
    var owned := false;
    if luck.confirmed {
      owned := guard.Reacquire(state, luck.claim);
    }
    if owned {
      end := Leave(guard, state, luck.leave);
    } else {
      end := Abort(guard, state);
    }
    assert Stopping(child) in before + [Stopping(child)];
    LogGrows(before + [Stopping(child)], state.log);
  }

  method Leave(guard: PidFileGuard, state: DaemonState, chances: seq<Chance>) returns (end: End)
    requires state.Valid() && Committed !in state.log && state.live <= {SELF} + state.strays && |chances| == 6
    requires state.shutdownRequested || state.poisoned
    requires guard.active && state.file == Record(Owner(SELF, guard.ownerToken))
    modifies guard, state
    ensures state.Valid() && Clearing(old(state.log), state.log) && end in {Exited, Aborted}
    ensures end.Exited? <==> ReleaseRun(old(state.Around()), old(guard.ownerToken), chances).1
    ensures state.shutdownRequested || state.poisoned
    ensures end.Exited? ==> state.live <= {SELF} + state.strays && !Own(state.file)
  {
    hide Linear, Careful, ReleaseRun;
    var released := guard.ReleaseWithRetry(state, chances);
    if !released {
      end := Abort(guard, state);
      return;
    }
    return Exited;
  }

  /** What is claimed when the loop is left, or followed no further. */
  ghost predicate Ended(state: DaemonState, end: End)
    reads state
  {
    && (end.HandedOver? <==> CommitFirst(state.log))
    && (end.HandedOver? <==> Committed in state.log)
    && (end.HandedOver? ==> Took(end.child) in state.log && end.child in state.ready)
    && (end.HandedOver? ==> LastClosed(state.log) == Some(Closed(true, true)))
    && (Shutdown in state.log && !CommitFirst(state.log) ==> end in {Exited, Aborted})
    && (forall child: Pid :: Took(child) in state.log ==> (Stopping(child) !in state.log <==> end == HandedOver(child)))
    && (end.Exited? ==>
          state.live <= {SELF} + state.strays && !Own(state.file) && (state.shutdownRequested || state.poisoned))
  }

  /** What one round of the loop is subject to: what is asked of the server, whether it fails,
      whether the final save works, what others do meanwhile, and the luck of an attempt. */
  datatype Fate = Fate(requests: seq<Call>, failed: bool, saved: bool, moves: seq<Move>, luck: Luck)

  /** The server, the final save, and the attempt that is pending then. */
  method Session(guard: PidFileGuard, state: DaemonState, fate: Fate) returns (served: bool, taken: Option<Attempt>)
    requires state.Valid() && Committed !in state.log && AllStoppedBut(state.log, None)
    requires state.live <= {SELF} + state.strays && state.slot == None
    requires guard.active && state.file == Record(Owner(SELF, guard.ownerToken))
    modifies state
    ensures state.Valid() && Committed !in state.log && state.slot == None && state.file == old(state.file)
    ensures taken.Some? <==> Arms(fate.requests)
    ensures taken.Some? ==> (served <==> !fate.failed)
    ensures fate.failed ==> !served
    ensures LastClosed(state.log) == Some(Closed(fate.saved, served))
    ensures match taken
      case None =>
        AllStoppedBut(state.log, None) && state.live <= {SELF} + state.strays && (served ==> state.shutdownRequested)
      case Some(attempt) =>
        && AllStoppedBut(state.log, Some(attempt.child)) && state.live <= {SELF, attempt.child} + state.strays
        && attempt.child != SELF && attempt.child < state.pids
        && Took(attempt.child) in state.log && Stopping(attempt.child) !in state.log
  {
    hide Linear, Careful, AfterMoves;
    ghost var before := state.log;
    served := state.Serve(guard.ownerToken, fate.requests, fate.failed);
    state.Interfere(fate.moves);
    StoppedStay(before, state.log, None);
    state.Close(fate.saved, served);
    CloseIsLast(state.log, fate.saved, served);
    taken := state.TakeRestartAttempt();
  }

  /** Once round the loop: the server, and what follows it. If an attempt is pending then
      (`took`, in the world `at`), the service is handed over exactly if the final save worked,
      the server ended well, and the replacement takes over in time. */
  method Round(guard: PidFileGuard, state: DaemonState, fate: Fate)
    returns (end: End, ghost took: Option<Pid>, ghost at: World, served: bool)
    requires state.Valid() && Committed !in state.log && AllStoppedBut(state.log, None) && Complete(fate.luck)
    requires state.live <= {SELF} + state.strays && state.slot == None
    requires guard.active && state.file == Record(Owner(SELF, guard.ownerToken))
    modifies guard, state
    ensures state.Valid() && Ended(state, end)
    ensures took.Some? <==> Arms(fate.requests)
    ensures (took.Some? ==> (served <==> !fate.failed)) && (fate.failed ==> !served)
    ensures took.Some? ==> Took(took.value) in state.log
    ensures match took
      case None => !end.HandedOver? && !end.Serving?
        && (end.Exited? <==> fate.saved && served && ReleaseRun(at, old(guard.ownerToken), fate.luck.leave).1)
      case Some(child) =>
        && (end.HandedOver? <==>
              fate.saved && served && TakesOver(at, old(guard.ownerToken), child, fate.luck))
        && (end.Serving? <==>
              (fate.saved ==> served) && Resumes(at, old(guard.ownerToken), child, fate.saved, fate.luck))
    ensures end.Serving? ==>
      && Committed !in state.log && AllStoppedBut(state.log, None)
      && state.live <= {SELF} + state.strays && state.slot == None
      && guard.active && state.file == Record(Owner(SELF, guard.ownerToken))
  {
    var taken;
    served, taken := Session(guard, state, fate);
    at := state.Around();
    if taken.None? {
      took := None;
      end := Finish(guard, state, fate.saved && served, fate.luck.leave);
    } else {
      took := Some(taken.value.child);
      end := Hand(guard, state, taken.value.child, fate.saved, served, fate.luck);
    }
  }

  /** Whether a pending attempt is undone and this daemon serves on. */
  predicate Resumes(w: World, token: nat, child: Pid, saved: bool, luck: Luck) {
    if !saved then GoesOn(w, token, child, false, luck)
    else
      var (v, released, ready) := Offered(w, token, child, luck);
      !ready && GoesOn(v, token, child, released, luck)
  }

  /** No attempt is pending: the daemon ends. */
  method Finish(guard: PidFileGuard, state: DaemonState, ok: bool, chances: seq<Chance>) returns (end: End)
    requires state.Valid() && Committed !in state.log && AllStoppedBut(state.log, None) && |chances| == 6
    requires state.live <= {SELF} + state.strays && (ok ==> state.shutdownRequested)
    requires guard.active && state.file == Record(Owner(SELF, guard.ownerToken))
    modifies guard, state
    ensures state.Valid() && Ended(state, end) && end in {Exited, Aborted} && NoneTaken(old(state.log), state.log)
    ensures end.Exited? <==> ok && ReleaseRun(old(state.Around()), old(guard.ownerToken), chances).1
  {
    hide Linear, Careful;
    ghost var before := state.log;
    if ok {
      end := Leave(guard, state, chances);
    } else {
      end := Abort(guard, state);
    }
    StoppedStay(before, state.log, None);
    CommitFirstIsLogged(state.log);
  }

  /** An attempt is pending: hand over to it, or cancel it. */
  method Hand(guard: PidFileGuard, state: DaemonState, child: Pid, saved: bool, serverOk: bool, luck: Luck)
    returns (end: End)
    requires state.Valid() && Committed !in state.log && AllStoppedBut(state.log, Some(child)) && Complete(luck)
    requires state.live <= {SELF, child} + state.strays && state.slot == None
    requires child != SELF && child < state.pids && Took(child) in state.log && Stopping(child) !in state.log
    requires guard.active && state.file == Record(Owner(SELF, guard.ownerToken))
    requires LastClosed(state.log) == Some(Closed(saved, serverOk))
    modifies guard, state
    ensures state.Valid() && Ended(state, end) && Took(child) in state.log
    ensures end.HandedOver? <==>
      saved && serverOk && TakesOver(old(state.Around()), old(guard.ownerToken), child, luck)
    ensures end.Serving? <==>
      (saved ==> serverOk) && Resumes(old(state.Around()), old(guard.ownerToken), child, saved, luck)
    ensures end.Serving? ==>
      && Committed !in state.log && AllStoppedBut(state.log, None)
      && state.live <= {SELF} + state.strays && state.slot == None
      && guard.active && state.file == Record(Owner(SELF, guard.ownerToken))
  {
    hide Linear, Careful, AfterMoves, ReleaseRun, WaitRun, ClaimRun, GoesOn;
    ghost var before := state.log;
    if saved && !serverOk {
      state.StopReplacement(child, luck.stop, luck.confirmed);
      LastIsStopped(before, state.log, child);
      LogGrows(before + [Stopping(child)], state.log);
      assert Took(child) in before + [Stopping(child)];
      before := state.log;
      end := GiveUp(guard, state);
      LogGrows(before, state.log);
      return;
    }
    var released := false;
    if saved {
      var ready;
      released, ready := Offer(guard, state, child, luck);
      StoppedStay(before, state.log, Some(child));
      LogGrows(before, state.log);
      ClosedStays(before, state.log);
      before := state.log;
      if ready {
        end := Conclude(guard, state, child, luck);
        StoppedStay(before, state.log, Some(child));
        LogGrows(before, state.log);
        ClosedStays(before, state.log);
        CommitFirstIsLogged(state.log);
        return;
      }
    }
    end := Undo(guard, state, child, released, luck);
  }

  /** The attempt is undone: this daemon serves on, or ends. */
  method Undo(guard: PidFileGuard, state: DaemonState, child: Pid, released: bool, luck: Luck) returns (end: End)
    requires state.Valid() && Committed !in state.log && AllStoppedBut(state.log, Some(child)) && Complete(luck)
    requires state.live <= {SELF, child} + state.strays && state.slot == None
    requires child != SELF && child < state.pids && Took(child) in state.log
    modifies guard, state
    ensures state.Valid() && Ended(state, end) && !end.HandedOver? && Took(child) in state.log
    ensures end.Serving? <==> GoesOn(old(state.Around()), old(guard.ownerToken), child, released, luck)
    ensures end.Serving? ==>
      && Committed !in state.log && AllStoppedBut(state.log, None)
      && state.live <= {SELF} + state.strays && state.slot == None
      && guard.active && state.file == Record(Owner(SELF, guard.ownerToken))
  {
    hide Linear, Careful, AfterMoves, GoesOn, ReleaseRun;
    ghost var before := state.log;
    var resumed := Cancel(guard, state, child, released, luck);
    LastIsStopped(before, state.log, child);
    LogGrows(before + [Stopping(child)], state.log);
    assert Took(child) in before + [Stopping(child)];
    before := state.log;
    if resumed.None? {
      end := GiveUp(guard, state);
      LogGrows(before, state.log);
    } else if !resumed.value {
      end := Finish(guard, state, true, luck.leave);
      LogGrows(before, state.log);
    } else {
      CommitFirstIsLogged(state.log);
      end := Serving;
    }
  }

  method GiveUp(guard: PidFileGuard, state: DaemonState) returns (end: End)
    requires state.Valid() && Committed !in state.log && AllStoppedBut(state.log, None)
    modifies guard, state
    ensures state.Valid() && Ended(state, end) && end == Aborted && NoneTaken(old(state.log), state.log)
  {
    ghost var before := state.log;
    end := Abort(guard, state);
    StoppedStay(before, state.log, None);
    CommitFirstIsLogged(state.log);
  }

  /** run, for the given fates of its rounds; after the last of them it is followed no further. */
  method Run(state: DaemonState, tries: seq<Try>, fates: seq<Fate>) returns (end: End)
    requires state.Valid() && state.log == [] && state.live == {SELF} && state.slot == None && !state.committed
    requires |tries| == 3 && fates != [] && forall i :: 0 <= i < |fates| ==> Complete(fates[i].luck)
    modifies state
    ensures state.Valid() && Ended(state, end)
    ensures !ClaimRun(old(state.Around()), tries).1 ==> end == Aborted
    ensures end.Serving? ==> state.live <= {SELF} + state.strays && Own(state.file)
  {
    hide Linear, Careful;
    var pidOwnerToken := state.WritePidFile(tries);
    if pidOwnerToken.None? {
      return Aborted;
    }
    var guard := new PidFileGuard(pidOwnerToken.value);
    end := Serving;
    for round := 0 to |fates|
      invariant state.Valid() && Committed !in state.log && AllStoppedBut(state.log, None)
      invariant state.live <= {SELF} + state.strays && state.slot == None
      invariant guard.active && state.file == Record(Owner(SELF, guard.ownerToken))
      invariant end.Serving? && (round > 0 ==> Ended(state, end))
    {
      ghost var took, at;
      var served;
      end, took, at, served := Round(guard, state, fates[round]);
      if !end.Serving? {
        return;
      }
    }
  }
}
