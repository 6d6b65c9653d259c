/** The Telegram checkpoint and the polling loop above it (src/config/telegram_checkpoint.rs,
    src/telegram/bot.rs). The checkpoint is a client of the last-known-good store. */
module TelegramCheckpoints {
  import opened Wrappers
  import opened FileStore

  predicate Monotonic(current: Checkpoint, next: Checkpoint) {
    current.fingerprint == next.fingerprint ==> next.nextUpdateId >= current.nextUpdateId
  }

  /** Where a token stands: the next update ID recorded for it. */
  function Position(c: Checkpoint, fingerprint: string): int {
    if c.fingerprint == fingerprint then c.nextUpdateId else 0
  }

  function Persisted(disk: Disk): Option<Checkpoint> {
    match LoadsFrom(disk, OffsetStore)
    case Some(OffsetDoc(c)) => Some(c)
    case _ => None
  }

  /** What is on record after one save; `landed` tells whether its write took effect. */
  datatype Save = Save(next: Checkpoint, landed: bool)

  function AfterSave(current: Checkpoint, save: Save): Checkpoint {
    if save.landed && ValidCheckpoint(save.next) && Monotonic(current, save.next) then save.next else current
  }

  function AfterSaves(current: Checkpoint, saves: seq<Save>): Checkpoint
    decreases |saves|
  {
    if saves == [] then current else AfterSaves(AfterSave(current, saves[0]), saves[1..])
  }

  /** save_at: load, compare, write. An unreadable store, an invalid or a smaller checkpoint
      is an error and leaves the record as it was. */
  method SaveAt(fs: FileSystem, next: Checkpoint) returns (io: Io)
    modifies fs
    ensures Elsewhere(old(fs.disk), fs.disk, OffsetStore)
    ensures match Persisted(old(fs.disk))
      case None => io != Done && Persisted(fs.disk) == None
      case Some(current) =>
        var backwards := current.fingerprint == next.fingerprint && next.nextUpdateId < current.nextUpdateId;
        && (Persisted(fs.disk) == Some(AfterSave(current, Save(next, true)))
            || Persisted(fs.disk) == Some(AfterSave(current, Save(next, false))))
        && (io.Done? ==> ValidCheckpoint(next) && !backwards && Persisted(fs.disk) == Some(next))
        && (ValidCheckpoint(next) && !backwards && fs.troubles == old(fs.troubles) ==> io.Done?)
    ensures fs.troubles >= old(fs.troubles)
  {
    if !ValidCheckpoint(next) {
      return Failed;
    }
    var loaded := Load(fs, OffsetStore);
    match loaded {
      case LoadCrash => return Crashed;
      case LoadError => return Failed;
      case Document(doc) =>
        if !Monotonic(doc.checkpoint, next) {
          return Failed;
        }
        ghost var before := fs.disk;
        io := WriteJson(fs, OffsetStore, OffsetDoc(next));
        var store := OffsetStore;
        WriteIsAllOrNothing(store, At(before, Primary(store)), At(before, Backup(store)), OffsetDoc(next),
                            At(fs.disk, Primary(store)), At(fs.disk, Backup(store)));
        CompletedWriteLoads(store, At(before, Primary(store)), At(before, Backup(store)), OffsetDoc(next));
    }
  }

  ghost predicate OfToken(saves: seq<Save>, fingerprint: string) {
    forall i :: 0 <= i < |saves| ==> saves[i].next.fingerprint == fingerprint
  }

  /** For one token the record never moves backwards, whichever of the saves take effect. */
  lemma {:induction false} NeverBackwards(current: Checkpoint, saves: seq<Save>, fingerprint: string)
    requires ValidCheckpoint(current) && OfToken(saves, fingerprint)
    ensures ValidCheckpoint(AfterSaves(current, saves))
    ensures Position(AfterSaves(current, saves), fingerprint) >= Position(current, fingerprint)
    decreases |saves|
  {
    if saves != [] {
      NeverBackwards(AfterSave(current, saves[0]), saves[1..], fingerprint);
    }
  }

  /** Competing saves for one token, in any order, end at the largest of them all. */
  lemma {:induction false} CompetingSavesEndAtTheMaximum(current: Checkpoint, saves: seq<Save>, fingerprint: string)
    requires ValidCheckpoint(current) && OfToken(saves, fingerprint) && |saves| > 0
    requires forall i :: 0 <= i < |saves| ==> saves[i].landed && ValidCheckpoint(saves[i].next)
    ensures var final := AfterSaves(current, saves);
      && final.fingerprint == fingerprint
      && (forall i :: 0 <= i < |saves| ==> saves[i].next.nextUpdateId <= final.nextUpdateId)
      && Position(current, fingerprint) <= final.nextUpdateId
      && (final == current || exists i :: 0 <= i < |saves| && saves[i].next == final)
    decreases |saves|
  {
    var first := AfterSave(current, saves[0]);
    if |saves| == 1 {
      assert AfterSaves(current, saves) == first;
    } else {
      CompetingSavesEndAtTheMaximum(first, saves[1..], fingerprint);
      var final := AfterSaves(current, saves);
      assert forall i :: 1 <= i < |saves| ==> saves[i] == saves[1..][i - 1];
      if final != first {
        var i :| 0 <= i < |saves[1..]| && saves[1..][i].next == final;
        assert saves[i + 1].next == final;
      }
    }
  }

  /** The record of a token is lost exactly when a checkpoint of another token replaces it. */
  lemma LostIffAnotherTokenIsSaved(current: Checkpoint, save: Save, fingerprint: string)
    requires ValidCheckpoint(current)
    ensures Position(AfterSave(current, save), fingerprint) < Position(current, fingerprint)
      <==> (save.landed && ValidCheckpoint(save.next) && save.next.fingerprint != fingerprint
            && Position(current, fingerprint) > 0)
  {
  }
}

module TelegramBot {
  import opened Wrappers
  import opened FileStore
  import opened TelegramCheckpoints

  const I64_MAX: int := 0x7fff_ffff_ffff_ffff

  type I64 = n: int | -I64_MAX - 1 <= n <= I64_MAX

  /** A SHA-256 digest in lower-case hexadecimal. */
  type Fingerprint = s: string | |s| == 64 && forall i :: 0 <= i < |s| ==> LowercaseHex(s[i])
    witness seq(64, i => '0')

  /** One cycle of the loop: either nothing was fetched (disabled, no allowlist, a failed
      request), or the batch of update IDs fetched for the token of the moment. */
  datatype Poll = Idle | Batch(fingerprint: Fingerprint, updates: seq<I64>)

  datatype Delivery = Delivery(fingerprint: Fingerprint, id: I64)

  datatype End = Drained | ShutDown | Unreadable | Unsafe | SaveFailed | Crash

  function Deliveries(fingerprint: Fingerprint, updates: seq<I64>): (r: seq<Delivery>)
    ensures |r| == |updates|
    ensures forall i :: 0 <= i < |r| ==> r[i] == Delivery(fingerprint, updates[i])
  {
    seq(|updates|, i requires 0 <= i < |updates| => Delivery(fingerprint, updates[i]))
  }

  function Delivered(polls: seq<Poll>): seq<Delivery> {
    if polls == [] then []
    else (if polls[0].Idle? then [] else Deliveries(polls[0].fingerprint, polls[0].updates)) + Delivered(polls[1..])
  }

  lemma DeliveredNext(polls: seq<Poll>, n: nat)
    requires n < |polls|
    ensures var rest := Delivered(polls[n + 1..]);
      Delivered(polls[n..])
        == if polls[n].Idle? then rest else Deliveries(polls[n].fingerprint, polls[n].updates) + rest
  {
    assert polls[n..][1..] == polls[n + 1..];
    assert [] + Delivered(polls[n + 1..]) == Delivered(polls[n + 1..]);
  }

  /** The updates that are handled when nothing goes wrong: each is at or above the position
      of its token, and the first ID without a successor ends the session. */
  function Accepted(c: Checkpoint, ds: seq<Delivery>): seq<Delivery>
    decreases |ds|
  {
    if ds == [] then []
    else if ds[0].id < 0 || ds[0].id < Position(c, ds[0].fingerprint) then Accepted(c, ds[1..])
    else if ds[0].id == I64_MAX then []
    else [ds[0]] + Accepted(Checkpoint(ds[0].fingerprint, ds[0].id + 1), ds[1..])
  }

  /** The checkpoint that says exactly these updates are done. */
  function Covering(c: Checkpoint, handled: seq<Delivery>): Checkpoint {
    if handled == [] then c
    else Checkpoint(handled[|handled| - 1].fingerprint, handled[|handled| - 1].id + 1)
  }

  /** `handled` was done from record `c`, and `c'` is what is on record afterwards: it may
      miss the last update, and only that one. */
  predicate Recorded(c: Checkpoint, handled: seq<Delivery>, c': Checkpoint) {
    c' == Covering(c, handled) || (|handled| > 0 && c' == Covering(c, handled[..|handled| - 1]))
  }

  predicate Session(c: Checkpoint, ds: seq<Delivery>, handled: seq<Delivery>, c': Checkpoint) {
    handled <= Accepted(c, ds) && Recorded(c, handled, c')
  }

  lemma ContinueSession(c: Checkpoint, before: seq<Delivery>, more: seq<Delivery>, c': Checkpoint,
      all: seq<Delivery>, pending: seq<Delivery>)
    requires Recorded(Covering(c, before), more, c')
    requires all == before + pending && more <= pending
    ensures all == (before + more) + pending[|more|..]
    ensures Covering(c, before + more) == Covering(Covering(c, before), more)
    ensures Recorded(c, before + more, c')
  {
    if more == [] {
      assert before + more == before;
    } else {
      assert (before + more)[..|before + more| - 1] == before + more[..|more| - 1];
    }
  }

  lemma CoverNext(c: Checkpoint, handled: seq<Delivery>, d: Delivery)
    ensures Covering(c, handled + [d]) == Checkpoint(d.fingerprint, d.id + 1)
    ensures Recorded(c, handled + [d], Covering(c, handled)) && Recorded(c, handled + [d], Covering(c, handled + [d]))
  {
    assert (handled + [d])[..|handled + [d]| - 1] == handled;
  }

  lemma CoverNone(c: Checkpoint)
    ensures Covering(c, []) == c && Recorded(c, [], c)
  {
  }

  lemma ElsewhereChains(d0: Disk, d1: Disk, d2: Disk)
    requires Elsewhere(d0, d1, OffsetStore) && Elsewhere(d1, d2, OffsetStore)
    ensures Elsewhere(d0, d2, OffsetStore)
  {
  }

  lemma ElsewhereSame(d: Disk)
    ensures Elsewhere(d, d, OffsetStore)
  {
  }

  lemma AcceptNone(fingerprint: Fingerprint, updates: seq<I64>, later: seq<Delivery>)
    requires updates == []
    ensures Deliveries(fingerprint, updates) + later == later
  {
  }

  lemma AcceptNext(c: Checkpoint, fingerprint: Fingerprint, updates: seq<I64>, later: seq<Delivery>)
    requires updates != []
    ensures var rest := Deliveries(fingerprint, updates[1..]) + later;
      Accepted(c, Deliveries(fingerprint, updates) + later)
        == if updates[0] < 0 || updates[0] < Position(c, fingerprint) then Accepted(c, rest)
           else if updates[0] == I64_MAX then []
           else [Delivery(fingerprint, updates[0])] + Accepted(Checkpoint(fingerprint, updates[0] + 1), rest)
  {
    var ds := Deliveries(fingerprint, updates) + later;
    assert ds[0] == Delivery(fingerprint, updates[0]);
    assert ds[1..] == Deliveries(fingerprint, updates[1..]) + later;
  }

  /** The same within a batch: what the next update adds to what was handled. */
  lemma AcceptAt(c: Checkpoint, fingerprint: Fingerprint, updates: seq<I64>, k: nat, later: seq<Delivery>,
      handled: seq<Delivery>, all: seq<Delivery>)
    requires k < |updates| && all == handled + Accepted(c, Deliveries(fingerprint, updates[k..]) + later)
    ensures var id, rest := updates[k], Deliveries(fingerprint, updates[k + 1..]) + later;
      var more := handled + [Delivery(fingerprint, id)];
      if id < 0 || id < Position(c, fingerprint) then all == handled + Accepted(c, rest)
      else if id == I64_MAX then all == handled
      else more <= all && all == more + Accepted(Checkpoint(fingerprint, id + 1), rest)
  {
    hide Accepted, Deliveries;
    AcceptNext(c, fingerprint, updates[k..], later);
    assert updates[k..][1..] == updates[k + 1..];
  }

  // ---- The loop ----

  /** Every update of one batch in turn: filter, run the command, save the checkpoint. `later`
      is whatever the polls after this one deliver. */
  method HandleBatch(fs: FileSystem, fingerprint: Fingerprint, updates: seq<I64>, start: Checkpoint, startOffset: int,
      shutdowns: bool, ghost later: seq<Delivery>)
    returns (end: Option<End>, checkpoint: Checkpoint, offset: int, ghost handled: seq<Delivery>)
    requires Persisted(fs.disk) == Some(start) && startOffset == Position(start, fingerprint)
    modifies fs
    ensures Elsewhere(old(fs.disk), fs.disk, OffsetStore)
    ensures Persisted(fs.disk).Some?
    ensures Recorded(start, handled, Persisted(fs.disk).value)
    ensures end in {None, Some(ShutDown), Some(Unsafe)} ==>
      Persisted(fs.disk) == Some(Covering(start, handled)) && checkpoint == Covering(start, handled)
    ensures var all := Accepted(start, Deliveries(fingerprint, updates) + later);
      match end
      case None => all == handled + Accepted(checkpoint, later) && offset == Position(checkpoint, fingerprint)
      case Some(Unsafe) => all == handled
      case Some(e) => handled <= all && e in {ShutDown, SaveFailed, Crash}
    ensures fs.troubles >= old(fs.troubles)
    ensures fs.troubles == old(fs.troubles) ==> end in {None, Some(ShutDown), Some(Unsafe)}
    ensures end == Some(ShutDown) ==> shutdowns
  {
    hide Persisted, Elsewhere, Accepted, Deliveries, Covering, Recorded;
    handled := [];
    checkpoint, offset := start, startOffset;
    ElsewhereSame(fs.disk);
    CoverNone(start);
    ghost var all := Accepted(start, Deliveries(fingerprint, updates) + later);
    var k := 0;
    assert updates[0..] == updates;
    while k < |updates|
      invariant k <= |updates|
      invariant Elsewhere(old(fs.disk), fs.disk, OffsetStore)
      invariant Persisted(fs.disk) == Some(checkpoint) && checkpoint == Covering(start, handled)
      invariant Recorded(start, handled, checkpoint) && handled <= all
      invariant offset == Position(checkpoint, fingerprint)
      invariant all == handled + Accepted(checkpoint, Deliveries(fingerprint, updates[k..]) + later)
      invariant fs.troubles >= old(fs.troubles)
    {
      var id := updates[k];
      AcceptAt(checkpoint, fingerprint, updates, k, later, handled, all);
      k := k + 1;
      if id < 0 || id < offset {
        continue;
      }
      if id == I64_MAX {
        return Some(Unsafe), checkpoint, offset, handled;
      }
      // The command runs here; the machine may stop while it does.
      var next := Checkpoint(fingerprint, id + 1);
      CoverNext(start, handled, Delivery(fingerprint, id));
      handled := handled + [Delivery(fingerprint, id)];
      var survives := fs.Check();
      if !survives {
        return Some(Crash), checkpoint, offset, handled;
      }
      ghost var before := fs.disk;
      var io := SaveAt(fs, next);
      ElsewhereChains(old(fs.disk), before, fs.disk);
      if !io.Done? {
        return Some(if io.Crashed? then Crash else SaveFailed), checkpoint, offset, handled;
      }
      checkpoint := next;
      offset := id + 1;
      var shutdown: bool := *;
      if shutdown && shutdowns {
        return Some(ShutDown), checkpoint, offset, handled;
      }
    }
    AcceptNone(fingerprint, updates[k..], later);
    return None, checkpoint, offset, handled;
  }

  /** The polling loop over the given polls. `offset` and `active` are the loop's own
      variables; the claim is made without them. `shutdowns` tells whether a shutdown may be
      requested. */
  method Cycle(fs: FileSystem, polls: seq<Poll>, start: Checkpoint, shutdowns: bool)
    returns (end: End, ghost handled: seq<Delivery>)
    requires Persisted(fs.disk) == Some(start)
    modifies fs
    ensures Elsewhere(old(fs.disk), fs.disk, OffsetStore)
    ensures Persisted(fs.disk).Some?
    ensures Session(start, Delivered(polls), handled, Persisted(fs.disk).value)
    ensures end.Drained? || end.Unsafe? ==> handled == Accepted(start, Delivered(polls))
    ensures end in {Drained, ShutDown, Unsafe} ==> Persisted(fs.disk) == Some(Covering(start, handled))
    ensures fs.troubles >= old(fs.troubles)
    ensures fs.troubles == old(fs.troubles) ==> end in {Drained, ShutDown, Unsafe}
    ensures end.ShutDown? ==> shutdowns
  {
    handled := [];
    var checkpoint := start;
    var offset: int := 0;
    var active: Option<Fingerprint> := None;
    ghost var all := Accepted(start, Delivered(polls));
    var n := 0;
    assert polls[0..] == polls;
    while n < |polls|
      invariant n <= |polls|
      invariant Elsewhere(old(fs.disk), fs.disk, OffsetStore)
      invariant Persisted(fs.disk) == Some(checkpoint) && checkpoint == Covering(start, handled)
      invariant active.Some? ==> offset == Position(checkpoint, active.value)
      invariant all == handled + Accepted(checkpoint, Delivered(polls[n..]))
      invariant fs.troubles >= old(fs.troubles)
    {
      var shutdown: bool := *;
      if shutdown && shutdowns {
        return ShutDown, handled;
      }
      var poll := polls[n];
      DeliveredNext(polls, n);
      n := n + 1;
      if poll.Batch? {
        var fingerprint := poll.fingerprint;
        if active != Some(fingerprint) {
          offset := if checkpoint.fingerprint == fingerprint then checkpoint.nextUpdateId else 0;
          active := Some(fingerprint);
        }
        ghost var before, more, pending := handled, [], Accepted(checkpoint, Delivered(polls[n - 1..]));
        var result;
        result, checkpoint, offset, more :=
          HandleBatch(fs, fingerprint, poll.updates, checkpoint, offset, shutdowns, Delivered(polls[n..]));
        handled := before + more;
        ContinueSession(start, before, more, Persisted(fs.disk).value, all, pending);
        if result.Some? {
          return result.value, handled;
        }
      }
    }
    return Drained, handled;
  }

  /** run, until the given polls are used up, the shutdown, an error or a crash. */
  method Run(fs: FileSystem, polls: seq<Poll>, shutdowns: bool) returns (end: End, ghost handled: seq<Delivery>)
    modifies fs
    ensures Elsewhere(old(fs.disk), fs.disk, OffsetStore)
    ensures match Persisted(old(fs.disk))
      case None => end in {Unreadable, Crash} && handled == [] && Persisted(fs.disk) == None
      case Some(c) =>
        && Persisted(fs.disk).Some?
        && Session(c, Delivered(polls), handled, Persisted(fs.disk).value)
        && (end.Drained? || end.Unsafe? ==> handled == Accepted(c, Delivered(polls)))
        && (end in {Drained, ShutDown, Unsafe} ==> Persisted(fs.disk) == Some(Covering(c, handled)))
        && (fs.troubles == old(fs.troubles) && !shutdowns ==> handled == Accepted(c, Delivered(polls)))
    ensures fs.troubles >= old(fs.troubles)
  {
    var loaded := Load(fs, OffsetStore);
    match loaded {
      case Document(doc) => end, handled := Cycle(fs, polls, doc.checkpoint, shutdowns);
      case LoadCrash => return Crash, [];
      case LoadError => return Unreadable, [];
    }
  }

  // ---- What the trace of a session looks like ----

  ghost predicate AllOf(ds: seq<Delivery>, fingerprint: Fingerprint) {
    forall i :: 0 <= i < |ds| ==> ds[i].fingerprint == fingerprint
  }

  lemma {:induction false} AcceptedAbovePosition(c: Checkpoint, ds: seq<Delivery>)
    ensures forall i :: 0 <= i < |Accepted(c, ds)| ==> 0 <= Accepted(c, ds)[i].id < I64_MAX
    ensures Accepted(c, ds) != [] ==> Accepted(c, ds)[0].id >= Position(c, Accepted(c, ds)[0].fingerprint)
    decreases |ds|
  {
    if ds != [] {
      AcceptedAbovePosition(c, ds[1..]);
      AcceptedAbovePosition(Checkpoint(ds[0].fingerprint, ds[0].id + 1), ds[1..]);
    }
  }

  /** While one token stays in use, the IDs handled strictly increase. */
  lemma {:induction false} IdsIncreaseWithinToken(c: Checkpoint, ds: seq<Delivery>, i: nat, j: nat)
    requires i < j < |Accepted(c, ds)|
    requires AllOf(Accepted(c, ds)[i..j + 1], Accepted(c, ds)[i].fingerprint)
    ensures Accepted(c, ds)[i].id < Accepted(c, ds)[j].id
    decreases |ds|
  {
    var all := Accepted(c, ds);
    if ds[0].id < 0 || ds[0].id < Position(c, ds[0].fingerprint) {
      IdsIncreaseWithinToken(c, ds[1..], i, j);
    } else {
      var next := Checkpoint(ds[0].fingerprint, ds[0].id + 1);
      var rest := Accepted(next, ds[1..]);
      assert all[1..] == rest;
      if i > 0 {
        assert all[i..j + 1] == rest[i - 1..j];
        IdsIncreaseWithinToken(next, ds[1..], i - 1, j - 1);
      } else {
        AcceptedAbovePosition(next, ds[1..]);
        assert all[i..j + 1][1] == rest[0];
        if j > 1 {
          assert forall k :: 0 <= k < j ==> rest[0..j][k] == all[i..j + 1][k + 1];
          IdsIncreaseWithinToken(next, ds[1..], 0, j - 1);
        }
      }
    }
  }

  /** Updates of one token in increasing order, of which the first `n` are below a position. */
  ghost predicate SplitAt(ds: seq<Delivery>, fingerprint: Fingerprint, n: nat, position: int) {
    && n <= |ds| && AllOf(ds, fingerprint)
    && (forall i :: 0 <= i < |ds| ==> (if i < n then ds[i].id < position else position <= ds[i].id < I64_MAX))
    && (forall i, j :: 0 <= i < j < |ds| ==> ds[i].id < ds[j].id)
  }

  lemma SplitAfter(ds: seq<Delivery>, fingerprint: Fingerprint, n: nat, position: int)
    requires ds != [] && SplitAt(ds, fingerprint, n, position)
    ensures n > 0 ==> SplitAt(ds[1..], fingerprint, n - 1, position)
    ensures n == 0 ==> SplitAt(ds[1..], fingerprint, 0, ds[0].id + 1)
    ensures ds[0].fingerprint == fingerprint && (if n > 0 then ds[0].id < position else position <= ds[0].id < I64_MAX)
  {
    assert forall i :: 0 <= i < |ds[1..]| ==> ds[1..][i] == ds[i + 1];
  }

  /** No new update is missed and no old one handled: updates of one token in increasing order
      are handled exactly from the recorded position on. */
  lemma {:induction false} NewUpdatesAreAccepted(c: Checkpoint, ds: seq<Delivery>, fingerprint: Fingerprint, n: nat)
    requires Position(c, fingerprint) >= 0 && SplitAt(ds, fingerprint, n, Position(c, fingerprint))
    ensures n <= |ds| && Accepted(c, ds) == ds[n..]
    decreases |ds|
  {
    if ds != [] {
      SplitAfter(ds, fingerprint, n, Position(c, fingerprint));
      hide SplitAt;
      if n > 0 {
        NewUpdatesAreAccepted(c, ds[1..], fingerprint, n - 1);
        assert ds[1..][n - 1..] == ds[n..];
      } else {
        NewUpdatesAreAccepted(Checkpoint(fingerprint, ds[0].id + 1), ds[1..], fingerprint, 0);
        assert [ds[0]] + ds[1..] == ds;
      }
    }
  }

  /** Returning to a token after another one has been used handles its updates again. */
  lemma TokenReturnRepeats(f: Fingerprint, g: Fingerprint)
    requires f != g
    ensures var ds := [Delivery(f, 5), Delivery(g, 0), Delivery(f, 5)];
      Accepted(Checkpoint("", 0), ds) == ds
  {
    var ds := [Delivery(f, 5), Delivery(g, 0), Delivery(f, 5)];
    assert ds[1..] == [Delivery(g, 0), Delivery(f, 5)] && ds[1..][1..] == [Delivery(f, 5)] && ds[1..][1..][1..] == [];
    assert Accepted(Checkpoint(g, 1), ds[1..][1..]) == [Delivery(f, 5)];
    assert Accepted(Checkpoint(f, 6), ds[1..]) == [Delivery(g, 0), Delivery(f, 5)];
  }

  // ---- Runs of sessions ----

  /** `records[i]` is on record before session `i`. */
  ghost predicate Restarts(records: seq<Checkpoint>, fetched: seq<seq<Delivery>>, handled: seq<seq<Delivery>>) {
    && |records| == |handled| + 1 && |fetched| == |handled|
    && forall i :: 0 <= i < |handled| ==> Session(records[i], fetched[i], handled[i], records[i + 1])
  }

  ghost predicate OneToken(fetched: seq<seq<Delivery>>, fingerprint: Fingerprint) {
    forall i :: 0 <= i < |fetched| ==> AllOf(fetched[i], fingerprint)
  }

  lemma {:induction false} AcceptedComeFromFetched(c: Checkpoint, ds: seq<Delivery>, fingerprint: Fingerprint)
    requires AllOf(ds, fingerprint)
    ensures AllOf(Accepted(c, ds), fingerprint)
    decreases |ds|
  {
    if ds != [] {
      assert AllOf(ds[1..], fingerprint);
      AcceptedComeFromFetched(c, ds[1..], fingerprint);
      AcceptedComeFromFetched(Checkpoint(ds[0].fingerprint, ds[0].id + 1), ds[1..], fingerprint);
    }
  }

  /** One session of one token: strictly increasing IDs from the recorded position on, and a
      record that moves up to the last of them, or to just before it. */
  lemma SessionBounds(
    c: Checkpoint, ds: seq<Delivery>, handled: seq<Delivery>, c': Checkpoint, fingerprint: Fingerprint)
    requires ValidCheckpoint(c) && AllOf(ds, fingerprint) && Session(c, ds, handled, c')
    ensures ValidCheckpoint(c') && AllOf(handled, fingerprint)
    ensures forall i, j :: 0 <= i < j < |handled| ==> handled[i].id < handled[j].id
    ensures forall i :: 0 <= i < |handled| ==> Position(c, fingerprint) <= handled[i].id
    ensures forall i :: 0 <= i < |handled| - 1 ==> handled[i].id < Position(c', fingerprint)
    ensures Position(c, fingerprint) <= Position(c', fingerprint)
    ensures handled != [] && c' == Covering(c, handled) ==>
      Position(c', fingerprint) == handled[|handled| - 1].id + 1
  {
    var all := Accepted(c, ds);
    AcceptedComeFromFetched(c, ds, fingerprint);
    AcceptedAbovePosition(c, ds);
    forall i, j | 0 <= i < j < |all|
      ensures all[i].id < all[j].id
    {
      IdsIncreaseWithinToken(c, ds, i, j);
    }
    if handled != [] {
      assert handled[0] == all[0];
    }
  }

  /** Records of one token never move back. */
  lemma {:induction false} RecordsNeverMoveBack(records: seq<Checkpoint>, fetched: seq<seq<Delivery>>,
      handled: seq<seq<Delivery>>, fingerprint: Fingerprint, i: nat, j: nat)
    requires Restarts(records, fetched, handled) && OneToken(fetched, fingerprint) && ValidCheckpoint(records[0])
    requires i <= j < |records|
    ensures ValidCheckpoint(records[i]) && ValidCheckpoint(records[j])
    ensures Position(records[i], fingerprint) <= Position(records[j], fingerprint)
    decreases j
  {
    if j > 0 {
      RecordsNeverMoveBack(records, fetched, handled, fingerprint, if i < j then i else j - 1, j - 1);
      SessionBounds(records[j - 1], fetched[j - 1], handled[j - 1], records[j], fingerprint);
    }
  }

  /** Whatever crashes and failures end the sessions, an update handled in one of them is
      handled again in a later one only if it was the last of its session and its save was
      not completed. */
  lemma OnlyTheLastUpdateCanRepeat(records: seq<Checkpoint>, fetched: seq<seq<Delivery>>,
      handled: seq<seq<Delivery>>, fingerprint: Fingerprint, i: nat, k: nat, j: nat, l: nat)
    requires Restarts(records, fetched, handled) && OneToken(fetched, fingerprint) && ValidCheckpoint(records[0])
    requires i < j < |handled| && k < |handled[i]| && l < |handled[j]|
    ensures handled[i][k].id < handled[j][l].id
      || (k == |handled[i]| - 1 && records[i + 1] != Covering(records[i], handled[i]))
  {
    RecordsNeverMoveBack(records, fetched, handled, fingerprint, i, i + 1);
    RecordsNeverMoveBack(records, fetched, handled, fingerprint, i + 1, j);
    SessionBounds(records[i], fetched[i], handled[i], records[i + 1], fingerprint);
    SessionBounds(records[j], fetched[j], handled[j], records[j + 1], fingerprint);
  }

  /** The daemon started again and again over one file system. */
  method RunAgainAndAgain(fs: FileSystem, sessions: seq<seq<Poll>>)
    returns (ghost records: seq<Checkpoint>, ghost handled: seq<seq<Delivery>>)
    requires Persisted(fs.disk).Some?
    modifies fs
    ensures Restarts(records, seq(|sessions|, i requires 0 <= i < |sessions| => Delivered(sessions[i])), handled)
    ensures Some(records[0]) == Persisted(old(fs.disk))
    ensures Some(records[|records| - 1]) == Persisted(fs.disk)
  {
    records, handled := [Persisted(fs.disk).value], [];
    ghost var fetched := seq(|sessions|, i requires 0 <= i < |sessions| => Delivered(sessions[i]));
    var n := 0;
    while n < |sessions|
      invariant n <= |sessions|
      invariant Restarts(records, fetched[..n], handled)
      invariant Some(records[0]) == Persisted(old(fs.disk))
      invariant Persisted(fs.disk) == Some(records[n])
    {
      ghost var end;
      ghost var done;
      end, done := Run(fs, sessions[n], true);
      records := records + [Persisted(fs.disk).value];
      handled := handled + [done];
      n := n + 1;
    }
    assert fetched[..n] == fetched;
  }
}
