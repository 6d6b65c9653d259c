/** Rolling counts of log lines in five-minute windows (src/models/log_stats.rs). */
module LogStats {
  import opened Sequences

  const LOG_BUCKET_SECS := 300
  const MAX_LOG_STAT_BUCKETS := 288

  datatype Bucket = Bucket(windowStart: int, stdout: nat, stderr: nat)

  /** A recorded line: the time it was recorded at, in seconds. */
  datatype Entry = Entry(now: int, isStdout: bool)

  /** The remainder that takes the sign of the dividend. */
  function Remainder(a: int, b: nat): int
    requires b > 0
  {
    if a >= 0 then a % b else -((-a) % b)
  }

  /** bucket_floor. */
  function Window(now: int): int {
    now - Remainder(now, LOG_BUCKET_SECS)
  }

  lemma WindowIsMonotone(s: int, t: int)
    requires s <= t
    ensures Window(s) <= Window(t)
    ensures Window(s) % LOG_BUCKET_SECS == 0
    ensures 0 <= s ==> Window(s) <= s < Window(s) + LOG_BUCKET_SECS
  {
  }

  // ---- Plain grouping ----

  /** The window a line is counted in: the latest window reached so far, never an earlier one. */
  function WindowAt(origin: int, entries: seq<Entry>): int {
    if entries == [] then origin
    else
      var before := WindowAt(origin, entries[..|entries| - 1]);
      var window := Window(entries[|entries| - 1].now);
      if window > before then window else before
  }

  /** How many of the lines of a stream were counted in a window. */
  function Count(origin: int, entries: seq<Entry>, window: int, isStdout: bool): nat {
    if entries == [] then 0
    else Count(origin, entries[..|entries| - 1], window, isStdout)
         + if WindowAt(origin, entries) == window && entries[|entries| - 1].isStdout == isStdout then 1 else 0
  }

  function Tally(b: Bucket, isStdout: bool): Bucket {
    if isStdout then b.(stdout := b.stdout + 1) else b.(stderr := b.stderr + 1)
  }

  predicate Current(groups: seq<Bucket>, window: int) {
    groups != [] && groups[|groups| - 1].windowStart == window
  }

  /** Count a line in the last bucket if it is of that window, else in a new one. */
  function Add(groups: seq<Bucket>, window: int, isStdout: bool): seq<Bucket> {
    if Current(groups, window)
    then groups[..|groups| - 1] + [Tally(groups[|groups| - 1], isStdout)]
    else groups + [Tally(Bucket(window, 0, 0), isStdout)]
  }

  /** One bucket for each window with lines, in the order the windows were reached. */
  function Groups(origin: int, entries: seq<Entry>): seq<Bucket> {
    if entries == [] then []
    else Add(Groups(origin, entries[..|entries| - 1]), WindowAt(origin, entries), entries[|entries| - 1].isStdout)
  }

  lemma OneMore(origin: int, entries: seq<Entry>, last: Entry)
    ensures var window, before := WindowAt(origin, entries + [last]), WindowAt(origin, entries);
      && window == (if Window(last.now) > before then Window(last.now) else before)
      && Groups(origin, entries + [last]) == Add(Groups(origin, entries), window, last.isStdout)
      && (forall w, isStdout :: Count(origin, entries + [last], w, isStdout)
            == Count(origin, entries, w, isStdout) + if w == window && isStdout == last.isStdout then 1 else 0)
  {
    Snoc(entries, last);
  }

  /** A bucket holds exactly the lines counted in its window, and at least one. */
  predicate Exact(origin: int, entries: seq<Entry>, b: Bucket) {
    && b.stdout == Count(origin, entries, b.windowStart, true)
    && b.stderr == Count(origin, entries, b.windowStart, false)
    && b.stdout + b.stderr > 0
  }

  ghost predicate Ordered(groups: seq<Bucket>, latest: int) {
    && (forall i, j :: 0 <= i < j < |groups| ==> groups[i].windowStart < groups[j].windowStart)
    && (forall i :: 0 <= i < |groups| ==> groups[i].windowStart <= latest)
  }

  ghost predicate AllExact(origin: int, entries: seq<Entry>, groups: seq<Bucket>) {
    forall i :: 0 <= i < |groups| ==> Exact(origin, entries, groups[i])
  }

  predicate Has(groups: seq<Bucket>, window: int) {
    exists i :: 0 <= i < |groups| && groups[i].windowStart == window
  }

  ghost predicate NoneMissing(origin: int, entries: seq<Entry>, groups: seq<Bucket>) {
    forall window, isStdout :: Count(origin, entries, window, isStdout) > 0 ==> Has(groups, window)
  }

  lemma AddKeepsOrder(groups: seq<Bucket>, latest: int, window: int, isStdout: bool)
    requires Ordered(groups, latest) && latest <= window
    requires Current(groups, latest) || groups == []
    ensures Ordered(Add(groups, window, isStdout), window) && Current(Add(groups, window, isStdout), window)
    ensures forall w :: Has(Add(groups, window, isStdout), w) <==> Has(groups, w) || w == window
  {
    var added := Add(groups, window, isStdout);
    assert added[|added| - 1].windowStart == window;
    forall w
      ensures Has(added, w) <==> Has(groups, w) || w == window
    {
      if Has(groups, w) && w != window {
        var i :| 0 <= i < |groups| && groups[i].windowStart == w;
        assert added[i].windowStart == w;
      }
      if Has(added, w) && w != window {
        var i :| 0 <= i < |added| && added[i].windowStart == w;
        assert groups[i].windowStart == w;
      }
    }
  }

  lemma AddIsExact(origin: int, before: seq<Entry>, groups: seq<Bucket>, latest: int, last: Entry)
    requires Ordered(groups, latest) && AllExact(origin, before, groups) && NoneMissing(origin, before, groups)
    requires latest <= WindowAt(origin, before + [last]) && (Current(groups, latest) || groups == [])
    ensures AllExact(origin, before + [last], Add(groups, WindowAt(origin, before + [last]), last.isStdout))
  {
    OneMore(origin, before, last);
    hide Count, WindowAt, Groups;
    var window := WindowAt(origin, before + [last]);
    var added := Add(groups, window, last.isStdout);
    forall i | 0 <= i < |added|
      ensures Exact(origin, before + [last], added[i])
    {
      if i < |added| - 1 {
        assert Exact(origin, before, groups[i]);
        assert groups[i].windowStart < window;
      } else if Current(groups, window) {
        assert Exact(origin, before, groups[|groups| - 1]);
      } else {
        assert !Has(groups, window);
      }
    }
  }

  /** The groups are in strictly increasing window order, each exact, and no window that has
      lines is missing. */
  lemma {:induction false} GroupsAreExact(origin: int, entries: seq<Entry>)
    ensures Ordered(Groups(origin, entries), WindowAt(origin, entries))
    ensures entries == [] || Current(Groups(origin, entries), WindowAt(origin, entries))
    ensures AllExact(origin, entries, Groups(origin, entries))
    ensures NoneMissing(origin, entries, Groups(origin, entries))
  {
    if entries != [] {
      var before, last := entries[..|entries| - 1], entries[|entries| - 1];
      assert entries == before + [last];
      GroupsAreExact(origin, before);
      OneMore(origin, before, last);
      var groups, latest := Groups(origin, before), WindowAt(origin, before);
      assert before == [] ==> groups == [];
      hide Count, WindowAt, Groups, Exact, Window, Add, Current, Has;
      AddKeepsOrder(groups, latest, WindowAt(origin, entries), last.isStdout);
      AddIsExact(origin, before, groups, latest, last);
    }
  }

  /** How many of the lines of a stream fall in a window. */
  function PlainCount(entries: seq<Entry>, window: int, isStdout: bool): nat {
    if entries == [] then 0
    else PlainCount(entries[..|entries| - 1], window, isStdout)
         + if Window(entries[|entries| - 1].now) == window && entries[|entries| - 1].isStdout == isStdout then 1 else 0
  }

  ghost predicate InOrder(origin: int, entries: seq<Entry>) {
    && (forall i, j :: 0 <= i < j < |entries| ==> entries[i].now <= entries[j].now)
    && (entries != [] ==> origin <= Window(entries[0].now))
  }

  /** For timestamps that never go back, every line is counted in its own window. */
  lemma {:induction false} InOrderCountsPlainly(origin: int, entries: seq<Entry>, window: int, isStdout: bool)
    requires InOrder(origin, entries)
    ensures entries != [] ==> WindowAt(origin, entries) == Window(entries[|entries| - 1].now)
    ensures Count(origin, entries, window, isStdout) == PlainCount(entries, window, isStdout)
  {
    if entries != [] {
      var before, last := entries[..|entries| - 1], entries[|entries| - 1];
      InOrderCountsPlainly(origin, before, window, isStdout);
      if before != [] {
        WindowIsMonotone(before[|before| - 1].now, last.now);
      }
    }
  }

  /** Lines of one window: they are counted together, each stream on its own. */
  lemma {:induction false} OneWindow(origin: int, entries: seq<Entry>, window: int, isStdout: bool)
    requires origin <= window && entries != []
    requires forall i :: 0 <= i < |entries| ==> Window(entries[i].now) == window && entries[i].isStdout == isStdout
    ensures WindowAt(origin, entries) == window
    ensures Groups(origin, entries)
         == [if isStdout then Bucket(window, |entries|, 0) else Bucket(window, 0, |entries|)]
  {
    hide Window;
    var before := entries[..|entries| - 1];
    if before != [] {
      OneWindow(origin, before, window, isStdout);
    } else {
      NoLines(origin, before);
    }
  }

  // ---- LogStatsState ----

  /** The open bucket is the last group, if it has lines, and the history is the last of the
      groups before it. */
  ghost predicate Represents(history: seq<Bucket>, open: Bucket, groups: seq<Bucket>) {
    if open.stdout + open.stderr > 0
    then groups != [] && groups[|groups| - 1] == open
         && history == LastN(groups[..|groups| - 1], MAX_LOG_STAT_BUCKETS)
    else history == LastN(groups, MAX_LOG_STAT_BUCKETS)
  }

  lemma RollKeeps(history: seq<Bucket>, open: Bucket, groups: seq<Bucket>, window: int)
    requires Represents(history, open, groups) && open.stdout + open.stderr > 0
    ensures var longer := history + [open];
      Represents(if |longer| > MAX_LOG_STAT_BUCKETS then longer[1..] else longer, Bucket(window, 0, 0), groups)
  {
    assert groups == groups[..|groups| - 1] + [open];
  }

  lemma TallyKeeps(history: seq<Bucket>, open: Bucket, groups: seq<Bucket>, isStdout: bool)
    requires Represents(history, open, groups)
    requires open.stdout + open.stderr > 0 || !Current(groups, open.windowStart)
    ensures Represents(history, Tally(open, isStdout), Add(groups, open.windowStart, isStdout))
  {
    if open.stdout + open.stderr > 0 {
      Snoc(groups[..|groups| - 1], Tally(open, isStdout));
    } else {
      assert open == Bucket(open.windowStart, 0, 0);
      Snoc(groups, Tally(open, isStdout));
    }
  }

  class LogStatsState {
    var currentBucketStart: int
    var currentStdout: nat
    var currentStderr: nat
    var history: seq<Bucket>

    /** The window at creation and every line recorded since. */
    ghost var origin: int
    ghost var recorded: seq<Entry>

    ghost predicate Valid()
      reads this
    {
      && currentBucketStart == WindowAt(origin, recorded)
      && Represents(history, Bucket(currentBucketStart, currentStdout, currentStderr), Groups(origin, recorded))
      && (recorded != [] ==> currentStdout + currentStderr > 0)
    }

    constructor (now: int)
      ensures Valid() && origin == Window(now) && recorded == []
    {
      currentBucketStart := Window(now);
      currentStdout, currentStderr, history := 0, 0, [];
      origin, recorded := Window(now), [];
    }

    method Record(now: int, isStdout: bool)
      requires Valid()
      modifies this
      ensures Valid() && origin == old(origin) && recorded == old(recorded) + [Entry(now, isStdout)]
    {
      NoLines(origin, recorded);
      OneMore(origin, recorded, Entry(now, isStdout));
      GroupsAreExact(origin, recorded);
      hide Window, WindowAt, Groups, Represents, Add, Count, AllExact, NoneMissing;
      ghost var groups := Groups(origin, recorded);
      var expectedStart := Window(now);
      if expectedStart > currentBucketStart {
        if currentStdout > 0 || currentStderr > 0 {
          RollKeeps(history, Bucket(currentBucketStart, currentStdout, currentStderr), groups, expectedStart);
          history := history + [Bucket(currentBucketStart, currentStdout, currentStderr)];
          if |history| > MAX_LOG_STAT_BUCKETS {
            history := history[1..];
          }
        } else {
          NothingYet(history, currentBucketStart, expectedStart);
        }
        currentBucketStart, currentStdout, currentStderr := expectedStart, 0, 0;
      }
      TallyKeeps(history, Bucket(currentBucketStart, currentStdout, currentStderr), groups, isStdout);
      if isStdout {
        currentStdout := currentStdout + 1;
      } else {
        currentStderr := currentStderr + 1;
      }
      recorded := recorded + [Entry(now, isStdout)];
    }

    /** The last at most 289 groups of everything recorded. */
    method Snapshot() returns (out: seq<Bucket>)
      requires Valid()
      ensures out == LastN(Groups(origin, recorded), MAX_LOG_STAT_BUCKETS + 1)
    {
      NoLines(origin, recorded);
      hide WindowAt, Groups;
      ghost var groups := Groups(origin, recorded);
      out := history;
      if currentStdout > 0 || currentStderr > 0 {
        assert groups == groups[..|groups| - 1] + [groups[|groups| - 1]];
        LastNSnoc(groups[..|groups| - 1], groups[|groups| - 1], MAX_LOG_STAT_BUCKETS + 1);
        out := out + [Bucket(currentBucketStart, currentStdout, currentStderr)];
      }
    }
  }

  lemma NoLines(origin: int, entries: seq<Entry>)
    ensures entries == [] ==> Groups(origin, entries) == [] && WindowAt(origin, entries) == origin
  {
  }

  lemma NothingYet(history: seq<Bucket>, window: int, later: int)
    requires Represents(history, Bucket(window, 0, 0), [])
    ensures Represents(history, Bucket(later, 0, 0), [])
  {
  }
}
