/** Merging the ends of the output and error logs of a process by timestamp
    (src/logging/reader.rs). */
module MergedLogs {
  import opened Sequences
  import opened Wrappers
  import opened TailReader

  datatype Stream = Stdout | Stderr

  datatype Entry = Entry(stream: Stream, timestamp: seq<Byte>, content: seq<Byte>)

  // ---- parse_log_line ----

  const OPEN: Byte := 91
  const CLOSE: Byte := 93
  const SPACE: Byte := 32

  /** The first "] ". */
  function FindClose(s: seq<Byte>): (r: Option<nat>)
    ensures r.Some? ==> r.value + 1 < |s| && s[r.value] == CLOSE && s[r.value + 1] == SPACE
  {
    if |s| < 2 then None
    else if s[0] == CLOSE && s[1] == SPACE then Some(0)
    else match FindClose(s[1..])
      case None => None
      case Some(i) => Some(i + 1)
  }

  function ParseLogLine(stream: Stream, raw: seq<Byte>): Entry {
    if raw != [] && raw[0] == OPEN && FindClose(raw).Some? then
      var end := FindClose(raw).value;
      Entry(stream, raw[1..end], raw[end + 2..])
    else Entry(stream, [], raw)
  }

  /** A line in brackets is a timestamp and a content; any other line has no timestamp. */
  lemma LogLineParses(stream: Stream, timestamp: seq<Byte>, content: seq<Byte>)
    requires CLOSE !in timestamp
    ensures ParseLogLine(stream, [OPEN] + timestamp + [CLOSE, SPACE] + content) == Entry(stream, timestamp, content)
    ensures content == [] || content[0] != OPEN ==> ParseLogLine(stream, content) == Entry(stream, [], content)
  {
    var raw := [OPEN] + timestamp + [CLOSE, SPACE] + content;
    assert raw[0] == OPEN && raw[1..] == timestamp + [CLOSE, SPACE] + content;
    assert raw[|timestamp| + 1] == CLOSE && raw[|timestamp| + 2] == SPACE;
    assert forall i :: 0 < i <= |timestamp| ==> raw[i] == timestamp[i - 1];
    FirstClose(raw, |timestamp| + 1);
    assert raw[1..|timestamp| + 1] == timestamp && raw[|timestamp| + 3..] == content;
  }

  lemma {:induction false} FirstClose(s: seq<Byte>, n: nat)
    requires n + 1 < |s| && s[n] == CLOSE && s[n + 1] == SPACE && forall i :: 0 <= i < n ==> s[i] != CLOSE
    ensures FindClose(s) == Some(n)
  {
    if n > 0 {
      FirstClose(s[1..], n - 1);
    }
  }

  function Entries(stream: Stream, lines: seq<seq<Byte>>): (r: seq<Entry>)
    ensures |r| == |lines|
    ensures forall i :: 0 <= i < |r| ==> r[i] == ParseLogLine(stream, lines[i])
  {
    seq(|lines|, i requires 0 <= i < |lines| => ParseLogLine(stream, lines[i]))
  }

  // ---- Order and stable sorting ----

  /** Byte-wise order of strings. */
  predicate Leq(s: seq<Byte>, t: seq<Byte>) {
    s == [] || (t != [] && (s[0] < t[0] || (s[0] == t[0] && Leq(s[1..], t[1..]))))
  }

  lemma {:induction false} LeqIsTotal(s: seq<Byte>, t: seq<Byte>)
    ensures Leq(s, t) || Leq(t, s)
  {
    if s != [] && t != [] {
      LeqIsTotal(s[1..], t[1..]);
    }
  }

  lemma {:induction false} LeqIsTransitive(s: seq<Byte>, t: seq<Byte>, u: seq<Byte>)
    requires Leq(s, t) && Leq(t, u)
    ensures Leq(s, u)
  {
    if s != [] && t != [] && u != [] && s[0] == t[0] == u[0] {
      LeqIsTransitive(s[1..], t[1..], u[1..]);
    }
  }

  /** It is the dictionary order: a prefix comes first, else the first difference decides. */
  lemma {:induction false} LeqIsLexicographic(s: seq<Byte>, t: seq<Byte>, n: nat)
    requires n <= |s| && n <= |t| && s[..n] == t[..n]
    ensures n == |s| ==> Leq(s, t)
    ensures n == |t| && n < |s| ==> !Leq(s, t)
    ensures n < |s| && n < |t| && s[n] != t[n] ==> (Leq(s, t) <==> s[n] < t[n])
  {
    if n > 0 {
      assert s[0] == s[..n][0] == t[..n][0] == t[0];
      assert s[1..][..n - 1] == s[..n][1..] && t[1..][..n - 1] == t[..n][1..];
      LeqIsLexicographic(s[1..], t[1..], n - 1);
    }
  }

  predicate Before(x: Entry, y: Entry) {
    Leq(x.timestamp, y.timestamp)
  }

  ghost predicate Sorted(s: seq<Entry>) {
    forall i, j :: 0 <= i < j < |s| ==> Before(s[i], s[j])
  }

  /** Insert after every entry that is not later. */
  function Insert(s: seq<Entry>, x: Entry): (r: seq<Entry>)
    ensures |r| == |s| + 1
  {
    if s == [] || Before(s[|s| - 1], x) then s + [x]
    else Insert(s[..|s| - 1], x) + [s[|s| - 1]]
  }

  /** sort_by, which is stable. */
  function StableSort(s: seq<Entry>): seq<Entry> {
    if s == [] then [] else Insert(StableSort(s[..|s| - 1]), s[|s| - 1])
  }

  function WithTimestamp(s: seq<Entry>, timestamp: seq<Byte>): seq<Entry> {
    if s == [] then []
    else WithTimestamp(s[..|s| - 1], timestamp) + if s[|s| - 1].timestamp == timestamp then [s[|s| - 1]] else []
  }

  lemma InsertSnoc(rest: seq<Entry>, last: Entry, x: Entry)
    ensures Insert(rest + [last], x) == if Before(last, x) then rest + [last] + [x] else Insert(rest, x) + [last]
  {
    Snoc(rest, last);
  }

  lemma WithTimestampSnoc(s: seq<Entry>, x: Entry, timestamp: seq<Byte>)
    ensures WithTimestamp(s + [x], timestamp)
         == WithTimestamp(s, timestamp) + if x.timestamp == timestamp then [x] else []
  {
    Snoc(s, x);
  }

  lemma SnocSorted(s: seq<Entry>, x: Entry)
    requires Sorted(s) && (s != [] ==> Before(s[|s| - 1], x))
    ensures Sorted(s + [x])
  {
    hide Leq;
    forall i | 0 <= i < |s|
      ensures Before(s[i], x)
    {
      if i < |s| - 1 {
        LeqIsTransitive(s[i].timestamp, s[|s| - 1].timestamp, x.timestamp);
      }
    }
  }

  lemma {:induction false} InsertKeepsOrder(s: seq<Entry>, x: Entry)
    requires Sorted(s)
    ensures Sorted(Insert(s, x))
    ensures Insert(s, x)[|s|] == if s == [] || Before(s[|s| - 1], x) then x else s[|s| - 1]
  {
    hide Leq;
    if s == [] || Before(s[|s| - 1], x) {
      SnocSorted(s, x);
    } else {
      var rest, last := s[..|s| - 1], s[|s| - 1];
      InsertKeepsOrder(rest, x);
      LeqIsTotal(last.timestamp, x.timestamp);
      SnocSorted(Insert(rest, x), last);
    }
  }

  lemma {:induction false} InsertKeepsEntries(s: seq<Entry>, x: Entry)
    ensures multiset(Insert(s, x)) == multiset(s) + multiset{x}
  {
    hide Before;
    if s != [] {
      var rest, last := s[..|s| - 1], s[|s| - 1];
      assert s == rest + [last];
      InsertSnoc(rest, last, x);
      InsertKeepsEntries(rest, x);
    }
  }

  lemma {:induction false} InsertKeepsTies(s: seq<Entry>, x: Entry, timestamp: seq<Byte>)
    ensures WithTimestamp(Insert(s, x), timestamp) == WithTimestamp(s + [x], timestamp)
  {
    hide Leq, WithTimestamp;
    if s != [] {
      var rest, last := s[..|s| - 1], s[|s| - 1];
      assert s == rest + [last];
      InsertSnoc(rest, last, x);
      if !Before(last, x) {
        InsertKeepsTies(rest, x, timestamp);
        LeqIsTotal(last.timestamp, x.timestamp);
        WithTimestampSnoc(Insert(rest, x), last, timestamp);
        WithTimestampSnoc(rest, x, timestamp);
        WithTimestampSnoc(rest, last, timestamp);
        WithTimestampSnoc(s, x, timestamp);
        assert last.timestamp != x.timestamp by { LeqIsReflexive(x.timestamp); }
      }
    }
  }

  lemma {:induction false} LeqIsReflexive(s: seq<Byte>)
    ensures Leq(s, s)
  {
    if s != [] {
      LeqIsReflexive(s[1..]);
    }
  }

  /** Sorting orders the entries by timestamp and keeps all of them, and those of equal
      timestamp in their old order. */
  lemma {:induction false} StableSortIsAStableSort(s: seq<Entry>, timestamp: seq<Byte>)
    ensures Sorted(StableSort(s))
    ensures multiset(StableSort(s)) == multiset(s)
    ensures WithTimestamp(StableSort(s), timestamp) == WithTimestamp(s, timestamp)
  {
    hide Insert, WithTimestamp, Before;
    if s == [] {
    } else {
      var rest, last := s[..|s| - 1], s[|s| - 1];
      assert s == rest + [last];
      StableSortIsAStableSort(rest, timestamp);
      InsertKeepsOrder(StableSort(rest), last);
      InsertKeepsEntries(StableSort(rest), last);
      InsertKeepsTies(StableSort(rest), last, timestamp);
      WithTimestampSnoc(StableSort(rest), last, timestamp);
      WithTimestampSnoc(rest, last, timestamp);
    }
  }

  // ---- Merging ----

  /** The merge of two sorted lists, taken from the back; on a tie the second comes last. */
  function Merge(a: seq<Entry>, b: seq<Entry>): (r: seq<Entry>)
    ensures |r| == |a| + |b|
    decreases |a| + |b|
  {
    if a == [] then b
    else if b == [] then a
    else if Before(a[|a| - 1], b[|b| - 1]) then Merge(a, b[..|b| - 1]) + [b[|b| - 1]]
    else Merge(a[..|a| - 1], b) + [a[|a| - 1]]
  }

  lemma MergeNothing(a: seq<Entry>)
    ensures Merge(a, []) == a && Merge([], a) == a
  {
  }

  lemma MergeSnoc(a: seq<Entry>, x: Entry, b: seq<Entry>, y: Entry)
    ensures Merge(a + [x], b + [y])
         == if Before(x, y) then Merge(a + [x], b) + [y] else Merge(a, b + [y]) + [x]
  {
    Snoc(a, x);
    Snoc(b, y);
  }

  /** The latest entry of a merge ends one of the two lists. */
  lemma MergeEnds(a: seq<Entry>, x: Entry, b: seq<Entry>)
    requires b == [] || !Before(x, b[|b| - 1])
    ensures Merge(a + [x], b) == Merge(a, b) + [x]
  {
    Snoc(a, x);
    MergeNothing(a);
    MergeNothing(a + [x]);
  }

  lemma NotBefore(x: Entry, y: Entry, z: Entry)
    requires !Before(x, z) && Before(y, z)
    ensures !Before(x, y)
  {
    hide Leq;
    if Before(x, y) {
      LeqIsTransitive(x.timestamp, y.timestamp, z.timestamp);
    }
  }

  lemma {:induction false} MergeInsert(a: seq<Entry>, b: seq<Entry>, y: Entry)
    requires b != [] ==> Before(b[|b| - 1], y)
    ensures Insert(Merge(a, b), y) == Merge(a, b + [y])
    decreases |a|
  {
    hide Merge, Insert, Before;
    if a == [] {
      MergeNothing(b);
      MergeNothing(b + [y]);
      InsertLatest(b, y);
    } else {
      var rest, last := a[..|a| - 1], a[|a| - 1];
      assert a == rest + [last];
      MergeSnoc(rest, last, b, y);
      if Before(last, y) {
        MergeLatest(a, b, y);
        InsertLatest(Merge(a, b), y);
      } else {
        if b != [] {
          NotBefore(last, b[|b| - 1], y);
        }
        MergeEnds(rest, last, b);
        InsertSnoc(Merge(rest, b), last, y);
        MergeInsert(rest, b, y);
      }
    }
  }

  lemma InsertLatest(s: seq<Entry>, y: Entry)
    requires s != [] ==> Before(s[|s| - 1], y)
    ensures Insert(s, y) == s + [y]
  {
  }

  lemma MergeLatest(a: seq<Entry>, b: seq<Entry>, y: Entry)
    requires a != [] && Before(a[|a| - 1], y) && (b != [] ==> Before(b[|b| - 1], y))
    ensures Before(Merge(a, b)[|a| + |b| - 1], y)
  {
  }

  /** Sorting one sorted list after another is merging them. */
  lemma {:induction false} SortingIsMerging(a: seq<Entry>, b: seq<Entry>)
    requires Sorted(a) && Sorted(b)
    ensures StableSort(a + b) == Merge(a, b)
    decreases |a| + |b|
  {
    hide Merge, Insert, Before, StableSort;
    if b != [] {
      var rest, last := b[..|b| - 1], b[|b| - 1];
      assert b == rest + [last] && a + b == (a + rest) + [last];
      SortSnoc(a + rest, last);
      SortingIsMerging(a, rest);
      MergeInsert(a, rest, last);
    } else if a != [] {
      var rest, last := a[..|a| - 1], a[|a| - 1];
      assert a == rest + [last] && a + b == rest + [last] && rest + [] == rest;
      SortSnoc(rest, last);
      SortingIsMerging(rest, []);
      MergeNothing(rest);
      MergeNothing(a);
      InsertLatest(rest, last);
    } else {
      SortNothing();
      assert a + b == [];
      MergeNothing(a);
    }
  }

  lemma SortNothing()
    ensures StableSort([]) == []
  {
  }

  lemma SortSnoc(s: seq<Entry>, x: Entry)
    ensures StableSort(s + [x]) == Insert(StableSort(s), x)
  {
    Snoc(s, x);
  }

  /** The last entries of a merge come from the last entries of each list. */
  lemma {:induction false} LastOfMerge(a: seq<Entry>, b: seq<Entry>, p: nat, q: nat, n: nat)
    requires n <= p && n <= q
    ensures LastN(Merge(LastN(a, p), LastN(b, q)), n) == LastN(Merge(a, b), n)
    decreases |a| + |b|
  {
    hide Merge, Before, LastN;
    if n == 0 {
      LastNone(Merge(LastN(a, p), LastN(b, q)));
      LastNone(Merge(a, b));
    } else if a == [] {
      LastOfNothing(a, p);
      MergeNothing(LastN(b, q));
      MergeNothing(b);
      LastOfLast(b, q, n);
    } else if b == [] {
      LastOfNothing(b, q);
      MergeNothing(LastN(a, p));
      MergeNothing(a);
      LastOfLast(a, p, n);
    } else {
      var a1, x, b1, y := a[..|a| - 1], a[|a| - 1], b[..|b| - 1], b[|b| - 1];
      assert a == a1 + [x] && b == b1 + [y];
      LastNSnoc(a1, x, p);
      LastNSnoc(b1, y, q);
      MergeSnoc(a1, x, b1, y);
      MergeSnoc(LastN(a1, p - 1), x, LastN(b1, q - 1), y);
      if Before(x, y) {
        LastOfMerge(a, b1, p, q - 1, n - 1);
        LastNSnoc(Merge(a, b1), y, n);
        LastNSnoc(Merge(LastN(a, p), LastN(b1, q - 1)), y, n);
      } else {
        LastOfMerge(a1, b, p - 1, q, n - 1);
        LastNSnoc(Merge(a1, b), x, n);
        LastNSnoc(Merge(LastN(a1, p - 1), LastN(b, q)), x, n);
      }
    }
  }

  // ---- read_merged_logs_for_paths ----

  function Content(file: Option<seq<Byte>>): seq<seq<Byte>> {
    if file.None? then [] else CompleteLines(file.value)
  }

  function AllLines(file: Option<seq<Byte>>): seq<seq<Byte>> {
    if file.None? then [] else Lines(file.value)
  }

  method AppendEntries(entries: seq<Entry>, stream: Stream, lines: seq<seq<Byte>>) returns (r: seq<Entry>)
    ensures r == entries + Entries(stream, lines)
  {
    r := entries;
    for i := 0 to |lines|
      invariant r == entries + Entries(stream, lines)[..i]
    {
      r := r + [ParseLogLine(stream, lines[i])];
    }
  }

  /** The last n of the stably sorted entries of the two tails. */
  function OfTails(out: Option<seq<Byte>>, err: Option<seq<Byte>>, n: nat): seq<Entry> {
    LastN(StableSort(Entries(Stdout, LastN(Content(out), Clamp(n)))
                     + Entries(Stderr, LastN(Content(err), Clamp(n)))), n)
  }

  /** Every entry shown is a line of the tail of its own stream. */
  lemma EntriesAreLinesOfTheirStream(out: Option<seq<Byte>>, err: Option<seq<Byte>>, n: nat, e: Entry)
    requires e in OfTails(out, err, n)
    ensures exists line :: line in Content(if e.stream == Stdout then out else err) && e == ParseLogLine(e.stream, line)
  {
    hide Content, StableSort;
    var all := Entries(Stdout, LastN(Content(out), Clamp(n))) + Entries(Stderr, LastN(Content(err), Clamp(n)));
    StableSortIsAStableSort(all, []);
    assert e in multiset(StableSort(all));
    if e in Entries(Stdout, LastN(Content(out), Clamp(n))) {
      EntryIsLine(Stdout, Content(out), Clamp(n), e);
    } else {
      EntryIsLine(Stderr, Content(err), Clamp(n), e);
    }
  }

  lemma EntryIsLine(stream: Stream, lines: seq<seq<Byte>>, n: nat, e: Entry)
    requires e in Entries(stream, LastN(lines, n))
    ensures e.stream == stream && exists line :: line in lines && e == ParseLogLine(stream, line)
  {
    var i :| 0 <= i < |LastN(lines, n)| && e == ParseLogLine(stream, LastN(lines, n)[i]);
    assert LastN(lines, n)[i] in lines;
  }

  /** The last n of the stably sorted entries of the two whole files. */
  function OfFiles(out: Option<seq<Byte>>, err: Option<seq<Byte>>, n: nat): seq<Entry> {
    LastN(StableSort(Entries(Stdout, AllLines(out)) + Entries(Stderr, AllLines(err))), n)
  }

  method ReadMergedLogs(out: Option<seq<Byte>>, err: Option<seq<Byte>>, n: nat) returns (r: seq<Entry>)
    ensures r == OfTails(out, err, n)
  {
    hide Entries, LastN, CompleteLines, StableSort;
    NoContent(Clamp(n));
    var lines := ReadLastLines(out, n);
    var entries := AppendEntries([], Stdout, lines);
    assert entries == Entries(Stdout, lines);
    lines := ReadLastLines(err, n);
    entries := AppendEntries(entries, Stderr, lines);
    entries := StableSort(entries);
    r := LastN(entries, n);
  }

  lemma NoContent(n: nat)
    ensures LastN(Content(None), n) == []
  {
  }

  lemma EntriesOfLast(stream: Stream, lines: seq<seq<Byte>>, n: nat)
    ensures Entries(stream, LastN(lines, n)) == LastN(Entries(stream, lines), n)
  {
  }

  predicate TailHolds(file: Option<seq<Byte>>, n: nat) {
    file.None? || TailSuffices(file.value, n)
  }

  lemma LastOfContent(file: Option<seq<Byte>>, n: nat)
    requires TailHolds(file, n)
    ensures LastN(Content(file), n) == LastN(AllLines(file), n)
  {
    hide Lines, CompleteLines, LastN;
    if file.Some? {
      var before := ReadsTheLastLines(file.value, n);
    }
  }

  /** When each log is in time order and its tail holds enough lines, merging the two tails
      gives the last entries of the stable merge of the whole files. */
  lemma TailsAreEnough(out: Option<seq<Byte>>, err: Option<seq<Byte>>, n: nat)
    requires n <= MAX_LOG_LINES && TailHolds(out, Clamp(n)) && TailHolds(err, Clamp(n))
    requires Sorted(Entries(Stdout, AllLines(out))) && Sorted(Entries(Stderr, AllLines(err)))
    ensures OfTails(out, err, n) == OfFiles(out, err, n)
  {
    hide Content, AllLines, StableSort, Merge, TailHolds;
    var a, b, m := Entries(Stdout, AllLines(out)), Entries(Stderr, AllLines(err)), Clamp(n);
    LastOfContent(out, m);
    LastOfContent(err, m);
    EntriesOfLast(Stdout, AllLines(out), m);
    EntriesOfLast(Stderr, AllLines(err), m);
    SortingIsMerging(a, b);
    SortingIsMerging(LastN(a, m), LastN(b, m));
    LastOfMerge(a, b, m, m, n);
  }

  lemma SortKeepsLength(s: seq<Entry>)
    ensures |StableSort(s)| == |s|
  {
    StableSortIsAStableSort(s, []);
    assert |multiset(StableSort(s))| == |multiset(s)|;
  }

  /** For one log on its own that is exact: a tail that holds too few lines loses entries. */
  lemma OneLogIsReadIff(file: seq<Byte>, n: nat)
    requires 1 <= n <= MAX_LOG_LINES && Sorted(Entries(Stdout, Lines(file)))
    ensures OfTails(Some(file), None, n) == OfFiles(Some(file), None, n) <==> TailSuffices(file, n)
  {
    if TailSuffices(file, n) {
      TailsAreEnough(Some(file), None, n);
    } else {
      hide Lines, CompleteLines, StableSort, TailSuffices;
      var before := ReadsTheLastLines(file, n);
      assert |before| + |CompleteLines(file)| == |Lines(file)|;
      ShortTail(file, n);
    }
  }

  lemma ShortTail(file: seq<Byte>, n: nat)
    requires 1 <= n <= MAX_LOG_LINES && |CompleteLines(file)| < n && |CompleteLines(file)| < |Lines(file)|
    ensures |OfTails(Some(file), None, n)| < |OfFiles(Some(file), None, n)|
  {
    hide Lines, CompleteLines, StableSort;
    SortKeepsLength(Entries(Stdout, LastN(CompleteLines(file), n)) + Entries(Stderr, LastN([], n)));
    SortKeepsLength(Entries(Stdout, Lines(file)) + Entries(Stderr, []));
  }

  /** The input: a log of more than 8 MiB without a line feed, of which nothing is shown. */
  lemma OneLongLineIsMissed()
    ensures var file: seq<Byte> := seq(MAX_TAIL_BYTES + 1, _ => SPACE);
      OfTails(Some(file), None, 1) == [] && OfFiles(Some(file), None, 1) == [Entry(Stdout, [], file)]
  {
    hide Lines, CompleteLines;
    var file: seq<Byte> := seq(MAX_TAIL_BYTES + 1, _ => SPACE);
    OneLongLine(file);
    assert Entries(Stdout, LastN([], 1)) + Entries(Stderr, LastN([], 1)) == [];
    assert Entries(Stdout, [file]) + Entries(Stderr, []) == [] + [ParseLogLine(Stdout, file)];
    SortSnoc([], ParseLogLine(Stdout, file));
  }

  lemma SortsUpward(x: Entry, y: Entry)
    requires Before(x, y) && !Before(y, x)
    ensures StableSort([x] + [y]) == [x] + [y] && StableSort([y] + [x]) == [x] + [y]
  {
    hide Insert;
    SortSnoc([x], y);
    SortSnoc([y], x);
    SortSnoc([], x);
    SortSnoc([], y);
    assert [] + [x] == [x] && [] + [y] == [y];
    InsertLatest([], x);
    InsertLatest([], y);
    InsertLatest([x], y);
    InsertSnoc([], y, x);
  }

  /** Out of order it can differ: the latest entry may lie outside the tail. */
  lemma UnsortedTailsCanMiss()
    ensures var late, early, middle :=
        Entry(Stdout, [9], []), Entry(Stdout, [1], []), Entry(Stderr, [5], []);
      LastN(StableSort(LastN([late, early], 1) + LastN([middle], 1)), 1)
        != LastN(StableSort([late, early] + [middle]), 1)
  {
    hide Insert, StableSort;
    var late, early, middle := Entry(Stdout, [9], []), Entry(Stdout, [1], []), Entry(Stderr, [5], []);
    assert LastN([late, early], 1) + LastN([middle], 1) == [early] + [middle];
    assert [late, early] + [middle] == ([late] + [early]) + [middle];
    SortsUpward(early, middle);
    SortsUpward(early, late);
    SortSnoc([late] + [early], middle);
    InsertSnoc([early], late, middle);
  }
}
