/** Reading the end of a log file backwards, chunk by chunk, and merging the ends of two
    (src/logging/reader.rs). Text is bytes: decoding replaces bytes inside a line but never
    adds or removes a line feed. */
module TailReader {
  import opened Sequences
  import opened Wrappers

  const LF: Byte := 10
  const CR: Byte := 13

  const MAX_LOG_LINES: nat := 5_000
  const MAX_TAIL_BYTES: nat := 8 * 1024 * 1024
  const TAIL_CHUNK_BYTES: nat := 64 * 1024

  // ---- Lines ----

  /** A carriage return before a line feed belongs to the line ending. */
  function WithoutCr(line: seq<Byte>): seq<Byte> {
    if line != [] && line[|line| - 1] == CR then line[..|line| - 1] else line
  }

  /** The lines of a text. The last one need not be terminated, and is not if it is empty. */
  function Lines(s: seq<Byte>): seq<seq<Byte>>
    decreases |s|
  {
    if s == [] then []
    else match Find(s, LF)
      case None => [s]
      case Some(i) => [WithoutCr(s[..i])] + Lines(s[i + 1..])
  }

  function Newlines(s: seq<Byte>): nat {
    if s == [] then 0 else (if s[0] == LF then 1 else 0) + Newlines(s[1..])
  }

  function Clamp(n: nat): nat {
    if n < 1 then 1 else if n > MAX_LOG_LINES then MAX_LOG_LINES else n
  }

  /** As many lines are read as are asked for, but at least one and at most 5,000. */
  lemma ClampIsNearest(n: nat)
    ensures 1 <= n <= 5_000 ==> Clamp(n) == n
    ensures n == 0 ==> Clamp(n) == 1
    ensures n > 5_000 ==> Clamp(n) == 5_000
  {
  }

  /** The complete lines within the last 8 MiB: all lines of a file that is not longer, else
      those after the first line feed. */
  function CompleteLines(file: seq<Byte>): seq<seq<Byte>> {
    if |file| <= MAX_TAIL_BYTES then Lines(file)
    else
      var lines := Lines(file[|file| - MAX_TAIL_BYTES..]);
      if lines == [] then [] else lines[1..]
  }

  lemma LinesUnfold(s: seq<Byte>, i: nat)
    requires i < |s| && s[i] == LF && forall j :: 0 <= j < i ==> s[j] != LF
    ensures Lines(s) == [WithoutCr(s[..i])] + Lines(s[i + 1..])
  {
    FindIs(s, LF, i);
  }

  /** A text of terminated lines, each ended in one of the two ways. */
  function Terminated(lines: seq<seq<Byte>>, ends: seq<bool>): seq<Byte>
    requires |ends| == |lines|
  {
    if lines == [] then [] else lines[0] + (if ends[0] then [CR, LF] else [LF]) + Terminated(lines[1..], ends[1..])
  }

  lemma TerminatedUnfold(lines: seq<seq<Byte>>, ends: seq<bool>, rest: seq<Byte>)
    requires |ends| == |lines| > 0
    ensures Terminated(lines, ends) + rest
         == lines[0] + (if ends[0] then [CR] else []) + [LF] + (Terminated(lines[1..], ends[1..]) + rest)
  {
  }

  lemma LineIsRead(line: seq<Byte>, more: seq<Byte>)
    requires LF !in line
    ensures Lines(line + [LF] + more) == [WithoutCr(line)] + Lines(more)
  {
    hide Lines, WithoutCr;
    var s := line + [LF] + more;
    assert s[|line|] == LF && s[..|line|] == line && s[|line| + 1..] == more;
    assert forall j :: 0 <= j < |line| ==> s[j] == line[j];
    LinesUnfold(s, |line|);
  }

  /** What a line is: whatever lines are written, with either line ending, are read again, and
      an unterminated rest is a line of its own. */
  lemma {:induction false} WrittenLinesAreRead(lines: seq<seq<Byte>>, ends: seq<bool>, rest: seq<Byte>)
    requires |ends| == |lines| && LF !in rest
    requires forall i :: 0 <= i < |lines| ==> LF !in lines[i]
    requires forall i :: 0 <= i < |lines| && !ends[i] ==> lines[i] == [] || lines[i][|lines[i]| - 1] != CR
    ensures Lines(Terminated(lines, ends) + rest) == lines + if rest == [] then [] else [rest]
    decreases |lines|
  {
    hide Lines, Find, Terminated;
    if lines == [] {
      NothingTerminated(ends);
      assert [] + rest == rest;
      UnterminatedLine(rest);
    } else {
      var line := lines[0] + if ends[0] then [CR] else [];
      assert WithoutCr(line) == lines[0];
      TerminatedUnfold(lines, ends, rest);
      LineIsRead(line, Terminated(lines[1..], ends[1..]) + rest);
      WrittenLinesAreRead(lines[1..], ends[1..], rest);
    }
  }

  lemma NothingTerminated(ends: seq<bool>)
    requires ends == []
    ensures Terminated([], ends) == []
  {
  }

  lemma UnterminatedLine(rest: seq<Byte>)
    requires LF !in rest
    ensures Lines(rest) == if rest == [] then [] else [rest]
  {
  }

  lemma OneLine(s: seq<Byte>)
    requires s != []
    ensures Lines(s) != [] && (Find(s, LF).None? ==> Lines(s) == [s])
  {
  }

  /** Whatever comes before a text only changes its first line. */
  lemma {:induction false} LinesAfterFirst(head: seq<Byte>, tail: seq<Byte>) returns (before: seq<seq<Byte>>)
    requires tail != []
    ensures before != [] && Lines(tail) != [] && Lines(head + tail) == before + Lines(tail)[1..]
    decreases |head|
  {
    hide Lines, Find, WithoutCr;
    var whole := head + tail;
    var i, j := Find(tail, LF), Find(head, LF);
    OneLine(tail);
    OneLine(whole);
    if i.None? {
      before := Lines(whole);
    } else if j.None? {
      var n := |head| + i.value;
      FindInSuffix(head, tail, LF);
      SplitSuffix(head, tail, i.value + 1);
      LinesUnfold(tail, i.value);
      LinesUnfold(whole, n);
      before := [WithoutCr(whole[..n])];
    } else {
      var rest := head[j.value + 1..];
      FindInPrefix(head, tail, LF);
      SplitPrefix(head, tail, j.value + 1);
      LinesUnfold(whole, j.value);
      var more := LinesAfterFirst(rest, tail);
      before := [WithoutCr(whole[..j.value])] + more;
      Regroup([WithoutCr(whole[..j.value])], more, Lines(tail)[1..]);
    }
  }

  lemma {:induction false} HasNewline(s: seq<Byte>)
    requires Newlines(s) > 0
    ensures Find(s, LF).Some?
  {
    if s[0] != LF {
      HasNewline(s[1..]);
    }
  }

  lemma {:induction false} NewlinesAppend(s: seq<Byte>, t: seq<Byte>)
    ensures Newlines(s + t) == Newlines(s) + Newlines(t)
  {
    if s == [] {
      assert s + t == t;
    } else {
      assert (s + t)[1..] == s[1..] + t;
      NewlinesAppend(s[1..], t);
    }
  }

  /** Every line feed ends a line. */
  lemma {:induction false} AsManyLinesAsNewlines(s: seq<Byte>)
    ensures |Lines(s)| >= Newlines(s)
    decreases |s|
  {
    match Find(s, LF) {
      case None =>
        if Newlines(s) > 0 {
          HasNewline(s);
        }
      case Some(i) =>
        assert s == s[..i] + ([LF] + s[i + 1..]);
        NewlinesAppend(s[..i], [LF] + s[i + 1..]);
        NoFeeds(s[..i]);
        assert ([LF] + s[i + 1..])[1..] == s[i + 1..];
        AsManyLinesAsNewlines(s[i + 1..]);
    }
  }

  lemma {:induction false} NoFeeds(s: seq<Byte>)
    requires forall i :: 0 <= i < |s| ==> s[i] != LF
    ensures Newlines(s) == 0
  {
    if s != [] {
      NoFeeds(s[1..]);
    }
  }

  lemma LastNOfSuffix<T>(before: seq<T>, suffix: seq<T>, n: nat)
    requires n <= |suffix|
    ensures LastN(before + suffix, n) == LastN(suffix, n)
  {
  }

  /** Enough line feeds in the tail make the rest of the text irrelevant. */
  lemma TailIsEnough(head: seq<Byte>, tail: seq<Byte>, n: nat)
    requires Newlines(tail) > n
    ensures Lines(tail) != [] && n <= |Lines(tail)[1..]|
    ensures LastN(Lines(tail)[1..], n) == LastN(Lines(head + tail), n)
  {
    var before := LinesAfterFirst(head, tail);
    AsManyLinesAsNewlines(tail);
    LastNOfSuffix(before, Lines(tail)[1..], n);
  }

  /** The same for a text that loses its own first line. */
  lemma TailIsEnoughAfterFirst(head: seq<Byte>, tail: seq<Byte>, n: nat)
    requires Newlines(tail) > n
    ensures Lines(tail) != [] && Lines(head + tail) != []
    ensures LastN(Lines(tail)[1..], n) == LastN(Lines(head + tail)[1..], n)
  {
    var before := LinesAfterFirst(head, tail);
    AsManyLinesAsNewlines(tail);
    hide Lines, LastN;
    assert (before + Lines(tail)[1..])[1..] == before[1..] + Lines(tail)[1..];
    LastNOfSuffix(before[1..], Lines(tail)[1..], n);
  }

  // ---- read_last_lines ----

  function Reverse(chunks: seq<seq<Byte>>): seq<seq<Byte>> {
    if chunks == [] then [] else [chunks[|chunks| - 1]] + Reverse(chunks[..|chunks| - 1])
  }

  lemma ChunkInFront(chunks: seq<seq<Byte>>, chunk: seq<Byte>)
    ensures Flatten(Reverse(chunks + [chunk])) == chunk + Flatten(Reverse(chunks))
  {
    var more := chunks + [chunk];
    assert more[..|more| - 1] == chunks;
    assert Reverse(more) == [chunk] + Reverse(chunks);
    assert ([chunk] + Reverse(chunks))[1..] == Reverse(chunks);
  }

  method CountNewlines(chunk: seq<Byte>) returns (count: nat)
    ensures count == Newlines(chunk)
  {
    count := 0;
    for i := 0 to |chunk|
      invariant count == Newlines(chunk[..i])
    {
      assert chunk[..i + 1] == chunk[..i] + [chunk[i]];
      NewlinesAppend(chunk[..i], [chunk[i]]);
      assert [chunk[i]][1..] == [];
      if chunk[i] == LF {
        count := count + 1;
      }
    }
    assert chunk[..|chunk|] == chunk;
  }

  /** The result does not depend on how the chunks fall. */
  method ReadLastLines(file: Option<seq<Byte>>, requested: nat) returns (r: seq<seq<Byte>>)
    ensures r == if file.None? then [] else LastN(CompleteLines(file.value), Clamp(requested))
  {
    if file.None? {
      return [];
    }
    hide Lines, Newlines, Flatten, Reverse, LastN;
    var content := file.value;
    var n := Clamp(requested);
    var position, newlineCount, bytesRead := |content|, 0, 0;
    var chunks: seq<seq<Byte>> := [];
    NothingRead(content);
    while position > 0 && newlineCount <= n && bytesRead < MAX_TAIL_BYTES
      invariant 0 <= position <= |content| && bytesRead == |content| - position <= MAX_TAIL_BYTES
      invariant newlineCount == Newlines(content[position..])
      invariant Flatten(Reverse(chunks)) == content[position..]
    {
      var chunkLength := position;
      if TAIL_CHUNK_BYTES < chunkLength {
        chunkLength := TAIL_CHUNK_BYTES;
      }
      if MAX_TAIL_BYTES - bytesRead < chunkLength {
        chunkLength := MAX_TAIL_BYTES - bytesRead;
      }
      ghost var before := position;
      position := position - chunkLength;
      var chunk := content[position..position + chunkLength];
      var count := CountNewlines(chunk);
      assert content[position..] == chunk + content[before..];
      NewlinesAppend(chunk, content[before..]);
      ChunkInFront(chunks, chunk);
      newlineCount := newlineCount + count;
      bytesRead := bytesRead + chunkLength;
      chunks := chunks + [chunk];
    }
    var bytes := Flatten(Reverse(chunks));
    var lines := Lines(bytes);
    StopsInTime(content, position, n);
    if position > 0 && lines != [] {
      lines := lines[1..];
    }
    r := LastN(lines, n);
  }

  lemma NothingRead(content: seq<Byte>)
    ensures content[|content|..] == [] && Newlines([]) == 0 && Flatten(Reverse([])) == []
  {
  }

  /** Wherever the loop stops, what it has read decides the result. */
  lemma StopsInTime(content: seq<Byte>, position: nat, n: nat)
    requires position <= |content| && |content| - position <= MAX_TAIL_BYTES && n >= 1
    requires position == 0 || Newlines(content[position..]) > n || |content| - position == MAX_TAIL_BYTES
    ensures var lines := Lines(content[position..]);
      LastN(if position > 0 && lines != [] then lines[1..] else lines, n) == LastN(CompleteLines(content), n)
  {
    hide Lines, Newlines, LastN;
    var tail := content[position..];
    if position == 0 {
      assert tail == content;
    } else if Newlines(tail) > n {
      if |content| <= MAX_TAIL_BYTES {
        assert content == content[..position] + tail;
        TailIsEnough(content[..position], tail, n);
      } else {
        var head := content[|content| - MAX_TAIL_BYTES..position];
        assert content[|content| - MAX_TAIL_BYTES..] == head + tail;
        TailIsEnoughAfterFirst(head, tail, n);
      }
    }
  }

  /** The tail decides the last lines of the file: it holds the whole file or enough lines. */
  predicate TailSuffices(file: seq<Byte>, n: nat) {
    |file| <= MAX_TAIL_BYTES || |CompleteLines(file)| >= n
  }

  lemma LongerHasMore<T>(before: seq<T>, suffix: seq<T>, n: nat)
    requires before != [] && |suffix| < n
    ensures LastN(before + suffix, n) != LastN(suffix, n)
  {
    assert |LastN(before + suffix, n)| > |suffix|;
  }

  /** What is read are the last complete lines within the last 8 MiB, and these are the last
      lines of the file exactly if 8 MiB hold the whole file or enough lines. */
  lemma ReadsTheLastLines(file: seq<Byte>, n: nat) returns (before: seq<seq<Byte>>)
    ensures Lines(file) == before + CompleteLines(file)
    ensures LastN(CompleteLines(file), n) == LastN(Lines(file), n) <==> TailSuffices(file, n)
    ensures |file| > MAX_TAIL_BYTES && Newlines(file[|file| - MAX_TAIL_BYTES..]) > n ==> TailSuffices(file, n)
  {
    hide Lines, Newlines, LastN;
    before := [];
    if |file| > MAX_TAIL_BYTES {
      var head, tail := file[..|file| - MAX_TAIL_BYTES], file[|file| - MAX_TAIL_BYTES..];
      assert file == head + tail;
      before := LinesAfterFirst(head, tail);
      AsManyLinesAsNewlines(tail);
      if |CompleteLines(file)| >= n {
        LastNOfSuffix(before, CompleteLines(file), n);
      } else {
        LongerHasMore(before, CompleteLines(file), n);
      }
    }
  }

  /** A file that is one line of more than 8 MiB seems to have no line. */
  lemma OneLongLine(file: seq<Byte>)
    requires |file| > MAX_TAIL_BYTES && forall i :: 0 <= i < |file| ==> file[i] != LF
    ensures CompleteLines(file) == [] && Lines(file) == [file]
  {
    hide Lines;
    var tail := file[|file| - MAX_TAIL_BYTES..];
    OneLine(file);
    OneLine(tail);
    assert Find(file, LF).None? && Find(tail, LF).None?;
  }
}
