/** Splitting the output of a child process into bounded lines while it arrives in chunks
    (src/process/runner.rs, src/tunnel/mod.rs). */
module OutputLines {
  import opened Sequences
  import opened Wrappers
  import opened TailReader

  const MAX_LINE_BYTES: nat := 64 * 1024

  // ---- What the whole stream amounts to ----

  datatype Line = Line(content: seq<Byte>, truncated: bool)

  function Cut(piece: seq<Byte>): seq<Byte> {
    if |piece| <= MAX_LINE_BYTES then piece else piece[..MAX_LINE_BYTES]
  }

  /** The lines of a stream, each cut at 64 KiB; `ended` tells the end of the stream from a
      failing read, which drops an unterminated line. */
  function Emitted(s: seq<Byte>, ended: bool): seq<Line>
    decreases |s|
  {
    if s == [] then []
    else match Find(s, LF)
      case None => if ended then [Line(Cut(s), |s| > MAX_LINE_BYTES)] else []
      case Some(i) => [Line(WithoutCr(Cut(s[..i])), i > MAX_LINE_BYTES)] + Emitted(s[i + 1..], ended)
  }

  // ---- A buffered reader ----

  /** What fill_buf and consume see: the rest of the current chunk, and the chunks to come. */
  class Reader {
    var buffer: seq<Byte>
    var chunks: seq<seq<Byte>>
    const fails: bool

    constructor (chunks: seq<seq<Byte>>, fails: bool)
      requires forall i :: 0 <= i < |chunks| ==> chunks[i] != []
      ensures Valid() && Remaining() == Flatten(chunks) && this.fails == fails
    {
      this.buffer, this.chunks, this.fails := [], chunks, fails;
    }

    ghost predicate Valid()
      reads this
    {
      forall i :: 0 <= i < |chunks| ==> chunks[i] != []
    }

    ghost function Remaining(): seq<Byte>
      reads this
    {
      buffer + Flatten(chunks)
    }

    method FillBuf() returns (ok: bool)
      requires Valid()
      modifies this
      ensures Valid() && Remaining() == old(Remaining())
      ensures buffer == [] <==> Remaining() == []
      ensures ok <==> buffer != [] || !fails
    {
      if buffer == [] && chunks != [] {
        buffer, chunks := chunks[0], chunks[1..];
      }
      ok := buffer != [] || !fails;
    }

    method Consume(n: nat)
      requires Valid() && n <= |buffer|
      modifies this
      ensures Valid() && n <= |old(Remaining())| && Remaining() == old(Remaining())[n..]
    {
      buffer := buffer[n..];
    }
  }

  // ---- forward_bounded_output ----

  /** The line buffer holds what may be kept of a piece. */
  predicate Holds(line: seq<Byte>, truncated: bool, piece: seq<Byte>) {
    line == Cut(piece) && (truncated <==> |piece| > MAX_LINE_BYTES)
  }

  function Copied(line: seq<Byte>, length: nat): (n: nat)
    ensures n <= length
  {
    var remaining := if |line| < MAX_LINE_BYTES then MAX_LINE_BYTES - |line| else 0;
    if length < remaining then length else remaining
  }

  lemma HoldsMore(line: seq<Byte>, truncated: bool, piece: seq<Byte>, content: seq<Byte>)
    requires Holds(line, truncated, piece)
    ensures var n := Copied(line, |content|);
      Holds(line + content[..n], truncated || n < |content|, piece + content)
  {
  }

  lemma FirstFeed(piece: seq<Byte>, rest: seq<Byte>, n: nat)
    requires Find(piece, LF).None? && Find(rest, LF) == Some(n)
    ensures Find(piece + rest, LF) == Some(|piece| + n)
    ensures (piece + rest)[..|piece| + n] == piece + rest[..n]
    ensures (piece + rest)[|piece| + n + 1..] == rest[n + 1..]
  {
    hide Find;
    FindInSuffix(piece, rest, LF);
    SplitSuffix(piece, rest, n);
    SplitSuffix(piece, rest, n + 1);
  }

  lemma EmitAt(piece: seq<Byte>, rest: seq<Byte>, n: nat, ended: bool)
    requires Find(piece, LF).None? && Find(rest, LF) == Some(n)
    ensures Emitted(piece + rest, ended)
         == [Line(WithoutCr(Cut(piece + rest[..n])), |piece + rest[..n]| > MAX_LINE_BYTES)]
            + Emitted(rest[n + 1..], ended)
  {
    hide Find, WithoutCr, Cut;
    FirstFeed(piece, rest, n);
  }

  /** The next line feed ends the line that began with the piece. */
  lemma EmitLine(
    line: seq<Byte>, truncated: bool, piece: seq<Byte>, available: seq<Byte>, later: seq<Byte>, ended: bool)
    requires Find(piece, LF).None? && Find(available, LF).Some?
    requires Holds(line, truncated, piece + available[..Find(available, LF).value])
    ensures var n := Find(available, LF).value;
      Emitted(piece + (available + later), ended)
        == [Line(WithoutCr(line), truncated)] + Emitted((available + later)[n + 1..], ended)
  {
    hide Find, WithoutCr, Cut;
    var n := Find(available, LF).value;
    FindInPrefix(available, later, LF);
    SplitPrefix(available, later, n);
    EmitAt(piece, available + later, n, ended);
  }

  lemma KeepPiece(piece: seq<Byte>, available: seq<Byte>, later: seq<Byte>)
    requires Find(piece, LF).None? && Find(available, LF).None?
    ensures Find(piece + available, LF).None?
    ensures piece + (available + later) == (piece + available) + (available + later)[|available|..]
  {
    hide Find;
    FindInSuffix(piece, available, LF);
    SplitPrefix(available, later, |available|);
    assert available[|available|..] + later == later;
    Regroup(piece, available, later);
  }

  /** However the stream is cut into chunks, the lines are those of the whole stream. */
  method ForwardBoundedOutput(reader: Reader) returns (lines: seq<Line>)
    requires reader.Valid()
    modifies reader
    ensures lines == Emitted(old(reader.Remaining()), !reader.fails)
  {
    hide Find, Emitted, Flatten, Holds, Cut, Copied, WithoutCr;
    ghost var all, piece := reader.Remaining(), [];
    var line: seq<Byte>, truncated := [], false;
    lines := [];
    Begin(all);
    assert [] + Emitted([] + all, !reader.fails) == Emitted(all, !reader.fails);
    while true
      invariant reader.Valid() && Find(piece, LF).None? && Holds(line, truncated, piece)
      invariant Emitted(all, !reader.fails) == lines + Emitted(piece + reader.Remaining(), !reader.fails)
      decreases |reader.Remaining()|
    {
      var ok := reader.FillBuf();
      var available := reader.buffer;
      if available == [] {
        Finish(line, truncated, piece, reader.Remaining(), !reader.fails);
        if ok && (line != [] || truncated) {
          lines := lines + [Line(line, truncated)];
        }
        return;
      }
      ghost var later := Flatten(reader.chunks);
      var newline := Find(available, LF);
      var consumed := if newline.Some? then newline.value + 1 else |available|;
      var contentLength := if newline.Some? then newline.value else consumed;
      var content := available[..contentLength];
      HoldsMore(line, truncated, piece, content);
      var copied := Copied(line, contentLength);
      line := line + content[..copied];
      truncated := truncated || copied < contentLength;
      reader.Consume(consumed);
      if newline.Some? {
        EmitLine(line, truncated, piece, available, later, !reader.fails);
        line := WithoutCr(line);
        Regroup(lines, [Line(line, truncated)], Emitted(reader.Remaining(), !reader.fails));
        lines := lines + [Line(line, truncated)];
        line, truncated, piece := [], false, [];
        Begin(reader.Remaining());
      } else {
        assert content == available;
        KeepPiece(piece, available, later);
        piece := piece + content;
      }
    }
  }

  lemma Begin(all: seq<Byte>)
    ensures Find([], LF).None? && Holds([], false, []) && [] + all == all
  {
  }

  lemma Finish(line: seq<Byte>, truncated: bool, piece: seq<Byte>, rest: seq<Byte>, ended: bool)
    requires rest == [] && Find(piece, LF).None? && Holds(line, truncated, piece)
    ensures Emitted(piece + rest, ended) == if ended && (line != [] || truncated) then [Line(line, truncated)] else []
  {
    assert piece + rest == piece;
  }

  /** A forwarded line is a line of the text, or, if truncated, its first 64 KiB (of which a
      carriage return at the cut is dropped). Only lines of that size are truncated, and all
      longer ones are. */
  predicate Shows(line: Line, text: seq<Byte>) {
    && line.content <= text && |line.content| <= MAX_LINE_BYTES
    && (!line.truncated ==> line.content == text)
    && (line.truncated ==> |line.content| >= MAX_LINE_BYTES - 1 && |text| >= MAX_LINE_BYTES)
  }

  /** Line by line, the forwarded output is the lines of the text. */
  lemma {:induction false} ForwardedLinesAreTheLines(s: seq<Byte>)
    ensures |Emitted(s, true)| == |Lines(s)|
    ensures forall i :: 0 <= i < |Lines(s)| ==> Shows(Emitted(s, true)[i], Lines(s)[i])
    decreases |s|
  {
    hide *;
    if s == [] {
      NothingToShow();
    } else if Find(s, LF).None? {
      LastLineShows(s);
    } else {
      var i := Find(s, LF).value;
      ForwardedLinesAreTheLines(s[i + 1..]);
      FirstLineShows(s, i);
    }
  }

  lemma NothingToShow()
    ensures Emitted([], true) == [] && Lines([]) == []
  {
  }

  lemma FirstLineShows(s: seq<Byte>, i: nat)
    requires Find(s, LF) == Some(i)
    ensures Emitted(s, true) != [] && Lines(s) != [] && Shows(Emitted(s, true)[0], Lines(s)[0])
    ensures Emitted(s, true)[1..] == Emitted(s[i + 1..], true) && Lines(s)[1..] == Lines(s[i + 1..])
  {
    hide Find, WithoutCr, Cut, Shows;
    LinesUnfold(s, i);
    CutLineShows(s[..i]);
  }

  lemma LastLineShows(piece: seq<Byte>)
    requires piece != [] && Find(piece, LF).None?
    ensures |Emitted(piece, true)| == |Lines(piece)| == 1 && Shows(Emitted(piece, true)[0], Lines(piece)[0])
  {
  }

  lemma CutLineShows(piece: seq<Byte>)
    ensures Shows(Line(WithoutCr(Cut(piece)), |piece| > MAX_LINE_BYTES), WithoutCr(piece))
  {
    CutIsPrefix(piece);
  }

  lemma CutIsPrefix(piece: seq<Byte>)
    ensures WithoutCr(Cut(piece)) <= WithoutCr(piece)
  {
  }

  // ---- read_bounded_output_line ----

  datatype BoundedLine = Text(content: seq<Byte>) | Oversized | Eof | ReadError

  /** The first line of a stream and what follows it. */
  function FirstLine(s: seq<Byte>, fails: bool): (BoundedLine, seq<Byte>) {
    match Find(s, LF)
    case Some(i) => (if i > MAX_LINE_BYTES then Oversized else Text(WithoutCr(s[..i])), s[i + 1..])
    case None =>
      (if fails then ReadError
       else if s == [] then Eof
       else if |s| > MAX_LINE_BYTES then Oversized
       else Text(WithoutCr(s)), [])
  }

  /** The part of a line read so far: kept whole, or given up once it is over the limit. */
  predicate Gathers(line: seq<Byte>, oversized: bool, piece: seq<Byte>) {
    (oversized <==> |piece| > MAX_LINE_BYTES) && (!oversized ==> line == piece)
  }

  function Gathered(line: seq<Byte>, oversized: bool): BoundedLine {
    if oversized then Oversized else Text(WithoutCr(line))
  }

  lemma LineComplete(line: seq<Byte>, oversized: bool, piece: seq<Byte>, available: seq<Byte>, later: seq<Byte>,
      fails: bool)
    requires Find(piece, LF).None? && Find(available, LF).Some?
    requires Gathers(line, oversized, piece + available[..Find(available, LF).value])
    ensures FirstLine(piece + (available + later), fails)
         == (Gathered(line, oversized), (available + later)[Find(available, LF).value + 1..])
  {
    hide Find, WithoutCr;
    var n := Find(available, LF).value;
    FindInPrefix(available, later, LF);
    SplitPrefix(available, later, n);
    FirstFeed(piece, available + later, n);
  }

  lemma StreamOver(line: seq<Byte>, oversized: bool, piece: seq<Byte>, rest: seq<Byte>, fails: bool)
    requires Find(piece, LF).None? && Gathers(line, oversized, piece) && rest == []
    ensures FirstLine(piece + rest, fails)
         == (if fails then ReadError else if line == [] && !oversized then Eof else Gathered(line, oversized), [])
  {
    assert piece + rest == piece;
  }

  method ReadBoundedOutputLine(reader: Reader) returns (r: BoundedLine)
    requires reader.Valid()
    modifies reader
    ensures reader.Valid()
    ensures (r, reader.Remaining()) == FirstLine(old(reader.Remaining()), reader.fails)
  {
    hide Find, Flatten, FirstLine, Gathered, WithoutCr;
    ghost var all, piece := reader.Remaining(), [];
    var line: seq<Byte>, oversized := [], false;
    Begin(all);
    while true
      invariant reader.Valid() && Find(piece, LF).None? && Gathers(line, oversized, piece)
      invariant all == piece + reader.Remaining()
      decreases |reader.Remaining()|
    {
      var ok := reader.FillBuf();
      var available := reader.buffer;
      if available == [] {
        StreamOver(line, oversized, piece, reader.Remaining(), reader.fails);
        if !ok {
          return ReadError;
        }
        if line == [] && !oversized {
          return Eof;
        }
        break;
      }
      ghost var later := Flatten(reader.chunks);
      var newline := Find(available, LF);
      var consumed := if newline.Some? then newline.value + 1 else |available|;
      var content := if newline.Some? then available[..newline.value] else available;
      if !oversized {
        if |line| + |content| > MAX_LINE_BYTES {
          oversized := true;
        } else {
          line := line + content;
        }
      }
      reader.Consume(consumed);
      if newline.Some? {
        LineComplete(line, oversized, piece, available, later, reader.fails);
        break;
      }
      KeepPiece(piece, available, later);
      piece := piece + content;
    }
    return Gathered(line, oversized);
  }

  /** A line that is returned is the next line of the text; only an unterminated last line
      loses a carriage return the text would keep. */
  lemma FirstLineIsALine(s: seq<Byte>)
    requires FirstLine(s, false).0.Text?
    ensures var (line, rest) := FirstLine(s, false);
      && s != []
      && Lines(s) == [if Find(s, LF).Some? then line.content else s] + Lines(rest)
      && (Find(s, LF).None? ==> line.content == WithoutCr(s))
  {
  }

  /** What is returned for the first line: the line if it is below the limit, that it is
      oversized if it is above; and in either case reading goes on with the next line. Eof and
      the error come only where no line is left. */
  lemma FirstLineIsReported(s: seq<Byte>, fails: bool)
    requires s != [] && (fails ==> Find(s, LF).Some?)
    ensures var (r, rest) := FirstLine(s, fails);
      && Lines(s) != [] && Lines(rest) == Lines(s)[1..]
      && (|Lines(s)[0]| < MAX_LINE_BYTES ==> r.Text?)
      && (|Lines(s)[0]| > MAX_LINE_BYTES ==> r == Oversized)
      && (r.Text? || r == Oversized)
  {
  }

  lemma NoLineIsLeft(s: seq<Byte>, fails: bool)
    requires s == [] || (fails && Find(s, LF).None?)
    ensures FirstLine(s, fails) == (if fails then ReadError else Eof, [])
  {
  }
}
