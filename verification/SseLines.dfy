/** Reading server-sent log lines from chunks of bytes (src/client/daemon_client.rs). Each chunk
    is decoded on its own; limits count bytes of UTF-8. */
module SseLines {
  import opened Sequences
  import opened Wrappers
  import opened Utf8
  import opened Utf8Decoding

  const MAX_BUFFER_BYTES: nat := 1024 * 1024

  const PREFIX := "data: "

  /** The payload of a line, if it carries one. */
  function Payload(line: string): seq<string> {
    var trimmed := Trim(line);
    if PREFIX <= trimmed then [trimmed[|PREFIX|..]] else []
  }

  /** What the whole text amounts to: the payloads of its terminated lines, up to the first
      line over the limit, and whether there is none. */
  function Delivered(text: string): (seq<string>, bool)
    decreases |text|
  {
    match Find(text, '\n')
    case None => ([], Bytes(text) <= MAX_BUFFER_BYTES)
    case Some(i) =>
      if Bytes(text[..i]) > MAX_BUFFER_BYTES then ([], false)
      else (Payload(text[..i]) + Delivered(text[i + 1..]).0, Delivered(text[i + 1..]).1)
  }

  function Then(payloads: seq<string>, more: (seq<string>, bool)): (seq<string>, bool) {
    (payloads + more.0, more.1)
  }

  lemma DeliveredLine(text: string, i: nat, later: string)
    requires Find(text, '\n') == Some(i)
    ensures Delivered(text + later)
         == if Bytes(text[..i]) > MAX_BUFFER_BYTES then ([], false)
            else Then(Payload(text[..i]), Delivered(text[i + 1..] + later))
  {
    hide Find, Payload, Bytes;
    FindInPrefix(text, later, '\n');
    SplitPrefix(text, later, i);
    SplitPrefix(text, later, i + 1);
  }

  /** A line already over the limit fails however it continues. */
  lemma TooLongAlready(text: string, later: string)
    requires Find(text, '\n').None? && Bytes(text) > MAX_BUFFER_BYTES
    ensures Delivered(text + later) == ([], false)
  {
    var s := text + later;
    var end := Find(s, '\n');
    var line := if end.Some? then s[..end.value] else s;
    assert line == text + line[|text|..];
    BytesAppend(text, line[|text|..]);
  }

  lemma ThenThen(a: seq<string>, b: seq<string>, more: (seq<string>, bool))
    ensures Then(a, Then(b, more)) == Then(a + b, more)
  {
    Regroup(a, b, more.0);
  }

  lemma ThenNothing(a: seq<string>, ok: bool)
    ensures Then(a, ([], ok)) == (a, ok)
  {
    assert a + [] == a;
  }

  /** drain_sse_lines: deliver every terminated line of the buffer. `later` is any text still
      to come. */
  method DrainSseLines(buffer: string, delivered: seq<string>, ghost later: string)
    returns (rest: string, payloads: seq<string>, ok: bool)
    ensures ok ==> Then(delivered, Delivered(buffer + later)) == Then(payloads, Delivered(rest + later))
    ensures ok ==> Find(rest, '\n').None? && Bytes(rest) <= MAX_BUFFER_BYTES
    ensures !ok ==> Then(delivered, Delivered(buffer + later)) == (payloads, false)
  {
    hide Delivered, Find, Bytes, Payload;
    rest, payloads := buffer, delivered;
    while true
      invariant Then(delivered, Delivered(buffer + later)) == Then(payloads, Delivered(rest + later))
      decreases |rest|
    {
      var end := Find(rest, '\n');
      if end.None? {
        break;
      }
      DeliveredLine(rest, end.value, later);
      var line := rest[..end.value];
      if Bytes(line) > MAX_BUFFER_BYTES {
        ThenNothing(payloads, false);
        return rest, payloads, false;
      }
      ThenThen(payloads, Payload(line), Delivered(rest[end.value + 1..] + later));
      rest := rest[end.value + 1..];
      payloads := payloads + Payload(line);
    }
    ok := Bytes(rest) <= MAX_BUFFER_BYTES;
    if !ok {
      TooLongAlready(rest, later);
      ThenNothing(payloads, false);
    }
  }

  /** stream_logs: what is delivered, and whether it ends with a size error, depends only on
      the chunks decoded one by one; and if no chunk ends inside a character, only on the bytes
      as a whole, however they are cut into chunks. */
  method StreamLogs(chunks: seq<seq<Byte>>) returns (delivered: seq<string>, ok: bool)
    ensures (delivered, ok) == Delivered(DecodeApart(chunks))
    ensures Uncut(chunks) ==> (delivered, ok) == Delivered(Decode(Flatten(chunks)))
  {
    hide Delivered, Find, Bytes, Decode, Uncut;
    var buffer := "";
    delivered := [];
    ghost var all := DecodeApart(chunks);
    Start(chunks);
    ChunksDecodeIff(chunks);
    for i := 0 to |chunks|
      invariant Delivered(all) == Then(delivered, Delivered(buffer + DecodeApart(chunks[i..])))
      invariant Find(buffer, '\n').None? && Bytes(buffer) <= MAX_BUFFER_BYTES
    {
      ghost var later := DecodeApart(chunks[i + 1..]);
      NextChunk(buffer, chunks, i);
      buffer, delivered, ok := DrainSseLines(buffer + Decode(chunks[i]), delivered, later);
      if !ok {
        return;
      }
    }
    Stop(buffer, chunks);
    ThenNothing(delivered, true);
    return delivered, true;
  }

  lemma Start(chunks: seq<seq<Byte>>)
    ensures Delivered(DecodeApart(chunks)) == Then([], Delivered("" + DecodeApart(chunks[0..])))
    ensures Find("", '\n').None? && Bytes("") <= MAX_BUFFER_BYTES
  {
    var all := Delivered(DecodeApart(chunks));
    assert chunks[0..] == chunks && "" + DecodeApart(chunks) == DecodeApart(chunks);
    assert [] + all.0 == all.0;
  }

  lemma NextChunk(buffer: string, chunks: seq<seq<Byte>>, i: nat)
    requires i < |chunks|
    ensures buffer + DecodeApart(chunks[i..]) == (buffer + Decode(chunks[i])) + DecodeApart(chunks[i + 1..])
  {
    assert chunks[i..][1..] == chunks[i + 1..];
  }

  lemma Stop(buffer: string, chunks: seq<seq<Byte>>)
    requires Find(buffer, '\n').None? && Bytes(buffer) <= MAX_BUFFER_BYTES
    ensures Delivered(buffer + DecodeApart(chunks[|chunks|..])) == ([], true)
  {
    assert buffer + DecodeApart(chunks[|chunks|..]) == buffer;
  }

  predicate Bounded(lines: seq<string>) {
    forall i :: 0 <= i < |lines| ==> Bytes(lines[i]) <= MAX_BUFFER_BYTES
  }

  /** The pieces between line feeds. */
  function Pieces(text: string): (r: seq<string>)
    ensures r != []
    decreases |text|
  {
    match Find(text, '\n')
    case None => [text]
    case Some(i) => [text[..i]] + Pieces(text[i + 1..])
  }

  function Payloads(lines: seq<string>): seq<string> {
    if lines == [] then [] else Payload(lines[0]) + Payloads(lines[1..])
  }

  /** The stream succeeds if and only if no piece between line feeds is over 1 MiB; then it
      delivers the payloads of all pieces but the last. */
  lemma {:induction false} SucceedsIffBounded(text: string)
    ensures Delivered(text).1 <==> Bounded(Pieces(text))
    ensures Delivered(text).1 ==> Delivered(text).0 == Payloads(Pieces(text)[..|Pieces(text)| - 1])
    decreases |text|
  {
    var end := Find(text, '\n');
    if end.Some? {
      var i, pieces := end.value, Pieces(text);
      var more := Pieces(text[i + 1..]);
      SucceedsIffBounded(text[i + 1..]);
      assert pieces == [text[..i]] + more;
      assert pieces[0] == text[..i] && forall j :: 0 <= j < |more| ==> more[j] == pieces[j + 1];
      assert pieces[..|pieces| - 1] == [text[..i]] + more[..|more| - 1];
    }
  }

  // ---- Events ----

  /** What the server sends for log lines: one event each. */
  function Events(payloads: seq<string>): string {
    if payloads == [] then "" else "data: " + payloads[0] + "\n\n" + Events(payloads[1..])
  }

  /** A line an event can carry as it is. */
  predicate Carried(payload: string) {
    && '\n' !in payload && Bytes("data: " + payload) <= MAX_BUFFER_BYTES
    && payload != "" && !White(payload[|payload| - 1])
  }

  lemma PayloadOfEvent(payload: string)
    requires Carried(payload)
    ensures Payload("data: " + payload) == [payload] && Payload("") == []
  {
    var line := "data: " + payload;
    assert line[|line| - 1] == payload[|payload| - 1];
    assert line[0] == 'd' && !White('d');
    assert Trim(line) == line;
    assert PREFIX <= line && line[|PREFIX|..] == payload;
  }

  lemma EventIsDelivered(payload: string, rest: string)
    requires Carried(payload)
    ensures Delivered("data: " + payload + "\n\n" + rest) == Then([payload], Delivered(rest))
  {
    hide Payload, Bytes, Find, Carried, Delivered;
    var line := "data: " + payload;
    EventFeeds(payload);
    PayloadOfEvent(payload);
    EventSplits(line, rest);
    DeliveredLine(line + "\n", |line|, "\n" + rest);
    DeliveredLine("\n", 0, rest);
    assert [] + Delivered(rest).0 == Delivered(rest).0;
  }

  lemma EventSplits(line: string, rest: string)
    ensures line + "\n\n" + rest == (line + "\n") + ("\n" + rest)
    ensures (line + "\n")[..|line|] == line && (line + "\n")[|line| + 1..] + ("\n" + rest) == "\n" + rest
    ensures "\n"[..0] == "" && "\n"[1..] + rest == rest
  {
  }

  /** Every event is delivered, in order, as the line that was sent. */
  lemma {:induction false} EventsAreDelivered(payloads: seq<string>)
    requires forall i :: 0 <= i < |payloads| ==> Carried(payloads[i])
    ensures Delivered(Events(payloads)) == (payloads, true)
  {
    hide Carried, Delivered;
    if payloads == [] {
      NoEvents();
    } else {
      EventIsDelivered(payloads[0], Events(payloads[1..]));
      EventsAreDelivered(payloads[1..]);
      assert [payloads[0]] + payloads[1..] == payloads;
    }
  }

  lemma LineIsFound(line: string)
    requires '\n' !in line
    ensures Find(line + "\n", '\n') == Some(|line|)
  {
    hide *;
    FindIs(line + "\n", '\n', |line|);
  }

  lemma EventFeeds(payload: string)
    requires Carried(payload)
    ensures Find("data: " + payload + "\n", '\n') == Some(|payload| + 6) && Find("\n", '\n') == Some(0)
    ensures Bytes("data: " + payload) <= MAX_BUFFER_BYTES && Bytes("") <= MAX_BUFFER_BYTES
  {
    hide Find, White;
    LineIsFound("data: " + payload);
    FindIs("\n", '\n', 0);
  }

  lemma NoEvents()
    ensures Delivered("") == ([], true)
  {
  }
}
