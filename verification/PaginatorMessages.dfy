/** The messages that are really sent (src/telegram/commands.rs), and two texts on which
    pagination goes wrong. */
module PaginatorMessages {
  import opened Sequences
  import opened Wrappers
  import opened Utf8
  import opened Markup
  import opened Paginator
  import opened PaginatorGuarantees
  import opened PaginatorPages

  // ---- The texts of the callers ----

  /** Every message is put together from escaped text, bare or between a tag and its closer. */
  datatype Piece = Text(raw: string) | Marked(tag: string, raw: string)

  predicate Proper(pieces: seq<Piece>) {
    forall i :: 0 <= i < |pieces| ==> pieces[i].Text? || pieces[i].tag in TAGS
  }

  function Mark(tag: string): OpenTag {
    OpenTag(tag, "<" + tag + ">")
  }

  function Message(pieces: seq<Piece>): string {
    if pieces == [] then ""
    else PieceText(pieces[0]) + Message(pieces[1..])
  }

  function PieceText(piece: Piece): string {
    match piece
    case Text(raw) => Escaped(raw)
    case Marked(tag, raw) => "<" + tag + ">" + Escaped(raw) + ("</" + tag + ">")
  }

  // ---- Their tokens ----

  function Characters(raw: string): (tokens: seq<Token>)
    ensures |tokens| == |raw|
  {
    seq(|raw|, i requires 0 <= i < |raw| => Token(EscapeChar(raw[i]), Keep))
  }

  function PieceTokens(piece: Piece): seq<Token> {
    match piece
    case Text(raw) => Characters(raw)
    case Marked(tag, raw) => [Opener(Mark(tag))] + Characters(raw) + [Closer(Mark(tag))]
  }

  function MessageTokens(pieces: seq<Piece>): seq<Token> {
    if pieces == [] then [] else PieceTokens(pieces[0]) + MessageTokens(pieces[1..])
  }

  lemma EscapeReads(c: char, rest: string)
    ensures Tokens(EscapeChar(c) + rest) == [Token(EscapeChar(c), Keep)] + Tokens(rest)
  {
    var text := EscapeChar(c);
    var s := text + rest;
    assert s[0] == text[0];
    if |text| > 1 {
      var n := |text| - 1;
      assert forall i :: 0 <= i < |text| ==> s[i] == text[i];
      FindIs(s, ';', n);
      assert s[..n] == text[..n];
      NarrowBytes(text[..n]);
    }
    ReadToken(Token(text, Keep), rest);
  }

  /** No character takes more than four bytes. */
  lemma {:induction false} NarrowBytes(s: string)
    ensures |s| <= Bytes(s) <= 4 * |s|
  {
    if s != "" {
      NarrowBytes(s[1..]);
    }
  }

  lemma {:induction false} EscapedReads(raw: string, rest: string)
    ensures Tokens(Escaped(raw) + rest) == Characters(raw) + Tokens(rest)
  {
    hide Tokens, EscapeChar;
    if raw == "" {
      assert Escaped(raw) + rest == rest;
      assert Characters(raw) + Tokens(rest) == Tokens(rest);
    } else {
      Regroup(EscapeChar(raw[0]), Escaped(raw[1..]), rest);
      EscapeReads(raw[0], Escaped(raw[1..]) + rest);
      EscapedReads(raw[1..], rest);
      assert Characters(raw) == [Token(EscapeChar(raw[0]), Keep)] + Characters(raw[1..]);
      Regroup([Token(EscapeChar(raw[0]), Keep)], Characters(raw[1..]), Tokens(rest));
    }
  }

  lemma OpenerIsTag(name: string)
    requires name in TAGS
    ensures Tag(Opener(Mark(name)))
  {
    PlainTagNames(name);
    PlainIsOneWord(name);
    hide Lower, FirstWord, Trim, TokenEffect;
    EffectBetweenBrackets(name);
    NoBracketInside(name);
  }

  lemma PieceReads(piece: Piece, rest: string)
    requires piece.Text? || piece.tag in TAGS
    ensures Tokens(PieceText(piece) + rest) == PieceTokens(piece) + Tokens(rest)
  {
    hide Tokens, Escaped, Characters, Tag;
    if piece.Text? {
      EscapedReads(piece.raw, rest);
    } else {
      var opener, closer := Opener(Mark(piece.tag)), Closer(Mark(piece.tag));
      OpenerIsTag(piece.tag);
      PlainTagNames(piece.tag);
      CloserIsTag(Mark(piece.tag));
      var inner := Escaped(piece.raw);
      assert PieceText(piece) + rest == opener.text + (inner + (closer.text + rest));
      TagReadsTheSame(opener, inner + (closer.text + rest));
      EscapedReads(piece.raw, closer.text + rest);
      TagReadsTheSame(closer, rest);
      assert PieceTokens(piece) + Tokens(rest) ==
        [opener] + (Characters(piece.raw) + ([closer] + Tokens(rest)));
    }
  }

  lemma {:induction false} MessageReads(pieces: seq<Piece>)
    requires Proper(pieces)
    ensures Tokens(Message(pieces)) == MessageTokens(pieces)
  {
    if pieces != [] {
      PieceReads(pieces[0], Message(pieces[1..]));
      MessageReads(pieces[1..]);
    }
  }

  // ---- The tags open between them ----

  /** At most one tag is open, and then the next token is text or its closer. */
  predicate Shallow(tokens: seq<Token>, k: nat)
    requires k <= |tokens|
  {
    && ShallowStack(Stack(tokens, k))
    && (k < |tokens| ==> ShallowToken(Stack(tokens, k), tokens[k]) && !Dangling(tokens[k]))
  }

  predicate ShallowStack(stack: seq<OpenTag>) {
    stack == [] || (|stack| == 1 && stack[0].name in TAGS && stack[0] == Mark(stack[0].name))
  }

  predicate ShallowToken(stack: seq<OpenTag>, token: Token) {
    && |token.text| <= 9
    && (stack != [] ==> token.effect == Keep || token.effect == Close(stack[0].name))
  }

  lemma {:induction false} KeepingTokens(stack: seq<OpenTag>, tokens: seq<Token>)
    requires forall i :: 0 <= i < |tokens| ==> tokens[i].effect == Keep
    ensures After(stack, tokens) == stack
    decreases |tokens|
  {
    if tokens != [] {
      KeepingTokens(stack, tokens[1..]);
    }
  }

  /** A piece leaves no tag open. */
  lemma PieceIsClosed(piece: Piece)
    ensures After([], PieceTokens(piece)) == []
  {
    KeepingTokens([], Characters(piece.raw));
    if piece.Marked? {
      var tag := Mark(piece.tag);
      KeepingTokens([tag], Characters(piece.raw));
      AfterAppend([], [Opener(tag)] + Characters(piece.raw), [Closer(tag)]);
      AfterAppend([], [Opener(tag)], Characters(piece.raw));
      OpeningOne(tag);
      AfterOne([tag], Closer(tag));
      assert LastNamed([tag], piece.tag) == Some(0) && [tag][..0] == [];
    }
  }

  lemma OpeningOne(tag: OpenTag)
    ensures After([], [Opener(tag)]) == [tag]
  {
    AfterOne([], Opener(tag));
    assert [] + [tag] == [tag];
  }

  /** The tags open inside a piece. */
  lemma InsidePiece(piece: Piece, k: nat)
    requires k < |PieceTokens(piece)|
    ensures Stack(PieceTokens(piece), k) == if piece.Marked? && k > 0 then [Mark(piece.tag)] else []
  {
    var tokens := PieceTokens(piece);
    if piece.Text? {
      KeepingTokens([], tokens[..k]);
    } else if k > 0 {
      var tag := Mark(piece.tag);
      assert tokens[..k] == [Opener(tag)] + Characters(piece.raw)[..k - 1];
      AfterAppend([], [Opener(tag)], Characters(piece.raw)[..k - 1]);
      OpeningOne(tag);
      KeepingTokens([tag], Characters(piece.raw)[..k - 1]);
    } else {
      assert tokens[..0] == [];
    }
  }

  lemma ShortNames(name: string)
    requires name in TAGS
    ensures 1 <= |name| <= 6
  {
  }

  lemma PieceIsShallow(piece: Piece, k: nat)
    requires (piece.Text? || piece.tag in TAGS) && k < |PieceTokens(piece)|
    ensures Shallow(PieceTokens(piece), k)
  {
    hide After, Escaped, Stack;
    InsidePiece(piece, k);
    if piece.Marked? {
      ShortNames(piece.tag);
    }
  }

  lemma FirstTokens(first: seq<Token>, rest: seq<Token>, k: nat)
    requires k < |first| && Shallow(first, k)
    ensures Shallow(first + rest, k)
  {
    hide ShallowStack, ShallowToken;
    assert (first + rest)[..k] == first[..k];
  }

  lemma LaterTokens(first: seq<Token>, rest: seq<Token>, k: nat)
    requires |first| <= k <= |first + rest| && After([], first) == [] && Shallow(rest, k - |first|)
    ensures Shallow(first + rest, k)
  {
    hide ShallowStack, ShallowToken;
    assert (first + rest)[..k] == first + rest[..k - |first|];
    AfterAppend([], first, rest[..k - |first|]);
  }

  lemma {:induction false} MessageIsShallow(pieces: seq<Piece>, k: nat)
    requires Proper(pieces) && k <= |MessageTokens(pieces)|
    ensures Shallow(MessageTokens(pieces), k)
    decreases |pieces|
  {
    hide Shallow, PieceTokens;
    if pieces == [] {
      NothingOpen(MessageTokens(pieces));
    } else {
      var first, rest := PieceTokens(pieces[0]), MessageTokens(pieces[1..]);
      if k < |first| {
        PieceIsShallow(pieces[0], k);
        FirstTokens(first, rest, k);
      } else {
        MessageIsShallow(pieces[1..], k - |first|);
        PieceIsClosed(pieces[0]);
        LaterTokens(first, rest, k);
      }
    }
  }

  lemma NothingOpen(tokens: seq<Token>)
    requires tokens == []
    ensures Shallow(tokens, 0)
  {
    assert tokens[..0] == [];
  }

  // ---- What that means for their pages ----

  lemma ShallowClosing(stack: seq<OpenTag>)
    requires |stack| <= 1 && (stack != [] ==> stack[0].name in TAGS)
    ensures ClosingBytes(stack) <= 27
  {
    if stack != [] {
      ShortNames(stack[0].name);
      NarrowBytes(stack[0].name);
      assert stack[..0] == [] && ClosingBytes([]) == 0;
    }
  }

  lemma ShallowOpeners(stack: seq<OpenTag>)
    requires |stack| == 1
    ensures Concat(Openers(stack)) == stack[0].opening
  {
    assert stack[..0] == [] && Openers([]) == [];
    assert Openers(stack) == [] + [Opener(stack[0])] == [Opener(stack[0])];
    ConcatOne(Opener(stack[0]));
  }

  /** A fresh page has room for the next token, whatever is open. */
  lemma ShallowHasRoom(tokens: seq<Token>, k: nat)
    requires k < |tokens| && ShallowStack(Stack(tokens, k)) && ShallowStack(Stack(tokens, k + 1))
    requires ShallowToken(Stack(tokens, k), tokens[k])
    ensures Fits(tokens, k, k)
    ensures Bytes(tokens[k].text) + ClosingBytes(Stack(tokens, k + 1)) <= PAGE_BYTES
  {
    hide Stack, Bytes, Concat, Openers, ClosingBytes, Next;
    var stack := Stack(tokens, k);
    FreshBody(tokens, k);
    NarrowBytes(tokens[k].text);
    ShallowClosing(Stack(tokens, k + 1));
    if stack != [] {
      ShallowOpeners(stack);
      ShortNames(stack[0].name);
      NarrowBytes(stack[0].opening);
    } else {
      NoTags(stack);
      assert Bytes("") == 0 by {
        NarrowBytes("");
      }
    }
  }

  /** Whatever escaped text a message holds, its pagination ends, every page fits, and every
      page on its own reads as its tags and its part of the message, with nothing left open. */
  lemma MessagesPaginate(pieces: seq<Piece>)
    requires Proper(pieces)
    ensures RoomEverywhere(Tokens(Message(pieces)))
    ensures forall a, b, page :: PageAt(Tokens(Message(pieces)), a, b, page) ==>
      && Bytes(page) <= PAGE_BYTES
      && Tokens(page) == PageTokens(Tokens(Message(pieces)), a, b)
      && After([], Tokens(page)) == []
  {
    hide Tokens, Fits, Bytes, ClosingBytes, Concat, Closers, PageTokens, After;
    var text := Message(pieces);
    var tokens := Tokens(text);
    MessageReads(pieces);
    forall k | 0 <= k < |tokens|
      ensures Fits(tokens, k, k) && !Dangling(tokens[k])
      ensures Bytes(tokens[k].text) + ClosingBytes(Stack(tokens, k + 1)) <= PAGE_BYTES
    {
      MessageIsShallow(pieces, k);
      MessageIsShallow(pieces, k + 1);
      ShallowHasRoom(tokens, k);
    }
    forall a, b, page | PageAt(tokens, a, b, page)
      ensures Bytes(page) <= PAGE_BYTES && Tokens(page) == PageTokens(tokens, a, b)
      ensures After([], Tokens(page)) == []
    {
      PagesFit(tokens, a, b, page);
      PagesReadBack(text, a, b);
      PagesAreBalanced(tokens, a, b);
    }
  }

  // ---- What the reader sees ----

  /** Tags are not shown; any other token is read as text. */
  function Shown(tokens: seq<Token>): string {
    if tokens == [] then "" else (if tokens[0].effect == Keep then Read(tokens[0].text) else "") + Shown(tokens[1..])
  }

  function Raw(pieces: seq<Piece>): string {
    if pieces == [] then "" else pieces[0].raw + Raw(pieces[1..])
  }

  lemma {:induction false} ShownAppend(a: seq<Token>, b: seq<Token>)
    ensures Shown(a + b) == Shown(a) + Shown(b)
  {
    if a == [] {
      assert a + b == b;
    } else {
      assert (a + b)[1..] == a[1..] + b;
      ShownAppend(a[1..], b);
    }
  }

  lemma {:induction false} TagsAreNotShown(tags: seq<Token>)
    requires forall i :: 0 <= i < |tags| ==> tags[i].effect != Keep
    ensures Shown(tags) == ""
  {
    if tags != [] {
      TagsAreNotShown(tags[1..]);
    }
  }

  lemma {:induction false} OpenersAndClosersAreTags(stack: seq<OpenTag>)
    ensures forall i :: 0 <= i < |Openers(stack)| ==> Openers(stack)[i].effect != Keep
    ensures forall i :: 0 <= i < |Closers(stack)| ==> Closers(stack)[i].effect != Keep
  {
    if stack != [] {
      OpenersAndClosersAreTags(stack[..|stack| - 1]);
    }
  }

  lemma {:induction false} CharactersShow(raw: string)
    ensures Shown(Characters(raw)) == raw
  {
    hide Read, EscapeChar;
    if raw != "" {
      assert Characters(raw)[1..] == Characters(raw[1..]);
      CharactersShow(raw[1..]);
      ReadFirst(raw[0], "");
      ReadNothing();
      assert EscapeChar(raw[0]) + "" == EscapeChar(raw[0]);
    }
  }

  lemma PieceShows(piece: Piece)
    ensures Shown(PieceTokens(piece)) == piece.raw
  {
    hide Shown, Characters;
    CharactersShow(piece.raw);
    if piece.Marked? {
      var opener, closer := [Opener(Mark(piece.tag))], [Closer(Mark(piece.tag))];
      ShownAppend(opener + Characters(piece.raw), closer);
      ShownAppend(opener, Characters(piece.raw));
      TagsAreNotShown(opener);
      TagsAreNotShown(closer);
    }
  }

  lemma {:induction false} MessageShows(pieces: seq<Piece>)
    ensures Shown(MessageTokens(pieces)) == Raw(pieces)
  {
    hide Shown, PieceTokens;
    if pieces == [] {
      NothingShown();
    } else {
      MessageShows(pieces[1..]);
      PieceShows(pieces[0]);
      ShownAppend(PieceTokens(pieces[0]), MessageTokens(pieces[1..]));
    }
  }

  /** A page shows its chunk. */
  lemma PageShows(tokens: seq<Token>, a: nat, b: nat)
    requires a <= b <= |tokens|
    ensures Shown(PageTokens(tokens, a, b)) == Shown(tokens[a..b])
  {
    var openers, closers := Openers(Stack(tokens, a)), Closers(Stack(tokens, b));
    OpenersAndClosersAreTags(Stack(tokens, a));
    OpenersAndClosersAreTags(Stack(tokens, b));
    TagsAreNotShown(openers);
    TagsAreNotShown(closers);
    ShownAppend(openers + tokens[a..b], closers);
    ShownAppend(openers, tokens[a..b]);
  }

  /** What is shown on the first pages, one after the other. */
  function ShownOn(pages: seq<string>): string {
    if pages == [] then "" else ShownOn(pages[..|pages| - 1]) + Shown(Tokens(pages[|pages| - 1]))
  }

  lemma {:induction false} PagesShowPrefix(pieces: seq<Piece>, cuts: seq<nat>, pages: seq<string>, n: nat)
    requires Proper(pieces) && Paging(Tokens(Message(pieces)), cuts, pages) && n <= |pages|
    ensures cuts[n] <= |Tokens(Message(pieces))|
    ensures ShownOn(pages[..n]) == Shown(Tokens(Message(pieces))[..cuts[n]])
  {
    hide Tokens, Shown, PageTokens, PageText, Greedy;
    var tokens := Tokens(Message(pieces));
    if n == 0 {
      assert tokens[..0] == [] && pages[..0] == [];
      NothingShown();
    } else {
      PagesShowPrefix(pieces, cuts, pages, n - 1);
      var a, b := cuts[n - 1], cuts[n];
      assert PageAt(tokens, a, cuts[n - 1 + 1], pages[n - 1]);
      MessagesPaginate(pieces);
      PageShows(tokens, a, b);
      assert pages[..n][..n - 1] == pages[..n - 1] && pages[..n][n - 1] == pages[n - 1];
      assert tokens[..b] == tokens[..a] + tokens[a..b];
      ShownAppend(tokens[..a], tokens[a..b]);
    }
  }

  lemma NothingShown()
    ensures Shown([]) == "" && ShownOn([]) == ""
  {
  }

  /** However a message is paged, what the reader sees on the pages, one after the other, is
      its raw text, character for character. */
  lemma PagesShowTheText(pieces: seq<Piece>, cuts: seq<nat>, pages: seq<string>)
    requires Proper(pieces) && Paging(Tokens(Message(pieces)), cuts, pages)
    ensures ShownOn(pages) == Raw(pieces) == Shown(Tokens(Message(pieces)))
  {
    hide Tokens, Shown;
    PagesShowPrefix(pieces, cuts, pages, |pages|);
    var tokens := Tokens(Message(pieces));
    assert pages[..|pages|] == pages && tokens[..|tokens|] == tokens;
    MessageReads(pieces);
    MessageShows(pieces);
  }

  // ---- Texts on which it goes wrong ----

  function Filler(n: nat): (s: string)
    ensures |s| == n
  {
    seq(n, _ => 'x')
  }

  lemma {:induction false} AsciiBytes(s: string)
    requires forall i :: 0 <= i < |s| ==> s[i] as int < 0x80
    ensures Bytes(s) == |s|
  {
    if s != "" {
      AsciiBytes(s[1..]);
    }
  }

  lemma {:induction false} FillerTokens(s: string)
    requires forall i :: 0 <= i < |s| ==> s[i] == 'x'
    ensures |Tokens(s)| == |s| && forall i :: 0 <= i < |s| ==> Tokens(s)[i] == Token("x", Keep)
    decreases |s|
  {
    if s != "" {
      FillerTokens(s[1..]);
      assert s[..1] == "x";
    }
  }

  function LongTag(n: nat): Token {
    Token("<a " + Filler(n) + ">", Open("a"))
  }

  lemma LongTagIsTag(n: nat)
    requires n > 0
    ensures Tag(LongTag(n))
  {
    var text, inner := LongTag(n).text, "a " + Filler(n);
    assert text[1..|text| - 1] == inner;
    assert inner[|inner| - 1] == 'x';
    assert TrimStart(inner) == inner && TrimEnd(inner) == inner;
    assert Word(inner) == "a" by {
      assert inner[1..][0] == ' ';
      assert Word(inner[1..]) == "";
    }
    assert Lower("a") == "a" by {
      assert "a"[1..] == "";
    }
    assert forall i :: 0 <= i < |text| - 1 ==> text[i] != '>';
  }

  /** A link of 3,997 characters or more, followed by one more character: the loop never ends. */
  lemma LongTagNeverEnds(n: nat)
    requires 3_997 <= n <= 65_531
    ensures var text := LongTag(n).text + "x";
      && PAGE_BYTES < Bytes(text) <= MESSAGE_BYTES
      && forall steps :: Steps(Tokens(text), Run("", [], 0), steps).k < |Tokens(text)|
  {
    hide Tokens, Steps, Step, Stack, Fits;
    var tag, text := LongTag(n), LongTag(n).text + "x";
    AsciiBytes(text);
    LongTagIsTag(n);
    TagReadsTheSame(tag, "x");
    FillerTokens("x");
    assert Tokens(text) == [tag, Token("x", Keep)];
    NoRoomAfterLongTag(n);
    EndsIffRoomEverywhere(text);
  }

  lemma NoRoomAfterLongTag(n: nat)
    requires n >= 3_997
    ensures var tokens := [LongTag(n), Token("x", Keep)];
      Stack(tokens, 1) != [] && !Fits(tokens, 1, 1)
  {
    hide Bytes, ClosingBytes;
    var tag, tokens := LongTag(n), [LongTag(n), Token("x", Keep)];
    assert tokens[..1] == [tag];
    OpeningOne(OpenTag("a", tag.text));
    FreshBody(tokens, 1);
    ShallowOpeners(Stack(tokens, 1));
    StackNext(tokens, 1);
    NarrowBytes(tag.text);
  }

  function DanglingText(n: nat): string {
    "<b>" + ("<" + Filler(n))
  }

  lemma DanglingReads(n: nat)
    ensures Tokens(DanglingText(n)) == [Opener(Mark("b"))] + ([Token("<", Keep)] + Tokens(Filler(n)))
  {
    hide Tokens;
    OpenerIsTag("b");
    var rest := "<" + Filler(n);
    assert Opener(Mark("b")).text == "<b>";
    TagReadsTheSame(Opener(Mark("b")), rest);
    assert Find(rest, '>').None?;
    ReadToken(Token("<", Keep), Filler(n));
  }

  /** Its tokens: the tag, the '<' on its own, and the filler. After the tag it stays open. */
  lemma DanglingTokens(n: nat)
    ensures var tokens := Tokens(DanglingText(n));
      && |tokens| == n + 2 && tokens[0] == Opener(Mark("b")) && tokens[1] == Token("<", Keep)
      && (forall k :: 0 < k < |tokens| ==> |tokens[k].text| == 1 && tokens[k].effect == Keep)
      && (forall k :: 0 < k <= |tokens| ==> Stack(tokens, k) == [Mark("b")])
  {
    hide Tokens, After, DanglingText;
    DanglingReads(n);
    FillerTokens(Filler(n));
    var tokens := Tokens(DanglingText(n));
    forall k | 0 < k <= |tokens|
      ensures Stack(tokens, k) == [Mark("b")]
    {
      assert tokens[..k] == [Opener(Mark("b"))] + tokens[1..k];
      AfterAppend([], [Opener(Mark("b"))], tokens[1..k]);
      OpeningOne(Mark("b"));
      KeepingTokens([Mark("b")], tokens[1..k]);
    }
  }

  lemma DanglingHasRoom(n: nat, k: nat)
    requires k < |Tokens(DanglingText(n))|
    ensures var tokens := Tokens(DanglingText(n));
      && (Stack(tokens, k) == [] || Fits(tokens, k, k))
      && (1 < |tokens| ==> Fits(tokens, 0, 1))
  {
    hide Tokens, Stack, Bytes, Concat, Openers, ClosingBytes;
    var tokens := Tokens(DanglingText(n));
    DanglingTokens(n);
    assert tokens[..0] == [] && Stack(tokens, 0) == [] by {
      EmptyStack(tokens);
    }
    ShallowHasRoom(tokens, k);
    BodyNext(tokens, 0, 0);
    FreshBody(tokens, 0);
    NoTags(Stack(tokens, 0));
    assert Body(tokens, 0, 1) == "<b>";
    NarrowBytes("<b>");
    NarrowBytes(tokens[1].text);
    ShallowClosing(Stack(tokens, 2));
  }

  lemma EmptyStack(tokens: seq<Token>)
    ensures Stack(tokens, 0) == []
  {
    assert tokens[..0] == [];
  }

  /** A bold text with a '<' that has no '>': its first page does not read back, because the
      closer at its end completes the '<' to something that is not its token. */
  lemma DanglingPageMisreads(n: nat)
    requires 3_997 <= n <= 65_532
    ensures var text := DanglingText(n);
      && PAGE_BYTES < Bytes(text) <= MESSAGE_BYTES && RoomEverywhere(Tokens(text))
      && forall cuts, pages :: Paging(Tokens(text), cuts, pages) ==>
           && |pages| > 0 && cuts[1] <= |Tokens(text)|
           && Tokens(pages[0]) != PageTokens(Tokens(text), 0, cuts[1])
  {
    hide Tokens, Fits, PageTokens, Stack;
    var text := DanglingText(n);
    var tokens := Tokens(text);
    AsciiBytes(text);
    DanglingTokens(n);
    forall k | 0 <= k < |tokens|
      ensures Stack(tokens, k) == [] || Fits(tokens, k, k)
    {
      DanglingHasRoom(n, k);
    }
    forall cuts, pages | Paging(tokens, cuts, pages)
      ensures |pages| > 0 && cuts[1] <= |tokens| && Tokens(pages[0]) != PageTokens(tokens, 0, cuts[1])
    {
      assert PageAt(tokens, cuts[0], cuts[0 + 1], pages[0]);
      DanglingHasRoom(n, 0);
      assert 1 < cuts[1] && Dangling(tokens[1]);
      PagesReadBack(text, 0, cuts[1]);
    }
  }
}
