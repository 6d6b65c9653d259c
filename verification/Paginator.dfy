/** Splitting a long HTML message into pages (src/telegram/commands.rs). Text is a sequence of
    characters; every size is the number of bytes of its UTF-8 encoding. */
module Paginator {
  import opened Wrappers
  import opened Utf8
  import opened Markup

  const PAGE_BYTES := 4_000
  const MESSAGE_BYTES := 65_536

  datatype Error = TooLong

  // ---- Pages over a list of tokens ----

  /** The tags open after the first `k` tokens. */
  function Stack(tokens: seq<Token>, k: nat): seq<OpenTag>
    requires k <= |tokens|
  {
    After([], tokens[..k])
  }

  function ClosingBytes(stack: seq<OpenTag>): nat {
    if stack == [] then 0 else ClosingBytes(stack[..|stack| - 1]) + Bytes(stack[|stack| - 1].name) + 3
  }

  /** A page under construction: the tags open at token `a`, then tokens `a` up to `k`. */
  function Body(tokens: seq<Token>, a: nat, k: nat): string
    requires a <= k <= |tokens|
  {
    Concat(Openers(Stack(tokens, a))) + Concat(tokens[a..k])
  }

  function PageText(tokens: seq<Token>, a: nat, b: nat): string
    requires a <= b <= |tokens|
  {
    Body(tokens, a, b) + Concat(Closers(Stack(tokens, b)))
  }

  /** Token `k`, and the closers needed after it, fit on the page begun at `a`. */
  predicate Fits(tokens: seq<Token>, a: nat, k: nat)
    requires a <= k < |tokens|
  {
    Bytes(Body(tokens, a, k)) + Bytes(tokens[k].text) + ClosingBytes(Stack(tokens, k + 1)) <= PAGE_BYTES
  }

  /** Wherever tags are open, a fresh page has room for the next token. */
  ghost predicate RoomEverywhere(tokens: seq<Token>) {
    forall k :: 0 <= k < |tokens| ==> Stack(tokens, k) == [] || Fits(tokens, k, k)
  }

  /** The greedy pagination: page `i` holds tokens `cuts[i]` up to `cuts[i + 1]`, each of them
      fitted when it was added, and the next one did not. */
  ghost predicate Paging(tokens: seq<Token>, cuts: seq<nat>, pages: seq<string>) {
    && |cuts| == |pages| + 1 && cuts[0] == 0 && cuts[|pages|] == |tokens|
    && forall i :: 0 <= i < |pages| ==> PageAt(tokens, cuts[i], cuts[i + 1], pages[i])
  }

  ghost predicate PageAt(tokens: seq<Token>, a: nat, b: nat, page: string) {
    a < b <= |tokens| && page == PageText(tokens, a, b) && Greedy(tokens, a, b)
  }

  ghost predicate Greedy(tokens: seq<Token>, a: nat, b: nat)
    requires a < b <= |tokens|
  {
    && (forall k :: a < k < b ==> Fits(tokens, a, k))
    && (b < |tokens| ==> !Fits(tokens, a, b))
  }

  // ---- paginate_message ----

  lemma StackNext(tokens: seq<Token>, k: nat)
    requires k < |tokens|
    ensures Stack(tokens, k + 1) == Next(Stack(tokens, k), tokens[k])
  {
    assert tokens[..k + 1] == tokens[..k] + [tokens[k]];
    AfterAppend([], tokens[..k], [tokens[k]]);
    AfterOne(Stack(tokens, k), tokens[k]);
  }

  lemma BodyNext(tokens: seq<Token>, a: nat, k: nat)
    requires a <= k < |tokens|
    ensures Body(tokens, a, k + 1) == Body(tokens, a, k) + tokens[k].text
  {
    assert tokens[a..k + 1] == tokens[a..k] + [tokens[k]];
    ConcatAppend(tokens[a..k], [tokens[k]]);
    ConcatOne(tokens[k]);
  }

  lemma FreshBody(tokens: seq<Token>, k: nat)
    requires k <= |tokens|
    ensures Body(tokens, k, k) == Concat(Openers(Stack(tokens, k)))
  {
    assert tokens[k..k] == [];
  }

  /** Every open tag was opened by a token of the text. */
  lemma {:induction false} OpenTagsAreTokens(text: string, k: nat)
    requires k <= |Tokens(text)|
    ensures forall i :: 0 <= i < |Stack(Tokens(text), k)| ==> Opener(Stack(Tokens(text), k)[i]) in Tokens(text)[..k]
  {
    var tokens := Tokens(text);
    if k > 0 {
      hide Tokens;
      OpenTagsAreTokens(text, k - 1);
      StackNext(tokens, k - 1);
      assert tokens[..k] == tokens[..k - 1] + [tokens[k - 1]];
    }
  }

  /** A page under construction is empty only before its first token and outside all tags. */
  lemma EmptyBody(text: string, a: nat, k: nat)
    requires a <= k <= |Tokens(text)|
    ensures Body(Tokens(text), a, k) == "" <==> a == k && Stack(Tokens(text), a) == []
  {
    var tokens := Tokens(text);
    var stack := Stack(tokens, a);
    TokensAreLossless(text);
    if stack != [] {
      OpenTagsAreTokens(text, a);
      ConcatAppend(Openers(stack[..|stack| - 1]), [Opener(stack[|stack| - 1])]);
      ConcatOne(Opener(stack[|stack| - 1]));
    } else if a < k {
      assert tokens[a..k][0] == tokens[a];
    }
  }

  /** The pages finished so far end at token `a`; the open one holds tokens `a` up to `k`. */
  ghost predicate Partial(tokens: seq<Token>, cuts: seq<nat>, pages: seq<string>, a: nat, k: nat) {
    && a <= k <= |tokens|
    && |cuts| == |pages| + 1 && cuts[0] == 0 && cuts[|pages|] == a
    && (forall i :: 0 <= i < |pages| ==> PageAt(tokens, cuts[i], cuts[i + 1], pages[i]))
    && (forall j :: a < j < k ==> Fits(tokens, a, j))
  }

  lemma AddToken(tokens: seq<Token>, cuts: seq<nat>, pages: seq<string>, a: nat, k: nat)
    requires Partial(tokens, cuts, pages, a, k) && k < |tokens| && (a == k || Fits(tokens, a, k))
    ensures Partial(tokens, cuts, pages, a, k + 1)
  {
    hide PageAt, Fits;
  }

  lemma AddPage(tokens: seq<Token>, cuts: seq<nat>, pages: seq<string>, a: nat, k: nat)
    requires Partial(tokens, cuts, pages, a, k) && a < k && (k < |tokens| ==> !Fits(tokens, a, k))
    ensures Partial(tokens, cuts + [k], pages + [PageText(tokens, a, k)], k, k)
  {
    assert Greedy(tokens, a, k);
    assert PageAt(tokens, a, k, PageText(tokens, a, k));
  }

  lemma TokenAt(text: string, offset: nat, k: nat)
    requires offset < |text| && k <= |Tokens(text)| && Tokens(text[offset..]) == Tokens(text)[k..]
    ensures var n := HeadLength(text[offset..]);
      && k < |Tokens(text)| && offset + n <= |text|
      && Tokens(text)[k] == Token(text[offset..][..n], TokenEffect(text[offset..][..n]))
      && Tokens(text[offset + n..]) == Tokens(text)[k + 1..]
  {
    var rest := text[offset..];
    var n := HeadLength(rest);
    assert rest[n..] == text[offset + n..];
    assert Tokens(rest)[0] == Tokens(text)[k..][0];
    assert Tokens(rest)[1..] == Tokens(text)[k..][1..] == Tokens(text)[k + 1..];
  }

  /** The variables of the loop: the text up to `offset` is read, `pages` are finished and
      `page` is being filled. */
  ghost predicate Loop(text: string, offset: nat, pages: seq<string>, page: string, openTags: seq<OpenTag>,
      cuts: seq<nat>, a: nat, k: nat)
  {
    && offset <= |text| && a < |Tokens(text)|
    && Partial(Tokens(text), cuts, pages, a, k)
    && Tokens(text[offset..]) == Tokens(text)[k..]
    && openTags == Stack(Tokens(text), k)
    && page == Body(Tokens(text), a, k)
  }

  lemma LoopStarts(text: string)
    requires Bytes(text) > PAGE_BYTES
    ensures Loop(text, 0, [], "", [], [0], 0, 0)
  {
    assert text[0..] == text && Tokens(text)[0..] == Tokens(text);
    FreshBody(Tokens(text), 0);
  }

  lemma LoopTakes(text: string, offset: nat, pages: seq<string>, page: string, openTags: seq<OpenTag>,
      cuts: seq<nat>, a: nat, k: nat)
    requires Loop(text, offset, pages, page, openTags, cuts, a, k) && offset < |text|
    ensures var n := HeadLength(text[offset..]);
      var token := text[offset..][..n];
      var nextTags := Next(openTags, Token(token, TokenEffect(token)));
      && k < |Tokens(text)|
      && (Bytes(page) + Bytes(token) + ClosingBytes(nextTags) <= PAGE_BYTES <==> Fits(Tokens(text), a, k))
      && (page == "" || Fits(Tokens(text), a, k) ==>
            Loop(text, offset + n, pages, page + token, nextTags, cuts, a, k + 1))
  {
    var tokens := Tokens(text);
    TokenAt(text, offset, k);
    StackNext(tokens, k);
    BodyNext(tokens, a, k);
    if page == "" {
      EmptyBody(text, a, k);
    }
    if page == "" || Fits(tokens, a, k) {
      AddToken(tokens, cuts, pages, a, k);
    }
  }

  lemma LoopFlushes(text: string, offset: nat, pages: seq<string>, page: string, openTags: seq<OpenTag>,
      cuts: seq<nat>, a: nat, k: nat)
    requires Loop(text, offset, pages, page, openTags, cuts, a, k) && offset < |text|
    requires a <= k < |Tokens(text)|
    requires page != "" && !Fits(Tokens(text), a, k) && RoomEverywhere(Tokens(text))
    ensures a < k
    ensures Loop(text, offset, pages + [page + Concat(Closers(openTags))], Concat(Openers(openTags)), openTags,
                 cuts + [k], k, k)
  {
    var tokens := Tokens(text);
    EmptyBody(text, a, k);
    AddPage(tokens, cuts, pages, a, k);
    FreshBody(tokens, k);
  }

  lemma LoopEnds(text: string, offset: nat, pages: seq<string>, page: string, openTags: seq<OpenTag>,
      cuts: seq<nat>, a: nat, k: nat)
    requires Loop(text, offset, pages, page, openTags, cuts, a, k) && offset == |text|
    ensures page != "" && Paging(Tokens(text), cuts + [k], pages + [page + Concat(Closers(openTags))])
  {
    assert text[offset..] == "";
    assert k == |Tokens(text)|;
    EmptyBody(text, a, k);
    AddPage(Tokens(text), cuts, pages, a, k);
  }

  /** The loop. Outside its precondition it never ends: see EndsIffRoomEverywhere. */
  method PaginateMessage(text: string) returns (r: Result<seq<string>, Error>, ghost cuts: seq<nat>)
    requires PAGE_BYTES < Bytes(text) <= MESSAGE_BYTES ==> RoomEverywhere(Tokens(text))
    ensures Bytes(text) > MESSAGE_BYTES ==> r == Err(TooLong)
    ensures Bytes(text) <= PAGE_BYTES ==> r == Ok([text])
    ensures PAGE_BYTES < Bytes(text) <= MESSAGE_BYTES ==> r.Ok? && Paging(Tokens(text), cuts, r.value)
  {
    hide Loop, Paging, Fits, RoomEverywhere, Tokens, TokenEffect, Next, Bytes, Concat, Openers, Closers, ClosingBytes;
    cuts := [0];
    if Bytes(text) > MESSAGE_BYTES {
      return Err(TooLong), cuts;
    }
    if Bytes(text) <= PAGE_BYTES {
      return Ok([text]), cuts;
    }
    var pages: seq<string>, page, openTags, offset := [], "", [], 0;
    ghost var a: nat, k: nat := 0, 0;
    LoopStarts(text);
    while offset < |text|
      invariant offset <= |text| && a <= k && Loop(text, offset, pages, page, openTags, cuts, a, k)
      decreases |text| - offset, k - a
    {
      var tokenLength := HeadLength(text[offset..]);
      var token := text[offset..][..tokenLength];
      var nextTags := Next(openTags, Token(token, TokenEffect(token)));
      LoopTakes(text, offset, pages, page, openTags, cuts, a, k);
      if Bytes(page) + Bytes(token) + ClosingBytes(nextTags) > PAGE_BYTES && page != "" {
        LoopFlushes(text, offset, pages, page, openTags, cuts, a, k);
        pages := pages + [page + Concat(Closers(openTags))];
        page := Concat(Openers(openTags));
        a, cuts := k, cuts + [k];
        continue;
      }
      page := page + token;
      openTags := nextTags;
      offset := offset + tokenLength;
      k := k + 1;
    }
    LoopEnds(text, offset, pages, page, openTags, cuts, a, k);
    if page != "" {
      pages := pages + [page + Concat(Closers(openTags))];
      cuts := cuts + [k];
    }
    return Ok(pages), cuts;
  }
}
