/** What a pagination guarantees: nothing is lost, every page fits, every page closes what it
    opens, and when the loop that makes it ends at all. */
module PaginatorGuarantees {
  import opened Utf8
  import opened Markup
  import opened Paginator

  // ---- Nothing is lost ----

  /** The texts of the first `n` chunks, joined. */
  function Joined(tokens: seq<Token>, cuts: seq<nat>, n: nat): string
    requires n < |cuts| && forall i :: 0 <= i < n ==> Cut(tokens, cuts[i], cuts[i + 1])
  {
    if n == 0 then ""
    else
      assert Cut(tokens, cuts[n - 1], cuts[n - 1 + 1]);
      Joined(tokens, cuts, n - 1) + Concat(tokens[cuts[n - 1]..cuts[n]])
  }

  predicate Cut(tokens: seq<Token>, a: nat, b: nat) {
    a <= b <= |tokens|
  }

  lemma {:induction false} JoinedIsPrefix(tokens: seq<Token>, cuts: seq<nat>, n: nat)
    requires n < |cuts| && cuts[0] == 0 && forall i :: 0 <= i < n ==> Cut(tokens, cuts[i], cuts[i + 1])
    ensures cuts[n] <= |tokens| && Joined(tokens, cuts, n) == Concat(tokens[..cuts[n]])
  {
    if n > 0 {
      JoinedIsPrefix(tokens, cuts, n - 1);
      assert Cut(tokens, cuts[n - 1], cuts[n - 1 + 1]);
      assert tokens[..cuts[n]] == tokens[..cuts[n - 1]] + tokens[cuts[n - 1]..cuts[n]];
      ConcatAppend(tokens[..cuts[n - 1]], tokens[cuts[n - 1]..cuts[n]]);
    }
  }

  /** The chunks of the pages, in order, are the text; a page adds nothing to its chunk but
      the tags it reopens and the closers at its end. */
  lemma PagesAreLossless(text: string, cuts: seq<nat>, pages: seq<string>)
    requires Paging(Tokens(text), cuts, pages)
    ensures forall i :: 0 <= i < |pages| ==> Cut(Tokens(text), cuts[i], cuts[i + 1])
    ensures Joined(Tokens(text), cuts, |pages|) == text
    ensures forall i :: 0 <= i < |pages| ==>
      && Cut(Tokens(text), cuts[i], cuts[i + 1])
      && pages[i] == Concat(Openers(Stack(Tokens(text), cuts[i]))) + Concat(Tokens(text)[cuts[i]..cuts[i + 1]])
                     + Concat(Closers(Stack(Tokens(text), cuts[i + 1])))
  {
    forall i | 0 <= i < |pages|
      ensures Cut(Tokens(text), cuts[i], cuts[i + 1])
    {
      assert PageAt(Tokens(text), cuts[i], cuts[i + 1], pages[i]);
    }
    JoinedIsPrefix(Tokens(text), cuts, |pages|);
    TokensAreLossless(text);
    assert Tokens(text)[..|Tokens(text)|] == Tokens(text);
  }

  // ---- Sizes ----

  lemma {:induction false} ClosersTakeClosingBytes(stack: seq<OpenTag>)
    ensures Bytes(Concat(Closers(stack))) == ClosingBytes(stack)
  {
    if stack != [] {
      var top := stack[|stack| - 1];
      var below := Closers(stack[..|stack| - 1]);
      ClosersTakeClosingBytes(stack[..|stack| - 1]);
      ConcatAppend([Closer(top)], below);
      ConcatOne(Closer(top));
      BytesAppend(Closer(top).text, Concat(below));
      BytesAppend("</" + top.name, ">");
      BytesAppend("</", top.name);
      assert Bytes("</") == 1 + Bytes("</"[1..]) == 2;
      assert Bytes(">") == 1;
    }
  }

  lemma NoTags(stack: seq<OpenTag>)
    requires stack == []
    ensures Concat(Openers(stack)) == ""
  {
  }

  /** A page exceeds the limit only if it is a single token outside all tags that no page
      could hold. */
  lemma PagesFit(tokens: seq<Token>, a: nat, b: nat, page: string)
    requires RoomEverywhere(tokens) && PageAt(tokens, a, b, page)
    ensures Bytes(page) > PAGE_BYTES <==>
      b == a + 1 && Stack(tokens, a) == [] && Bytes(tokens[a].text) + ClosingBytes(Stack(tokens, b)) > PAGE_BYTES
  {
    hide Tokens, Body, Concat, Closers, ClosingBytes;
    var last := b - 1;
    BodyNext(tokens, a, last);
    BytesAppend(Body(tokens, a, last), tokens[last].text);
    ClosersTakeClosingBytes(Stack(tokens, b));
    BytesAppend(Body(tokens, a, b), Concat(Closers(Stack(tokens, b))));
    if last > a {
      assert Fits(tokens, a, last);
    } else {
      FreshBody(tokens, a);
      assert Stack(tokens, a) == [] || Fits(tokens, a, a);
      assert Stack(tokens, a) == [] ==> Concat(Openers(Stack(tokens, a))) == "" by {
        if Stack(tokens, a) == [] {
          NoTags(Stack(tokens, a));
        }
      }
    }
  }

  /** A page that is not the last is as full as can be: with the next token and the closers after
      it, it would exceed the limit. */
  lemma PagesAreFull(tokens: seq<Token>, a: nat, b: nat, page: string)
    requires PageAt(tokens, a, b, page) && b < |tokens|
    ensures Bytes(PageText(tokens, a, b + 1)) > PAGE_BYTES
  {
    hide Tokens, Body, Concat, Closers, ClosingBytes;
    BodyNext(tokens, a, b);
    BytesAppend(Body(tokens, a, b), tokens[b].text);
    ClosersTakeClosingBytes(Stack(tokens, b + 1));
    BytesAppend(Body(tokens, a, b + 1), Concat(Closers(Stack(tokens, b + 1))));
  }

  lemma GreedyCutIsUnique(tokens: seq<Token>, a: nat, b: nat, b': nat)
    requires a < b <= |tokens| && a < b' <= |tokens| && Greedy(tokens, a, b) && Greedy(tokens, a, b')
    ensures b == b'
  {
    hide Fits;
  }

  /** The pagination is determined: no other cuts satisfy the specification. */
  lemma {:induction false} PagingIsUnique(tokens: seq<Token>, cuts: seq<nat>, pages: seq<string>,
      cuts': seq<nat>, pages': seq<string>, i: nat)
    requires Paging(tokens, cuts, pages) && Paging(tokens, cuts', pages')
    requires i <= |pages|
    ensures i <= |pages'| && cuts[i] == cuts'[i]
    ensures i < |pages| ==> i < |pages'| && pages[i] == pages'[i]
    decreases i
  {
    if i > 0 {
      PagingIsUnique(tokens, cuts, pages, cuts', pages', i - 1);
      assert PageAt(tokens, cuts[i - 1], cuts[i - 1 + 1], pages[i - 1]);
      assert PageAt(tokens, cuts'[i - 1], cuts'[i - 1 + 1], pages'[i - 1]);
    }
    if i < |pages| {
      assert PageAt(tokens, cuts[i], cuts[i + 1], pages[i]);
      assert i < |pages'|;
      assert PageAt(tokens, cuts'[i], cuts'[i + 1], pages'[i]);
      GreedyCutIsUnique(tokens, cuts[i], cuts[i + 1], cuts'[i + 1]);
    }
  }

  // ---- Tags ----

  /** Every token is shown under exactly the tags that were open at that point of the text. */
  lemma TokensKeepTheirTags(tokens: seq<Token>, a: nat, k: nat)
    requires a <= k <= |tokens|
    ensures After([], Openers(Stack(tokens, a)) + tokens[a..k]) == Stack(tokens, k)
  {
    ReopeningRestores(Stack(tokens, a));
    AfterAppend([], Openers(Stack(tokens, a)), tokens[a..k]);
    assert tokens[..k] == tokens[..a] + tokens[a..k];
    AfterAppend([], tokens[..a], tokens[a..k]);
  }

  function PageTokens(tokens: seq<Token>, a: nat, b: nat): seq<Token>
    requires a <= b <= |tokens|
  {
    Openers(Stack(tokens, a)) + tokens[a..b] + Closers(Stack(tokens, b))
  }

  /** A page is the text of its tokens, and they leave no tag open. */
  lemma PagesAreBalanced(tokens: seq<Token>, a: nat, b: nat)
    requires a <= b <= |tokens|
    ensures Concat(PageTokens(tokens, a, b)) == PageText(tokens, a, b)
    ensures After([], PageTokens(tokens, a, b)) == []
  {
    var openers, closers := Openers(Stack(tokens, a)), Closers(Stack(tokens, b));
    ConcatAppend(openers + tokens[a..b], closers);
    ConcatAppend(openers, tokens[a..b]);
    TokensKeepTheirTags(tokens, a, b);
    AfterAppend([], openers + tokens[a..b], closers);
    ClosingEmpties(Stack(tokens, b));
  }

  // ---- When the loop ends ----

  /** The loop as a transition: flush the page, or append the next token. */
  datatype Run = Run(page: string, openTags: seq<OpenTag>, k: nat)

  function Step(tokens: seq<Token>, r: Run): (r': Run)
    requires r.k <= |tokens|
    ensures r'.k <= |tokens|
  {
    if r.k == |tokens| then r
    else
      var token := tokens[r.k];
      var nextTags := Next(r.openTags, token);
      if Bytes(r.page) + Bytes(token.text) + ClosingBytes(nextTags) > PAGE_BYTES && r.page != ""
      then Run(Concat(Openers(r.openTags)), r.openTags, r.k)
      else Run(r.page + token.text, nextTags, r.k + 1)
  }

  function Steps(tokens: seq<Token>, r: Run, n: nat): (r': Run)
    requires r.k <= |tokens|
    ensures r'.k <= |tokens|
    decreases n
  {
    if n == 0 then r else Steps(tokens, Step(tokens, r), n - 1)
  }

  /** The page begins with the tags open at `a` and holds the tokens since. */
  ghost predicate At(tokens: seq<Token>, r: Run, a: nat) {
    a <= r.k <= |tokens| && r.openTags == Stack(tokens, r.k) && r.page == Body(tokens, a, r.k)
  }

  lemma TokenCoversItsTag(stack: seq<OpenTag>, page: string, token: Token)
    requires Bytes(Concat(Openers(stack))) <= Bytes(page)
    ensures Bytes(Concat(Openers(Next(stack, token)))) <= Bytes(page + token.text)
  {
    BytesAppend(page, token.text);
    match token.effect {
      case Open(name) =>
        var opener := Opener(OpenTag(name, token.text));
        ConcatAppend(Openers(stack), [opener]);
        ConcatOne(opener);
        BytesAppend(Concat(Openers(stack)), token.text);
      case Close(name) =>
        var i := LastNamed(stack, name);
        if i.Some? {
          PrefixIsShorter(stack, i.value);
        }
      case Keep =>
    }
  }

  /** What has to be reopened at `k` is already on the page. */
  lemma {:induction false} PageCoversTags(tokens: seq<Token>, a: nat, k: nat)
    requires a <= k <= |tokens|
    ensures Bytes(Concat(Openers(Stack(tokens, k)))) <= Bytes(Body(tokens, a, k))
  {
    hide Stack, Body, Bytes, Concat, Openers, Next;
    if a == k {
      FreshBody(tokens, a);
    } else {
      PageCoversTags(tokens, a, k - 1);
      StackNext(tokens, k - 1);
      BodyNext(tokens, a, k - 1);
      TokenCoversItsTag(Stack(tokens, k - 1), Body(tokens, a, k - 1), tokens[k - 1]);
    }
  }

  lemma {:induction false} PrefixIsShorter(stack: seq<OpenTag>, i: nat)
    requires i <= |stack|
    ensures Bytes(Concat(Openers(stack[..i]))) <= Bytes(Concat(Openers(stack)))
  {
    if i == |stack| {
      assert stack[..i] == stack;
    } else {
      var below, top := stack[..|stack| - 1], stack[|stack| - 1];
      PrefixIsShorter(below, i);
      assert below[..i] == stack[..i];
      ConcatAppend(Openers(below), [Opener(top)]);
      BytesAppend(Concat(Openers(below)), Concat([Opener(top)]));
    }
  }

  /** One step: the next token is taken if the page is empty or has room, else the page is
      flushed and begins anew. */
  lemma StepStays(text: string, r: Run, a: nat) returns (next: Run, a': nat)
    requires At(Tokens(text), r, a) && r.k < |Tokens(text)|
    ensures next == Step(Tokens(text), r) && At(Tokens(text), next, a')
    ensures (next.k, a') == if r.page == "" || Fits(Tokens(text), a, r.k) then (r.k + 1, a) else (r.k, r.k)
  {
    hide Tokens, Stack, Body, Concat, Openers, Bytes, Next;
    var tokens := Tokens(text);
    StackNext(tokens, r.k);
    BodyNext(tokens, a, r.k);
    FreshBody(tokens, r.k);
    next := Step(tokens, r);
    a' := if next.k == r.k then r.k else a;
  }

  lemma StepsUnfold(tokens: seq<Token>, r: Run, n: nat)
    requires r.k <= |tokens|
    ensures Steps(tokens, r, n + 1) == Steps(tokens, Step(tokens, r), n)
  {
  }

  ghost predicate Stuck(tokens: seq<Token>, bad: nat) {
    bad < |tokens| && Stack(tokens, bad) != [] && !Fits(tokens, bad, bad)
  }

  lemma StuckStep(text: string, r: Run, a: nat, bad: nat) returns (next: Run, a': nat)
    requires Stuck(Tokens(text), bad) && At(Tokens(text), r, a) && r.k <= bad
    ensures next == Step(Tokens(text), r) && At(Tokens(text), next, a') && next.k <= bad
  {
    next, a' := StepStays(text, r, a);
    if r.k == bad {
      NoRoomLater(text, a, bad);
    }
  }

  /** A token without room stops the loop for good. */
  lemma {:induction false} StuckForever(text: string, r: Run, a: nat, bad: nat, n: nat)
    requires Stuck(Tokens(text), bad) && At(Tokens(text), r, a) && r.k <= bad < |Tokens(text)|
    ensures Steps(Tokens(text), r, n).k <= bad
    decreases n
  {
    hide Stuck, Step, At, Tokens;
    if n > 0 {
      var next, a' := StuckStep(text, r, a, bad);
      StuckForever(text, next, a', bad, n - 1);
      StepsUnfold(Tokens(text), r, n - 1);
    }
  }

  /** A token that does not fit on a fresh page does not fit on a longer one either. */
  lemma NoRoomLater(text: string, a: nat, k: nat)
    requires a <= k < |Tokens(text)| && Stack(Tokens(text), k) != [] && !Fits(Tokens(text), k, k)
    ensures !Fits(Tokens(text), a, k) && Body(Tokens(text), a, k) != ""
  {
    PageCoversTags(Tokens(text), a, k);
    FreshBody(Tokens(text), k);
    EmptyBody(text, a, k);
  }

  lemma {:induction false} EndsFrom(text: string, r: Run, a: nat) returns (n: nat)
    requires RoomEverywhere(Tokens(text)) && At(Tokens(text), r, a)
    ensures Steps(Tokens(text), r, n).k == |Tokens(text)|
    decreases |Tokens(text)| - r.k, r.k - a
  {
    if r.k == |Tokens(text)| {
      n := 0;
    } else {
      var next, a' := StepStays(text, r, a);
      if next.k == r.k {
        FreshPageTakesToken(text, r, a);
      }
      n := EndsFrom(text, next, a');
      StepsUnfold(Tokens(text), r, n);
      n := n + 1;
    }
  }

  lemma FreshPageTakesToken(text: string, r: Run, a: nat)
    requires RoomEverywhere(Tokens(text)) && At(Tokens(text), r, a) && r.k < |Tokens(text)|
    requires r.page != "" && !Fits(Tokens(text), a, r.k)
    ensures a < r.k
  {
    EmptyBody(text, a, r.k);
  }

  /** The loop ends if and only if, wherever tags are open, a page with just those tags
      reopened has room for the next token and the closers after it. */
  lemma EndsIffRoomEverywhere(text: string)
    ensures (exists n :: Steps(Tokens(text), Run("", [], 0), n).k == |Tokens(text)|) <==> RoomEverywhere(Tokens(text))
  {
    var tokens := Tokens(text);
    if RoomEverywhere(tokens) {
      FreshBody(tokens, 0);
      var n := EndsFrom(text, Run("", [], 0), 0);
    } else {
      var bad: nat :| bad < |tokens| && !(Stack(tokens, bad) == [] || Fits(tokens, bad, bad));
      assert Stuck(tokens, bad);
      forall n
        ensures Steps(tokens, Run("", [], 0), n).k != |tokens|
      {
        FreshBody(tokens, 0);
        StuckForever(text, Run("", [], 0), 0, bad, n);
      }
    }
  }
}
