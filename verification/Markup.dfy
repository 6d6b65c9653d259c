/** The tokens of an HTML message and the tags open between them (src/telegram/commands.rs). */
module Markup {
  import opened Sequences
  import opened Wrappers
  import opened Utf8

  // ---- Tokens ----

  /** A tag up to its '>', an entity up to a ';' at most 16 bytes on, or one character. */
  function HeadLength(s: string): (n: nat)
    requires s != ""
    ensures 1 <= n <= |s|
  {
    if s[0] == '<' then
      match Find(s, '>')
      case Some(k) => k + 1
      case None => 1
    else if s[0] == '&' then
      match Find(s, ';')
      case Some(k) => if Bytes(s[..k]) <= 16 then k + 1 else 1
      case None => 1
    else 1
  }

  // ---- Tags ----

  const TAGS: seq<string> := ["b", "strong", "i", "em", "u", "s", "code", "pre", "a"]

  datatype Effect = Open(name: string) | Close(name: string) | Keep

  function Word(s: string): string {
    if s == "" || White(s[0]) then "" else [s[0]] + Word(s[1..])
  }

  function FirstWord(s: string): string {
    Word(TrimStart(s))
  }

  function Lower(s: string): string {
    if s == "" then "" else [if 'A' <= s[0] <= 'Z' then s[0] - 'A' + 'a' else s[0]] + Lower(s[1..])
  }

  function TagEffect(inner: string): Effect {
    if inner != "" && inner[0] == '/' then Close(Lower(FirstWord(inner[1..])))
    else if (inner != "" && inner[0] == '!') || (inner != "" && inner[|inner| - 1] == '/') then Keep
    else if Lower(FirstWord(inner)) in TAGS then Open(Lower(FirstWord(inner)))
    else Keep
  }

  function TokenEffect(token: string): Effect {
    if |token| >= 2 && token[0] == '<' && token[|token| - 1] == '>'
    then TagEffect(Trim(token[1..|token| - 1]))
    else Keep
  }

  /** A token and what it does to the list of open tags. */
  datatype Token = Token(text: string, effect: Effect)

  function Tokens(s: string): seq<Token>
    decreases |s|
  {
    if s == "" then []
    else [Token(s[..HeadLength(s)], TokenEffect(s[..HeadLength(s)]))] + Tokens(s[HeadLength(s)..])
  }

  function Concat(tokens: seq<Token>): string {
    if tokens == [] then "" else tokens[0].text + Concat(tokens[1..])
  }

  lemma {:induction false} ConcatAppend(a: seq<Token>, b: seq<Token>)
    ensures Concat(a + b) == Concat(a) + Concat(b)
  {
    if a == [] {
      assert a + b == b;
    } else {
      assert (a + b)[1..] == a[1..] + b;
      ConcatAppend(a[1..], b);
    }
  }

  lemma ConcatOne(token: Token)
    ensures Concat([token]) == token.text
  {
    assert [token][1..] == [];
  }

  lemma {:induction false} TokensAreLossless(s: string)
    ensures Concat(Tokens(s)) == s
    ensures forall k :: 0 <= k < |Tokens(s)| ==> Tokens(s)[k].text != ""
    decreases |s|
  {
    if s != "" {
      var n := HeadLength(s);
      TokensAreLossless(s[n..]);
      assert s == s[..n] + s[n..];
    }
  }

  // ---- The stack of open tags ----

  datatype OpenTag = OpenTag(name: string, opening: string)

  function LastNamed(stack: seq<OpenTag>, name: string): (r: Option<nat>)
    ensures r.Some? ==> r.value < |stack| && stack[r.value].name == name
    ensures r.Some? ==> forall i :: r.value < i < |stack| ==> stack[i].name != name
    ensures r.None? ==> forall i :: 0 <= i < |stack| ==> stack[i].name != name
  {
    if stack == [] then None
    else if stack[|stack| - 1].name == name then Some(|stack| - 1)
    else LastNamed(stack[..|stack| - 1], name)
  }

  function Next(stack: seq<OpenTag>, token: Token): seq<OpenTag> {
    match token.effect
    case Open(name) => stack + [OpenTag(name, token.text)]
    case Close(name) =>
      (match LastNamed(stack, name)
       case Some(i) => stack[..i]
       case None => stack)
    case Keep => stack
  }

  function After(stack: seq<OpenTag>, tokens: seq<Token>): seq<OpenTag>
    decreases |tokens|
  {
    if tokens == [] then stack else After(Next(stack, tokens[0]), tokens[1..])
  }

  lemma {:induction false} AfterAppend(stack: seq<OpenTag>, a: seq<Token>, b: seq<Token>)
    ensures After(stack, a + b) == After(After(stack, a), b)
    decreases |a|
  {
    if a == [] {
      assert a + b == b;
    } else {
      assert (a + b)[1..] == a[1..] + b;
      AfterAppend(Next(stack, a[0]), a[1..], b);
    }
  }

  lemma AfterOne(stack: seq<OpenTag>, token: Token)
    ensures After(stack, [token]) == Next(stack, token)
  {
    assert [token][1..] == [];
  }

  // ---- Reopening and closing ----

  function Opener(tag: OpenTag): Token {
    Token(tag.opening, Open(tag.name))
  }

  function Closer(tag: OpenTag): Token {
    Token("</" + tag.name + ">", Close(tag.name))
  }

  function Openers(stack: seq<OpenTag>): seq<Token> {
    if stack == [] then [] else Openers(stack[..|stack| - 1]) + [Opener(stack[|stack| - 1])]
  }

  function Closers(stack: seq<OpenTag>): seq<Token> {
    if stack == [] then [] else [Closer(stack[|stack| - 1])] + Closers(stack[..|stack| - 1])
  }

  /** Reopening a stack of tags from nothing gives that stack; closing it gives nothing. */
  lemma {:induction false} ReopeningRestores(stack: seq<OpenTag>)
    ensures After([], Openers(stack)) == stack
  {
    if stack != [] {
      var below, top := stack[..|stack| - 1], stack[|stack| - 1];
      ReopeningRestores(below);
      AfterAppend([], Openers(below), [Opener(top)]);
      AfterOne(below, Opener(top));
    }
  }

  lemma {:induction false} ClosingEmpties(stack: seq<OpenTag>)
    ensures After(stack, Closers(stack)) == []
  {
    if stack != [] {
      var below, top := stack[..|stack| - 1], stack[|stack| - 1];
      assert Next(stack, Closer(top)) == below;
      AfterAppend(stack, [Closer(top)], Closers(below));
      AfterOne(stack, Closer(top));
      ClosingEmpties(below);
    }
  }
}
