/** How a finished page reads on its own, and the escaping of the text that goes on pages
    (src/telegram/commands.rs). */
module PaginatorPages {
  import opened Sequences
  import opened Wrappers
  import opened Utf8
  import opened Markup
  import opened Paginator
  import opened PaginatorGuarantees

  // ---- Reading text token by token ----

  lemma AbsentBefore(s: string, c: char, n: nat)
    requires n <= |s| && c !in s[..n]
    ensures forall k :: 0 <= k < n ==> s[k] != c
  {
    assert forall k :: 0 <= k < n ==> s[k] == s[..n][k];
  }

  lemma AbsentAfter(p: string, tail: string, c: char)
    requires c !in tail
    ensures forall k :: |p| <= k < |p + tail| ==> (p + tail)[k] != c
  {
    assert forall k :: |p| <= k < |p + tail| ==> (p + tail)[k] == tail[k - |p|];
  }

  lemma {:induction false} SuffixTokens(text: string, i: nat)
    requires i <= |Tokens(text)|
    ensures Tokens(Concat(Tokens(text)[i..])) == Tokens(text)[i..]
    decreases i
  {
    TokensAreLossless(text);
    if i == 0 {
      assert Tokens(text)[0..] == Tokens(text);
    } else {
      var rest := text[HeadLength(text)..];
      SuffixTokens(rest, i - 1);
      assert Tokens(text)[i..] == Tokens(rest)[i - 1..];
    }
  }

  /** The length of the first token depends only on the text up to its end, unless it is a '<'
      that finds no '>'. */
  lemma HeadIsLocal(p: string, rest: string, tail: string)
    requires p != "" && HeadLength(p + rest) <= |p| && ';' !in tail
    requires tail == "" || p[0] != '<' || HeadLength(p + rest) > 1
    ensures HeadLength(p + tail) == HeadLength(p + rest)
  {
    var s, s', n := p + rest, p + tail, HeadLength(p + rest);
    assert s[0] == p[0] == s'[0];
    if p[0] == '<' || p[0] == '&' {
      var c := if p[0] == '<' then '>' else ';';
      assert forall i :: 0 <= i < |p| ==> s[i] == s'[i];
      if n > 1 {
        assert s[..n - 1] == s'[..n - 1];
        FindIs(s', c, n - 1);
      } else if Find(s', c).Some? {
        var k := Find(s', c).value;
        AbsentAfter(p, tail, ';');
        assert s[..k] == s'[..k];
        FindIs(s, c, k);
      }
    }
  }

  lemma HeadLengthOfToken(text: string, i: nat)
    requires i < |Tokens(text)|
    ensures var s := Concat(Tokens(text)[i..]);
      && s != "" && HeadLength(s) == |Tokens(text)[i].text|
      && s[..HeadLength(s)] == Tokens(text)[i].text && Tokens(text)[i].effect == TokenEffect(Tokens(text)[i].text)
  {
    SuffixTokens(text, i);
    var s := Concat(Tokens(text)[i..]);
    assert Tokens(s)[0] == Tokens(text)[i];
  }

  lemma ReadToken(token: Token, rest: string)
    requires token.text != "" && HeadLength(token.text + rest) == |token.text|
    requires token.effect == TokenEffect(token.text)
    ensures Tokens(token.text + rest) == [token] + Tokens(rest)
  {
    var s := token.text + rest;
    assert s[..|token.text|] == token.text && s[|token.text|..] == rest;
  }

  /** A '<' that opens no tag. */
  predicate Dangling(token: Token) {
    token.text == "<"
  }

  lemma ChunkFirstToken(text: string, a: nat, b: nat, tail: string)
    requires a < b <= |Tokens(text)| && ';' !in tail
    requires tail == "" || !Dangling(Tokens(text)[a])
    ensures Concat(Tokens(text)[a..b]) == Tokens(text)[a].text + Concat(Tokens(text)[a + 1..b])
    ensures var s := Tokens(text)[a].text + (Concat(Tokens(text)[a + 1..b]) + tail);
      Tokens(s) == [Tokens(text)[a]] + Tokens(Concat(Tokens(text)[a + 1..b]) + tail)
  {
    hide Tokens, Concat, TokenEffect;
    var tokens := Tokens(text);
    var token, more := tokens[a], Concat(tokens[a + 1..b]);
    var p, rest := Concat(tokens[a..b]), Concat(tokens[b..]);
    assert tokens[a..] == tokens[a..b] + tokens[b..];
    ConcatAppend(tokens[a..b], tokens[b..]);
    HeadLengthOfToken(text, a);
    assert tokens[a..b] == [token] + tokens[a + 1..b];
    ConcatAppend([token], tokens[a + 1..b]);
    ConcatOne(token);
    TokensAreLossless(text);
    assert |token.text| == 1 && token.text[0] == '<' ==> Dangling(token);
    HeadIsLocal(p, rest, tail);
    assert p + tail == token.text + (more + tail);
    ReadToken(token, more + tail);
  }

  /** A chunk of the text, followed by something else, reads as the same tokens. */
  lemma {:induction false} ChunkReadsTheSame(text: string, a: nat, b: nat, tail: string)
    requires a <= b <= |Tokens(text)| && ';' !in tail
    requires tail == "" || forall i :: a <= i < b ==> !Dangling(Tokens(text)[i])
    ensures Tokens(Concat(Tokens(text)[a..b]) + tail) == Tokens(text)[a..b] + Tokens(tail)
    decreases b - a
  {
    hide Tokens, Concat;
    if a == b {
      NoTokens(Tokens(text)[a..b], tail);
    } else {
      ChunkFirstToken(text, a, b, tail);
      ChunkReadsTheSame(text, a + 1, b, tail);
      Regroup(Tokens(text)[a].text, Concat(Tokens(text)[a + 1..b]), tail);
      assert Tokens(text)[a..b] == [Tokens(text)[a]] + Tokens(text)[a + 1..b];
      Regroup([Tokens(text)[a]], Tokens(text)[a + 1..b], Tokens(tail));
    }
  }

  lemma NoTokens(tokens: seq<Token>, rest: string)
    requires tokens == []
    ensures Concat(tokens) + rest == rest && tokens + Tokens(rest) == Tokens(rest)
  {
  }

  /** A tag token reads as itself before any text. */
  predicate Tag(token: Token) {
    && |token.text| >= 2 && token.text[0] == '<'
    && token.text[|token.text| - 1] == '>' && '>' !in token.text[..|token.text| - 1]
    && token.effect == TokenEffect(token.text)
  }

  lemma TagReadsTheSame(tag: Token, rest: string)
    requires Tag(tag)
    ensures Tokens(tag.text + rest) == [tag] + Tokens(rest)
  {
    var s, n := tag.text + rest, |tag.text|;
    AbsentBefore(tag.text, '>', n - 1);
    FindIs(s, '>', n - 1);
    ReadToken(tag, rest);
  }

  lemma {:induction false} TagsReadTheSame(tags: seq<Token>, rest: string)
    requires forall i :: 0 <= i < |tags| ==> Tag(tags[i])
    ensures Tokens(Concat(tags) + rest) == tags + Tokens(rest)
  {
    if tags == [] {
      NoTokens(tags, rest);
    } else {
      TagReadsTheSame(tags[0], Concat(tags[1..]) + rest);
      TagsReadTheSame(tags[1..], rest);
      Regroup(tags[0].text, Concat(tags[1..]), rest);
      assert tags == [tags[0]] + tags[1..];
      Regroup([tags[0]], tags[1..], Tokens(rest));
    }
  }

  // ---- The tags on a page ----

  lemma OpeningTokenIsTag(text: string, i: nat)
    requires i < |Tokens(text)| && Tokens(text)[i].effect.Open?
    ensures Tag(Tokens(text)[i]) && Tokens(text)[i].effect.name in TAGS
  {
    HeadLengthOfToken(text, i);
    var s, token := Concat(Tokens(text)[i..]), Tokens(text)[i];
    var n := HeadLength(s);
    assert s[0] == token.text[0] == '<';
    assert token.text[..n - 1] == s[..n - 1];
  }

  predicate Plain(s: string) {
    forall i :: 0 <= i < |s| ==> 'a' <= s[i] <= 'z'
  }

  lemma {:induction false} PlainWord(s: string)
    requires Plain(s)
    ensures Word(s) == s && Lower(s) == s
  {
    if s != "" {
      PlainWord(s[1..]);
    }
  }

  lemma PlainTagNames(name: string)
    requires name in TAGS
    ensures Plain(name) && name != ""
  {
  }

  /** A plain name is one word and has nothing to trim. */
  lemma PlainIsOneWord(name: string)
    requires Plain(name) && name != ""
    ensures Lower(FirstWord(name)) == name && Trim(name) == name && Trim("/" + name) == "/" + name
    ensures name[0] != '/' && name[0] != '!' && name[|name| - 1] != '/'
  {
    PlainWord(name);
    hide Lower, Word;
    var inner := "/" + name;
    assert inner[|inner| - 1] == name[|name| - 1];
    assert TrimStart(name) == name && TrimStart(inner) == inner;
    assert TrimEnd(name) == name && TrimEnd(inner) == inner;
  }

  lemma EffectBetweenBrackets(inner: string)
    ensures TokenEffect("<" + inner + ">") == TagEffect(Trim(inner))
  {
    hide TagEffect, Trim;
    var text := "<" + inner + ">";
    assert text[1..|text| - 1] == inner && text[|text| - 1] == '>';
  }

  lemma NoBracketInside(inner: string)
    requires '>' !in inner
    ensures var text := "<" + inner + ">";
      |text| >= 2 && text[0] == '<' && text[|text| - 1] == '>' && '>' !in text[..|text| - 1]
  {
    var text := "<" + inner + ">";
    assert text[..|text| - 1] == "<" + inner;
  }

  lemma CloserIsTag(tag: OpenTag)
    requires Plain(tag.name) && tag.name != ""
    ensures Tag(Closer(tag)) && ';' !in Closer(tag).text
  {
    hide Lower, FirstWord, Trim, TokenEffect;
    var inner := "/" + tag.name;
    assert "</" + tag.name + ">" == "<" + inner + ">";
    assert inner[0] == '/' && inner[1..] == tag.name;
    PlainIsOneWord(tag.name);
    EffectBetweenBrackets(inner);
    NoBracketInside(inner);
  }

  /** What a tag of lower-case letters does: nine names open, any name closes, and nothing is
      open after a self-closing tag or a declaration. */
  lemma TagEffects(name: string)
    requires Plain(name) && name != ""
    ensures TokenEffect("<" + name + ">")
         == if name in ["b", "strong", "i", "em", "u", "s", "code", "pre", "a"] then Open(name) else Keep
    ensures TokenEffect("</" + name + ">") == Close(name)
    ensures TokenEffect("<" + name + "/>") == Keep && TokenEffect("<!" + name + ">") == Keep
  {
    hide Lower, FirstWord, Trim, TokenEffect;
    var closing, selfClosing, declaration := "/" + name, name + "/", "!" + name;
    PlainIsOneWord(name);
    EffectBetweenBrackets(name);
    EffectBetweenBrackets(closing);
    EffectBetweenBrackets(selfClosing);
    EffectBetweenBrackets(declaration);
    assert "</" + name + ">" == "<" + closing + ">" && closing[1..] == name;
    assert "<" + name + "/>" == "<" + selfClosing + ">" && selfClosing[0] == name[0] && selfClosing[|name|] == '/';
    assert "<!" + name + ">" == "<" + declaration + ">" && declaration[0] == '!';
    assert declaration[|name|] == name[|name| - 1];
    NothingToTrim(selfClosing);
    NothingToTrim(declaration);
  }

  lemma NothingToTrim(s: string)
    requires s != "" && !White(s[0]) && !White(s[|s| - 1])
    ensures Trim(s) == s
  {
  }

  /** Attributes do not matter, and neither does upper case. */
  lemma TagsWithAttributes(name: string, attributes: string)
    requires Plain(name) && name != "" && attributes != ""
    requires !White(attributes[|attributes| - 1]) && attributes[|attributes| - 1] != '/'
    ensures TokenEffect("<" + name + " " + attributes + ">") == TokenEffect("<" + name + ">")
    ensures TokenEffect("<CODE>") == Open("code")
  {
    hide Trim, TokenEffect, Lower;
    var inner := name + " " + attributes;
    PlainIsOneWord(name);
    assert "<" + name + " " + attributes + ">" == "<" + inner + ">";
    EffectBetweenBrackets(name);
    EffectBetweenBrackets(inner);
    assert inner[0] == name[0] && inner[|inner| - 1] == attributes[|attributes| - 1];
    NothingToTrim(inner);
    FirstWordEnds(name, " " + attributes);
    assert inner == name + (" " + attributes);
    UpperCode();
  }

  lemma UpperCode()
    ensures TokenEffect("<CODE>") == Open("code")
  {
    var inner := "CODE";
    assert "<" + inner + ">" == "<CODE>";
    EffectBetweenBrackets(inner);
    NothingToTrim(inner);
    assert Word(inner) == inner by {
      assert inner[1..][1..] == "DE" && inner[1..][1..][1..] == "E" && inner[1..][1..][1..][1..] == "";
      assert Word("E") == "E" && Word("DE") == "DE" && Word(inner[1..]) == "ODE";
    }
    assert Lower(inner) == "code" by {
      assert inner[1..][1..] == "DE" && inner[1..][1..][1..] == "E" && inner[1..][1..][1..][1..] == "";
      assert Lower("E") == "e" && Lower("DE") == "de" && Lower(inner[1..]) == "ode";
    }
  }

  lemma {:induction false} WordEnds(name: string, rest: string)
    requires Plain(name) && rest != "" && White(rest[0])
    ensures Word(name + rest) == name
  {
    if name == "" {
      assert name + rest == rest;
    } else {
      assert (name + rest)[1..] == name[1..] + rest;
      WordEnds(name[1..], rest);
    }
  }

  lemma FirstWordEnds(name: string, rest: string)
    requires Plain(name) && name != "" && rest != "" && White(rest[0])
    ensures FirstWord(name + rest) == FirstWord(name)
  {
    WordEnds(name, rest);
    PlainWord(name);
    assert (name + rest)[0] == name[0];
  }

  lemma FindBetween(head: string, close: char, rest: string)
    requires close !in head
    ensures Find(head + ([close] + rest), close) == Some(|head|)
    ensures (head + ([close] + rest))[..|head|] == head
  {
    var s := head + ([close] + rest);
    assert s[|head|] == close;
    assert forall i :: 0 <= i < |head| ==> s[i] == head[i];
    FindIs(s, close, |head|);
  }

  /** An entity of at most 16 bytes before its semicolon is one token, and a longer one is not. */
  lemma HeadOfEntity(name: string, rest: string)
    requires ';' !in name
    ensures HeadLength(("&" + name) + (";" + rest)) == if Bytes("&" + name) <= 16 then |name| + 2 else 1
  {
    FindBetween("&" + name, ';', rest);
    hide Find, Bytes;
    assert (("&" + name) + (";" + rest))[0] == '&';
  }

  /** A tag is one token, however long. */
  lemma HeadOfTag(inner: string, rest: string)
    requires '>' !in inner
    ensures HeadLength(("<" + inner) + (">" + rest)) == |inner| + 2
  {
    FindBetween("<" + inner, '>', rest);
    hide Find;
    assert (("<" + inner) + (">" + rest))[0] == '<';
  }

  /** A closer closes the last tag of its name and everything opened after it, and no more. */
  lemma CloserClosesItsTag(stack: seq<OpenTag>, tag: OpenTag, inner: seq<OpenTag>)
    requires forall i :: 0 <= i < |inner| ==> inner[i].name != tag.name
    ensures Next(stack + [tag] + inner, Closer(tag)) == stack
    ensures Next(inner, Closer(tag)) == inner
  {
    var all := stack + [tag] + inner;
    assert all[|stack|] == tag;
    assert forall i :: |stack| < i < |all| ==> all[i] == inner[i - |stack| - 1];
    assert all[..|stack|] == stack;
  }

  lemma {:induction false} OpenersAreTags(text: string, stack: seq<OpenTag>)
    requires forall i :: 0 <= i < |stack| ==> Opener(stack[i]) in Tokens(text)
    ensures forall i :: 0 <= i < |Openers(stack)| ==> Tag(Openers(stack)[i])
  {
    if stack != [] {
      OpenersAreTags(text, stack[..|stack| - 1]);
      var top := Opener(stack[|stack| - 1]);
      var i :| 0 <= i < |Tokens(text)| && Tokens(text)[i] == top;
      OpeningTokenIsTag(text, i);
    }
  }

  lemma {:induction false} ClosersAreTags(text: string, stack: seq<OpenTag>)
    requires forall i :: 0 <= i < |stack| ==> Opener(stack[i]) in Tokens(text)
    ensures forall i :: 0 <= i < |Closers(stack)| ==> Tag(Closers(stack)[i])
    ensures ';' !in Concat(Closers(stack))
    ensures stack == [] <==> Concat(Closers(stack)) == ""
    ensures stack != [] ==> '>' in Concat(Closers(stack))
  {
    if stack != [] {
      ClosersAreTags(text, stack[..|stack| - 1]);
      var top := stack[|stack| - 1];
      var i :| 0 <= i < |Tokens(text)| && Tokens(text)[i] == Opener(top);
      OpeningTokenIsTag(text, i);
      PlainTagNames(top.name);
      CloserIsTag(top);
      var first := Closer(top).text;
      assert Concat(Closers(stack)) == first + Concat(Closers(stack[..|stack| - 1]));
      assert first[|first| - 1] == '>';
    }
  }

  lemma DanglingFindsNoEnd(s: string, i: nat)
    requires i < |Tokens(s)| && Dangling(Tokens(s)[i])
    ensures '>' !in Concat(Tokens(s)[i..])
  {
    HeadLengthOfToken(s, i);
    var rest := Concat(Tokens(s)[i..]);
    assert rest[0] == '<';
  }

  /** Read on its own, a page is the tags it reopens, its chunk of the text and its closers,
      if and only if no tag is open at its end or no '<' of its chunk is left dangling. (The
      closers would supply the '>' such a '<' lacks.) Then it leaves no tag open. */
  lemma PagesReadBack(text: string, a: nat, b: nat)
    requires a <= b <= |Tokens(text)|
    ensures Tokens(PageText(Tokens(text), a, b)) == PageTokens(Tokens(text), a, b)
      <==> Stack(Tokens(text), b) == [] || forall i :: a <= i < b ==> !Dangling(Tokens(text)[i])
  {
    var tokens := Tokens(text);
    var closers := Closers(Stack(tokens, b));
    var tail := Concat(closers);
    OpenTagsAreTokens(text, a);
    OpenTagsAreTokens(text, b);
    OpenersAreTags(text, Stack(tokens, a));
    ClosersAreTags(text, Stack(tokens, b));
    TagsReadTheSame(closers, "");
    assert tail + "" == tail && closers + [] == closers;
    if Stack(tokens, b) == [] || forall i :: a <= i < b ==> !Dangling(tokens[i]) {
      ChunkReadsTheSame(text, a, b, tail);
      TagsReadTheSame(Openers(Stack(tokens, a)), Concat(tokens[a..b]) + tail);
      PageInParts(tokens, a, b);
    } else {
      var i :| a <= i < b && Dangling(tokens[i]);
      DanglingOnPage(text, a, b, i);
    }
  }

  lemma PageInParts(tokens: seq<Token>, a: nat, b: nat)
    requires a <= b <= |tokens|
    ensures PageText(tokens, a, b)
         == Concat(Openers(Stack(tokens, a))) + (Concat(tokens[a..b]) + Concat(Closers(Stack(tokens, b))))
    ensures PageTokens(tokens, a, b) == Openers(Stack(tokens, a)) + (tokens[a..b] + Closers(Stack(tokens, b)))
  {
  }

  lemma DanglingOnPage(text: string, a: nat, b: nat, i: nat)
    requires a <= i < b <= |Tokens(text)| && Dangling(Tokens(text)[i])
    requires '>' in Concat(Closers(Stack(Tokens(text), b)))
    ensures Tokens(PageText(Tokens(text), a, b)) != PageTokens(Tokens(text), a, b)
  {
    hide Tokens, Stack, Openers, Closers, PageText;
    var tokens := Tokens(text);
    var page, all := PageText(tokens, a, b), PageTokens(tokens, a, b);
    if Tokens(page) == all {
      var openers, closers := Openers(Stack(tokens, a)), Closers(Stack(tokens, b));
      var j := |openers| + (i - a);
      assert all[j] == tokens[a..b][i - a] == tokens[i];
      DanglingFindsNoEnd(page, j);
      assert all[j..] == tokens[i..b] + closers;
      ConcatAppend(tokens[i..b], closers);
    }
  }

  // ---- Escaping ----

  function EscapeChar(c: char): (r: string)
    ensures r != ""
  {
    if c == '&' then "&amp;" else if c == '<' then "&lt;" else if c == '>' then "&gt;" else [c]
  }

  /** The text with each character escaped. */
  function Escaped(s: string): string {
    if s == "" then "" else EscapeChar(s[0]) + Escaped(s[1..])
  }

  function Replace(s: string, c: char, text: string): string {
    if s == "" then "" else (if s[0] == c then text else [s[0]]) + Replace(s[1..], c, text)
  }

  /** escape_html: three replacements, one after the other. */
  function EscapeHtml(s: string): string {
    Replace(Replace(Replace(s, '&', "&amp;"), '<', "&lt;"), '>', "&gt;")
  }

  lemma {:induction false} ReplaceAppend(s: string, t: string, c: char, text: string)
    ensures Replace(s + t, c, text) == Replace(s, c, text) + Replace(t, c, text)
  {
    if s == "" {
      assert s + t == t;
    } else {
      assert (s + t)[1..] == s[1..] + t;
      ReplaceAppend(s[1..], t, c, text);
    }
  }

  lemma {:induction false} ReplaceNothing(s: string, c: char, text: string)
    requires c !in s
    ensures Replace(s, c, text) == s
  {
    if s != "" {
      ReplaceNothing(s[1..], c, text);
    }
  }

  lemma ReplaceOne(s: char, c: char, text: string)
    ensures Replace([s], c, text) == if s == c then text else [s]
  {
    assert [s][1..] == "" && Replace("", c, text) == "";
  }

  lemma EscapeOne(c: char)
    ensures EscapeHtml([c]) == EscapeChar(c)
  {
    ReplaceOne(c, '&', "&amp;");
    ReplaceOne(c, '<', "&lt;");
    ReplaceOne(c, '>', "&gt;");
    if c == '&' {
      ReplaceNothing("&amp;", '<', "&lt;");
      ReplaceNothing("&amp;", '>', "&gt;");
    } else if c == '<' {
      ReplaceNothing("&lt;", '>', "&gt;");
    }
  }

  /** The replacements do not interfere: none of them escapes what an earlier one put in. */
  lemma {:induction false} EscapeHtmlIsPerCharacter(s: string)
    ensures EscapeHtml(s) == Escaped(s)
  {
    if s != "" {
      var c, rest := [s[0]], s[1..];
      assert s == c + rest;
      ReplaceAppend(c, rest, '&', "&amp;");
      var c1, rest1 := Replace(c, '&', "&amp;"), Replace(rest, '&', "&amp;");
      ReplaceAppend(c1, rest1, '<', "&lt;");
      ReplaceAppend(Replace(c1, '<', "&lt;"), Replace(rest1, '<', "&lt;"), '>', "&gt;");
      EscapeOne(s[0]);
      EscapeHtmlIsPerCharacter(rest);
    }
  }

  lemma FirstEscapeDecides(c: char, d: char, s: string, t: string)
    requires EscapeChar(c) + s == EscapeChar(d) + t
    ensures c == d && s == t
  {
    var e, f := EscapeChar(c), EscapeChar(d);
    assert (e + s)[0] == e[0] && (f + t)[0] == f[0];
    if |e| > 1 && |f| > 1 {
      assert (e + s)[1] == e[1] && (f + t)[1] == f[1];
    }
    assert s == (e + s)[|e|..] && t == (f + t)[|f|..];
  }

  /** Different texts are escaped differently. */
  lemma {:induction false} EscapingIsInjective(s: string, t: string)
    requires Escaped(s) == Escaped(t)
    ensures s == t
    decreases |s|
  {
    hide EscapeChar;
    if s != "" && t != "" {
      FirstEscapeDecides(s[0], t[0], Escaped(s[1..]), Escaped(t[1..]));
      EscapingIsInjective(s[1..], t[1..]);
    }
  }

  // ---- The reader's side ----

  /** What a reader of HTML makes of text without tags: three entities stand for characters. */
  function Read(s: string): string {
    if s == "" then ""
    else if "&amp;" <= s then "&" + Read(s[5..])
    else if "&lt;" <= s then "<" + Read(s[4..])
    else if "&gt;" <= s then ">" + Read(s[4..])
    else [s[0]] + Read(s[1..])
  }

  lemma ReadFirst(c: char, rest: string)
    ensures Read(EscapeChar(c) + rest) == [c] + Read(rest)
  {
    var e, s := EscapeChar(c), EscapeChar(c) + rest;
    assert s[0] == e[0] && s[|e|..] == rest && e <= s;
    if |e| > 1 {
      assert s[1] == e[1];
    }
  }

  lemma {:induction false} ReadEscaped(s: string)
    ensures Read(Escaped(s)) == s
  {
    hide Read, EscapeChar;
    if s != "" {
      ReadFirst(s[0], Escaped(s[1..]));
      ReadEscaped(s[1..]);
    } else {
      ReadNothing();
    }
  }

  lemma ReadNothing()
    ensures Read("") == "" && Escaped("") == ""
  {
  }

  /** What escape_html is for: whatever the text, a reader of HTML sees just that text. */
  lemma EscapedReadsBack(s: string)
    ensures Read(EscapeHtml(s)) == s
  {
    EscapeHtmlIsPerCharacter(s);
    ReadEscaped(s);
  }

  lemma {:induction false} EscapedAppend(s: string, t: string)
    ensures Escaped(s + t) == Escaped(s) + Escaped(t)
  {
    if s == "" {
      assert s + t == t;
    } else {
      assert (s + t)[1..] == s[1..] + t;
      EscapedAppend(s[1..], t);
    }
  }

  /** escape_html_bounded: the longest prefix of the text, `taken` characters of it, whose
      escaped form fits. No escape is ever cut. */
  method EscapeHtmlBounded(value: string, maxBytes: nat) returns (output: string, truncated: bool, ghost taken: nat)
    ensures taken <= |value| && output == EscapeHtml(value[..taken]) && Bytes(output) <= maxBytes
    ensures Read(output) == value[..taken]
    ensures truncated <==> taken < |value|
    ensures forall n :: taken < n <= |value| ==> Bytes(EscapeHtml(value[..n])) > maxBytes
  {
    output, taken := "", 0;
    EscapeHtmlIsPerCharacter("");
    assert value[..0] == "";
    for i := 0 to |value|
      invariant taken == i && output == Escaped(value[..i]) && Bytes(output) <= maxBytes
    {
      var escaped := EscapeChar(value[i]);
      assert value[..i + 1] == value[..i] + [value[i]];
      EscapedAppend(value[..i], [value[i]]);
      assert [value[i]][1..] == "";
      assert Escaped([value[i]]) == escaped;
      BytesAppend(output, escaped);
      if Bytes(output) + Bytes(escaped) > maxBytes {
        truncated := true;
        EscapeHtmlIsPerCharacter(value[..i]);
        ReadEscaped(value[..i]);
        forall n | i < n <= |value|
          ensures Bytes(EscapeHtml(value[..n])) > maxBytes
        {
          LongerPrefixIsLonger(value, i + 1, n);
        }
        return;
      }
      output := output + escaped;
      taken := i + 1;
    }
    assert value[..|value|] == value;
    EscapeHtmlIsPerCharacter(value);
    ReadEscaped(value);
    return output, false, taken;
  }

  lemma LongerPrefixIsLonger(value: string, m: nat, n: nat)
    requires m <= n <= |value|
    ensures Bytes(EscapeHtml(value[..n])) >= Bytes(Escaped(value[..m]))
  {
    assert value[..n] == value[..m] + value[m..n];
    EscapedAppend(value[..m], value[m..n]);
    BytesAppend(Escaped(value[..m]), Escaped(value[m..n]));
    EscapeHtmlIsPerCharacter(value[..n]);
  }
}
