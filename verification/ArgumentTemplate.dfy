/** Splitting a template of command-line arguments into arguments (src/tunnel/mod.rs). */
module ArgumentTemplate {
  import opened Sequences
  import opened Wrappers
  import opened Utf8

  const MAX_ARGUMENTS := 128
  const MAX_ARGUMENT_BYTES := 4_096

  datatype Error = UnclosedQuote(quote: char) | LimitExceeded

  predicate Quote(c: char) {
    c == '\'' || c == '"'
  }

  predicate Escapable(c: char) {
    c == '\\' || Quote(c)
  }

  // ---- Parsing ----

  /** The scanner: the open quote, the argument being collected, the arguments collected. */
  datatype Scanner = Scanner(quote: Option<char>, current: string, args: seq<string>)

  function Push(args: seq<string>, current: string): seq<string> {
    if current == "" then args else args + [current]
  }

  function Scan(s: string, x: Scanner): Scanner
    decreases |s|
  {
    if s == "" then x
    else if x.quote == Some(s[0]) then Scan(s[1..], x.(quote := None))
    else if x.quote.None? && Quote(s[0]) then Scan(s[1..], x.(quote := Some(s[0])))
    else if x.quote.None? && White(s[0]) then Scan(s[1..], Scanner(None, "", Push(x.args, x.current)))
    else if s[0] == '\\' && |s| > 1 && Escapable(s[1]) then Scan(s[2..], x.(current := x.current + [s[1]]))
    else Scan(s[1..], x.(current := x.current + [s[0]]))
  }

  predicate WithinLimits(args: seq<string>) {
    |args| <= MAX_ARGUMENTS && forall i :: 0 <= i < |args| ==> Bytes(args[i]) <= MAX_ARGUMENT_BYTES
  }

  function Finish(x: Scanner): Result<seq<string>, Error> {
    if x.quote.Some? then Err(UnclosedQuote(x.quote.value))
    else if WithinLimits(Push(x.args, x.current)) then Ok(Push(x.args, x.current))
    else Err(LimitExceeded)
  }

  function Parse(s: string): Result<seq<string>, Error> {
    Finish(Scan(s, Scanner(None, "", [])))
  }

  ghost predicate NoneEmpty(args: seq<string>) {
    forall i :: 0 <= i < |args| ==> args[i] != ""
  }

  method ParseArgumentTemplate(input: string) returns (r: Result<seq<string>, Error>)
    ensures r == Parse(input)
    ensures r.Ok? ==> NoneEmpty(r.value) && WithinLimits(r.value)
  {
    var args: seq<string>, current, quote: Option<char> := [], "", None;
    var i := 0;
    assert input[0..] == input;
    while i < |input|
      invariant 0 <= i <= |input| && NoneEmpty(args)
      invariant Scan(input, Scanner(None, "", [])) == Scan(input[i..], Scanner(quote, current, args))
    {
      var ch := input[i];
      assert input[i..][0] == ch && input[i..][1..] == input[i + 1..];
      i := i + 1;
      if quote == Some(ch) {
        quote := None;
      } else if quote.None? && Quote(ch) {
        quote := Some(ch);
      } else if quote.None? && White(ch) {
        if current != "" {
          args := args + [current];
          current := "";
        }
      } else if ch == '\\' && i < |input| && Escapable(input[i]) {
        assert input[i - 1..][1] == input[i] && input[i - 1..][2..] == input[i + 1..];
        current := current + [input[i]];
        i := i + 1;
      } else {
        current := current + [ch];
      }
    }
    if quote.Some? {
      return Err(UnclosedQuote(quote.value));
    }
    if current != "" {
      args := args + [current];
    }
    if |args| > MAX_ARGUMENTS {
      return Err(LimitExceeded);
    }
    for k := 0 to |args|
      invariant forall j :: 0 <= j < k ==> Bytes(args[j]) <= MAX_ARGUMENT_BYTES
    {
      if Bytes(args[k]) > MAX_ARGUMENT_BYTES {
        return Err(LimitExceeded);
      }
    }
    return Ok(args);
  }

  lemma {:induction false} ScanCollectsNoneEmpty(s: string, x: Scanner)
    requires NoneEmpty(x.args)
    ensures NoneEmpty(Scan(s, x).args)
    decreases |s|
  {
    if s == "" {
    } else if x.quote == Some(s[0]) {
      ScanCollectsNoneEmpty(s[1..], x.(quote := None));
    } else if x.quote.None? && Quote(s[0]) {
      ScanCollectsNoneEmpty(s[1..], x.(quote := Some(s[0])));
    } else if x.quote.None? && White(s[0]) {
      ScanCollectsNoneEmpty(s[1..], Scanner(None, "", Push(x.args, x.current)));
    } else if s[0] == '\\' && |s| > 1 && Escapable(s[1]) {
      ScanCollectsNoneEmpty(s[2..], x.(current := x.current + [s[1]]));
    } else {
      ScanCollectsNoneEmpty(s[1..], x.(current := x.current + [s[0]]));
    }
  }

  /** No input ever yields an empty argument, or more than the limits allow. */
  lemma ParsedArgumentsAreProper(s: string)
    ensures Parse(s).Ok? ==> NoneEmpty(Parse(s).value) && WithinLimits(Parse(s).value)
  {
    ScanCollectsNoneEmpty(s, Scanner(None, "", []));
  }

  // ---- Rendering ----

  function Escaped(arg: string): string {
    if arg == "" then ""
    else (if arg[0] == '\\' || arg[0] == '"' then ['\\', arg[0]] else [arg[0]]) + Escaped(arg[1..])
  }

  function Quoted(arg: string): string {
    "\"" + Escaped(arg) + "\""
  }

  /** Double-quoted, backslash-escaped, joined by spaces. */
  function Render(args: seq<string>): string {
    if args == [] then ""
    else if |args| == 1 then Quoted(args[0])
    else Quoted(args[0]) + (" " + Render(args[1..]))
  }

  function NonEmpty(args: seq<string>): (r: seq<string>)
    ensures NoneEmpty(args) <==> r == args
    ensures |r| <= |args|
  {
    if args == [] then []
    else if args[0] == "" then NonEmpty(args[1..])
    else assert NonEmpty(args[1..]) == args[1..] ==> [args[0]] + args[1..] == args; [args[0]] + NonEmpty(args[1..])
  }

  lemma {:induction false} ScanEscaped(arg: string, rest: string, x: Scanner)
    requires x.quote == Some('"')
    ensures Scan(Escaped(arg) + ("\"" + rest), x) == Scan(rest, Scanner(None, x.current + arg, x.args))
    decreases |arg|
  {
    var tail := "\"" + rest;
    var s := Escaped(arg) + tail;
    if arg == "" {
      assert s == tail && s[1..] == rest && x.current + arg == x.current;
    } else {
      var more := Escaped(arg[1..]) + tail;
      ScanEscaped(arg[1..], rest, x.(current := x.current + [arg[0]]));
      assert x.current + [arg[0]] + arg[1..] == x.current + arg;
      if arg[0] == '\\' || arg[0] == '"' {
        assert s[0] == '\\' && s[1] == arg[0] && s[2..] == more;
      } else {
        assert s[0] == arg[0] && s[1..] == more;
      }
    }
  }

  lemma ScanQuoted(arg: string, rest: string, args: seq<string>)
    ensures Scan(Quoted(arg) + rest, Scanner(None, "", args)) == Scan(rest, Scanner(None, arg, args))
  {
    var s := Quoted(arg) + rest;
    assert s[0] == '"' && s[1..] == Escaped(arg) + ("\"" + rest);
    ScanEscaped(arg, rest, Scanner(Some('"'), "", args));
    assert "" + arg == arg;
  }

  lemma {:induction false} ScanRendered(args: seq<string>, done: seq<string>)
    ensures var x := Scan(Render(args), Scanner(None, "", done));
      x.quote.None? && Push(x.args, x.current) == done + NonEmpty(args)
    decreases |args|
  {
    if args == [] {
    } else if |args| == 1 {
      assert Quoted(args[0]) + "" == Quoted(args[0]);
      ScanQuoted(args[0], "", done);
      assert NonEmpty(args[1..]) == [];
    } else {
      var rest := " " + Render(args[1..]);
      ScanQuoted(args[0], rest, done);
      assert rest[0] == ' ' && rest[1..] == Render(args[1..]);
      ScanRendered(args[1..], Push(done, args[0]));
      assert Push(done, args[0]) + NonEmpty(args[1..]) == done + NonEmpty(args);
    }
  }

  /** Parsing a rendered list gives its non-empty arguments, if they are within the limits. */
  lemma ParseRendered(args: seq<string>)
    ensures Parse(Render(args)) == if WithinLimits(NonEmpty(args)) then Ok(NonEmpty(args)) else Err(LimitExceeded)
  {
    ScanRendered(args, []);
    assert [] + NonEmpty(args) == NonEmpty(args);
  }

  /** The round trip is exact for exactly the lists without an empty argument that are within
      the limits. */
  lemma RoundTripIff(args: seq<string>)
    ensures Parse(Render(args)) == Ok(args) <==> NoneEmpty(args) && WithinLimits(args)
  {
    ParseRendered(args);
  }

  // ---- Templates as they are written ----

  /** A part of an argument, as it is written next to others. */
  datatype Piece =
    | Bare(text: string)                          // neither quotes nor white space
    | Backslashed(c: char)                        // a backslash and a character it escapes
    | InQuotes(quote: char, text: string)         // any text, with what needs it escaped
    | Verbatim(quote: char, text: string)         // in quotes, with backslashes left alone

  /** No backslash of the text is before a character it would escape. */
  predicate KeepsBackslashes(text: string) {
    forall i :: 0 <= i < |text| && text[i] == '\\' ==> i + 1 < |text| && !Escapable(text[i + 1])
  }

  predicate ProperPiece(p: Piece) {
    match p
    case Bare(text) =>
      (forall i :: 0 <= i < |text| ==> !Quote(text[i]) && !White(text[i])) && KeepsBackslashes(text)
    case Backslashed(c) => Escapable(c)
    case InQuotes(quote, _) => Quote(quote)
    case Verbatim(quote, text) => Quote(quote) && quote !in text && KeepsBackslashes(text)
  }

  function Value(p: Piece): string {
    if p.Backslashed? then [p.c] else p.text
  }

  function EscapedIn(quote: char, text: string): string {
    if text == "" then ""
    else (if text[0] == '\\' || text[0] == quote then ['\\', text[0]] else [text[0]]) + EscapedIn(quote, text[1..])
  }

  function Written(p: Piece): string {
    match p
    case Bare(text) => text
    case Backslashed(c) => ['\\', c]
    case InQuotes(quote, text) => [quote] + (EscapedIn(quote, text) + [quote])
    case Verbatim(quote, text) => [quote] + (text + [quote])
  }

  /** Outside quotes, ordinary characters stand for themselves. */
  lemma {:induction false} ScanBare(text: string, rest: string, x: Scanner)
    requires x.quote.None? && KeepsBackslashes(text)
    requires forall i :: 0 <= i < |text| ==> !Quote(text[i]) && !White(text[i])
    ensures Scan(text + rest, x) == Scan(rest, x.(current := x.current + text))
    decreases |text|
  {
    if text == "" {
      assert text + rest == rest && x.current + text == x.current;
    } else {
      var s := text + rest;
      assert s[0] == text[0] && s[1..] == text[1..] + rest;
      assert |text| > 1 ==> s[1] == text[1];
      ScanBare(text[1..], rest, x.(current := x.current + [text[0]]));
      assert x.current + [text[0]] + text[1..] == x.current + text;
    }
  }

  /** Inside quotes, so does everything but that quote, and a backslash is kept. */
  lemma {:induction false} ScanVerbatim(quote: char, text: string, rest: string, x: Scanner)
    requires x.quote == Some(quote) && quote !in text && KeepsBackslashes(text)
    ensures Scan(text + rest, x) == Scan(rest, x.(current := x.current + text))
    decreases |text|
  {
    if text == "" {
      assert text + rest == rest && x.current + text == x.current;
    } else {
      var s := text + rest;
      assert s[0] == text[0] && s[1..] == text[1..] + rest;
      assert |text| > 1 ==> s[1] == text[1];
      ScanVerbatim(quote, text[1..], rest, x.(current := x.current + [text[0]]));
      assert x.current + [text[0]] + text[1..] == x.current + text;
    }
  }

  lemma {:induction false} ScanInQuotes(quote: char, text: string, rest: string, x: Scanner)
    requires x.quote == Some(quote) && Quote(quote)
    ensures Scan(EscapedIn(quote, text) + rest, x) == Scan(rest, x.(current := x.current + text))
    decreases |text|
  {
    var s := EscapedIn(quote, text) + rest;
    if text == "" {
      assert s == rest && x.current + text == x.current;
    } else {
      var more := EscapedIn(quote, text[1..]) + rest;
      ScanInQuotes(quote, text[1..], rest, x.(current := x.current + [text[0]]));
      assert x.current + [text[0]] + text[1..] == x.current + text;
      if text[0] == '\\' || text[0] == quote {
        assert s[0] == '\\' && s[1] == text[0] && s[2..] == more;
      } else {
        assert s[0] == text[0] && s[1..] == more;
      }
    }
  }

  lemma ScanQuote(quote: char, rest: string, x: Scanner)
    requires Quote(quote) && (x.quote.None? || x.quote == Some(quote))
    ensures Scan([quote] + rest, x) == Scan(rest, x.(quote := if x.quote.None? then Some(quote) else None))
  {
    assert ([quote] + rest)[1..] == rest;
  }

  lemma ScanPiece(p: Piece, rest: string, x: Scanner)
    requires x.quote.None? && ProperPiece(p)
    ensures Scan(Written(p) + rest, x) == Scan(rest, x.(current := x.current + Value(p)))
  {
    hide Scan;
    match p {
      case Bare(text) => ScanBare(text, rest, x);
      case Backslashed(c) => ScanBackslashed(c, rest, x);
      case InQuotes(quote, text) =>
        var inside := x.(quote := Some(quote));
        assert Written(p) + rest == [quote] + (EscapedIn(quote, text) + ([quote] + rest));
        ScanQuote(quote, EscapedIn(quote, text) + ([quote] + rest), x);
        ScanInQuotes(quote, text, [quote] + rest, inside);
        ScanQuote(quote, rest, inside.(current := x.current + text));
      case Verbatim(quote, text) =>
        var inside := x.(quote := Some(quote));
        assert Written(p) + rest == [quote] + (text + ([quote] + rest));
        ScanQuote(quote, text + ([quote] + rest), x);
        ScanVerbatim(quote, text, [quote] + rest, inside);
        ScanQuote(quote, rest, inside.(current := x.current + text));
    }
  }

  lemma ScanBackslashed(c: char, rest: string, x: Scanner)
    requires x.quote.None? && Escapable(c)
    ensures Scan(['\\', c] + rest, x) == Scan(rest, x.(current := x.current + [c]))
  {
    assert (['\\', c] + rest)[2..] == rest;
  }

  /** An argument is one piece after another. */
  type Argument = seq<Piece>

  ghost predicate ProperArguments(args: seq<Argument>) {
    forall i, j :: 0 <= i < |args| && 0 <= j < |args[i]| ==> ProperPiece(args[i][j])
  }

  function WrittenArgument(arg: Argument): string {
    if arg == [] then "" else Written(arg[0]) + WrittenArgument(arg[1..])
  }

  function ValueOf(arg: Argument): string {
    if arg == [] then "" else Value(arg[0]) + ValueOf(arg[1..])
  }

  function ValuesOf(args: seq<Argument>): (values: seq<string>)
    ensures |values| == |args|
  {
    if args == [] then [] else [ValueOf(args[0])] + ValuesOf(args[1..])
  }

  /** White space before, between and after the arguments; between them there is some. */
  predicate Gaps(gaps: seq<string>, count: nat) {
    && |gaps| == count + 1
    && (forall i, j :: 0 <= i < |gaps| && 0 <= j < |gaps[i]| ==> White(gaps[i][j]))
    && (forall i :: 0 < i < count ==> gaps[i] != "")
  }

  function Template(args: seq<Argument>, gaps: seq<string>): string
    requires |gaps| == |args| + 1
    decreases |args|
  {
    if args == [] then gaps[0] else gaps[0] + (WrittenArgument(args[0]) + Template(args[1..], gaps[1..]))
  }

  lemma {:induction false} ScanArgument(arg: Argument, rest: string, x: Scanner)
    requires x.quote.None? && forall j :: 0 <= j < |arg| ==> ProperPiece(arg[j])
    ensures Scan(WrittenArgument(arg) + rest, x) == Scan(rest, x.(current := x.current + ValueOf(arg)))
    decreases |arg|
  {
    hide Scan, ProperPiece, Written, Value;
    if arg == [] {
      assert WrittenArgument(arg) + rest == rest && x.current + ValueOf(arg) == x.current;
    } else {
      Regroup(Written(arg[0]), WrittenArgument(arg[1..]), rest);
      ScanPiece(arg[0], WrittenArgument(arg[1..]) + rest, x);
      ScanArgument(arg[1..], rest, x.(current := x.current + Value(arg[0])));
      Regroup(x.current, Value(arg[0]), ValueOf(arg[1..]));
    }
  }

  lemma {:induction false} ScanGap(gap: string, rest: string, x: Scanner)
    requires x.quote.None? && forall j :: 0 <= j < |gap| ==> White(gap[j])
    ensures Scan(gap + rest, x) == Scan(rest, if gap == "" then x else Scanner(None, "", Push(x.args, x.current)))
    decreases |gap|
  {
    if gap == "" {
      assert gap + rest == rest;
    } else {
      assert (gap + rest)[1..] == gap[1..] + rest && !Quote(gap[0]);
      ScanGap(gap[1..], rest, Scanner(None, "", Push(x.args, x.current)));
    }
  }

  /** Behind a whole template no quote is open, and the arguments are collected. */
  lemma {:induction false} ScanTemplate(args: seq<Argument>, gaps: seq<string>, rest: string, x: Scanner)
    returns (y: Scanner)
    requires ProperArguments(args) && Gaps(gaps, |args|)
    requires x.quote.None? && (x.current == "" || gaps[0] != "" || args == [])
    ensures Scan(Template(args, gaps) + rest, x) == Scan(rest, y) && y.quote.None?
    ensures Push(y.args, y.current) == Push(x.args, x.current) + NonEmpty(ValuesOf(args))
    decreases |args|
  {
    hide Scan, ProperArguments, Gaps, WrittenArgument, ValueOf;
    GapIsWhite(args, gaps);
    if args == [] {
      ScanGap(gaps[0], rest, x);
      y := if gaps[0] == "" then x else Scanner(None, "", Push(x.args, x.current));
    } else {
      var argument, more := WrittenArgument(args[0]), Template(args[1..], gaps[1..]);
      Regroup(gaps[0], argument + more, rest);
      Regroup(argument, more, rest);
      ScanGap(gaps[0], argument + (more + rest), x);
      var z := if gaps[0] == "" then x else Scanner(None, "", Push(x.args, x.current));
      ScanArgument(args[0], more + rest, z);
      assert "" + ValueOf(args[0]) == ValueOf(args[0]);
      y := ScanTemplate(args[1..], gaps[1..], rest, z.(current := ValueOf(args[0])));
      CollectNext(Push(x.args, x.current), args);
    }
  }

  lemma GapIsWhite(args: seq<Argument>, gaps: seq<string>)
    requires ProperArguments(args) && Gaps(gaps, |args|)
    ensures |gaps| == |args| + 1 && forall j :: 0 <= j < |gaps[0]| ==> White(gaps[0][j])
    ensures args != [] ==>
      && (forall j :: 0 <= j < |args[0]| ==> ProperPiece(args[0][j]))
      && ProperArguments(args[1..]) && Gaps(gaps[1..], |args[1..]|) && (args[1..] == [] || gaps[1..][0] != "")
  {
    hide White, ProperPiece;
    assert args != [] ==> forall i, j :: 0 <= i < |args[1..]| && 0 <= j < |args[1..][i]| ==>
      args[1..][i][j] == args[i + 1][j];
    assert args != [] ==> forall i, j :: 0 <= i < |gaps[1..]| && 0 <= j < |gaps[1..][i]| ==>
      gaps[1..][i][j] == gaps[i + 1][j];
  }

  lemma CollectNext(done: seq<string>, args: seq<Argument>)
    requires args != []
    ensures Push(done, ValueOf(args[0])) + NonEmpty(ValuesOf(args[1..])) == done + NonEmpty(ValuesOf(args))
  {
    hide ValueOf;
    assert ValuesOf(args)[1..] == ValuesOf(args[1..]);
  }

  /** Whatever way the arguments are written, in pieces bare, escaped or in either kind of
      quotes, with any white space around them: the template parses to their values, without
      the empty ones, if these are within the limits. */
  lemma TemplatesParse(args: seq<Argument>, gaps: seq<string>)
    requires ProperArguments(args) && Gaps(gaps, |args|)
    ensures var values := NonEmpty(ValuesOf(args));
      Parse(Template(args, gaps)) == if WithinLimits(values) then Ok(values) else Err(LimitExceeded)
  {
    var y := ScanTemplate(args, gaps, "", Scanner(None, "", []));
    assert Template(args, gaps) + "" == Template(args, gaps);
    assert [] + NonEmpty(ValuesOf(args)) == NonEmpty(ValuesOf(args));
  }

  /** A quote left open behind any template is the error, and names that quote. */
  lemma OpenQuoteIsReported(args: seq<Argument>, gaps: seq<string>, quote: char, text: string)
    requires ProperArguments(args) && Gaps(gaps, |args|) && Quote(quote)
    ensures Parse(Template(args, gaps) + ([quote] + EscapedIn(quote, text))) == Err(UnclosedQuote(quote))
  {
    var tail := [quote] + EscapedIn(quote, text);
    var y := ScanTemplate(args, gaps, tail, Scanner(None, "", []));
    ScanQuote(quote, EscapedIn(quote, text), y);
    ScanInQuotes(quote, text, "", y.(quote := Some(quote)));
    assert EscapedIn(quote, text) + "" == EscapedIn(quote, text);
  }

  predicate PlainWord(word: string) {
    && word != "" && Bytes(word) <= MAX_ARGUMENT_BYTES
    && forall i :: 0 <= i < |word| ==> !Escapable(word[i]) && !White(word[i])
  }

  function Bared(words: seq<string>): (args: seq<Argument>)
    ensures |args| == |words| && forall i :: 0 <= i < |words| ==> args[i] == [Bare(words[i])]
  {
    seq(|words|, i requires 0 <= i < |words| => [Bare(words[i])])
  }

  lemma {:induction false} BaredValues(words: seq<string>)
    requires forall i :: 0 <= i < |words| ==> PlainWord(words[i])
    ensures ValuesOf(Bared(words)) == words && NonEmpty(words) == words
  {
    hide PlainWord;
    if words != [] {
      assert PlainWord(words[0]);
      PlainWordIsNotEmpty(words[0]);
      assert Bared(words)[1..] == Bared(words[1..]);
      BaredValues(words[1..]);
      assert Bared(words)[0] == [Bare(words[0])] && [Bare(words[0])][1..] == [];
      assert ValueOf([Bare(words[0])]) == words[0] + "" == words[0];
      assert [words[0]] + words[1..] == words;
    }
  }

  lemma PlainWordIsNotEmpty(word: string)
    requires PlainWord(word)
    ensures word != ""
  {
  }

  /** Words without quotes and backslashes parse to themselves, and so does one word alone. */
  lemma WordsParseToThemselves(words: seq<string>, gaps: seq<string>)
    requires |words| <= MAX_ARGUMENTS && forall i :: 0 <= i < |words| ==> PlainWord(words[i])
    requires Gaps(gaps, |words|)
    ensures Parse(Template(Bared(words), gaps)) == Ok(words)
    ensures |words| == 1 ==> Parse(words[0]) == Ok(words)
  {
    var args := Bared(words);
    forall i, j | 0 <= i < |args| && 0 <= j < |args[i]|
      ensures ProperPiece(args[i][j])
    {
      assert PlainWord(words[i]);
    }
    BaredValues(words);
    TemplatesParse(args, gaps);
    if |words| == 1 {
      TemplatesParse(args, ["", ""]);
      assert args[1..] == [] && args[0][1..] == [];
      assert WrittenArgument(args[0]) == words[0] + "" == words[0];
      assert Template(args, ["", ""]) == "" + (words[0] + "") == words[0];
    }
  }
}
