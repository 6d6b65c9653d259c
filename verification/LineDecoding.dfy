/** Splitting into lines and lossy decoding can be exchanged, so that what is said of lines of
    bytes holds of the lines of the decoded text (src/logging/reader.rs). */
module LineDecoding {
  import opened Sequences
  import opened Wrappers
  import opened TailReader
  import opened Utf8Decoding

  // ---- Lines of text ----

  function WithoutReturn(line: string): string {
    if line != "" && line[|line| - 1] == '\r' then line[..|line| - 1] else line
  }

  function TextLines(text: string): seq<string>
    decreases |text|
  {
    if text == "" then []
    else match Find(text, '\n')
      case None => [text]
      case Some(i) => [WithoutReturn(text[..i])] + TextLines(text[i + 1..])
  }

  function DecodeAll(lines: seq<seq<Byte>>): (r: seq<string>)
    ensures |r| == |lines|
  {
    seq(|lines|, i requires 0 <= i < |lines| => Decode(lines[i]))
  }

  // ---- ASCII bytes and characters ----

  /** Only an ASCII byte on its own decodes to an ASCII character. */
  lemma AsciiCharacter(unit: seq<Byte>)
    requires unit != [] && Unit(unit) == |unit|
    ensures Character(unit) as int < 0x80 <==> unit[0] < 0x80
    ensures unit[0] < 0x80 ==> |unit| == 1 && Character(unit) == unit[0] as char
  {
  }

  lemma {:induction false} AsciiBeginsUnit(s: seq<Byte>, k: nat)
    requires k < |s| && s[k] < 0x80
    ensures Boundary(s, k)
    decreases |s|
  {
    if k > 0 {
      assert Unit(s) <= k;
      AsciiBeginsUnit(s[Unit(s)..], k - Unit(s));
    }
  }

  /** An ASCII byte decodes to its character, between what is before and what is after it. */
  lemma DecodeAround(a: seq<Byte>, c: Byte, b: seq<Byte>)
    requires c < 0x80
    ensures Decode(a + [c] + b) == Decode(a) + [c as char] + Decode(b)
  {
    hide Decode, Unit, Character;
    var s, tail := a + [c] + b, [c] + b;
    AsciiBeginsUnit(s, |a|);
    DecodeSplits(s, |a|);
    assert s[..|a|] == a && s[|a|..] == tail;
    AsciiEndsUnit(tail, 1);
    DecodeSplits(tail, 1);
    assert tail[..1] == [c] && tail[1..] == b;
    DecodeOne(c);
    Regroup(Decode(a), [c as char], Decode(b));
  }

  lemma DecodeOne(c: Byte)
    requires c < 0x80
    ensures Decode([c]) == [c as char]
  {
    assert [c][..1] == [c] && [c][1..] == [];
  }

  lemma {:induction false} AbsentStaysAbsent(s: seq<Byte>, c: Byte)
    requires c < 0x80 && c !in s
    ensures c as char !in Decode(s)
    decreases |s|
  {
    if s != [] {
      var n := Unit(s);
      DecodeFirst(s, |s|);
      assert s[..|s|] == s && s[n..][..|s| - n] == s[n..];
      AsciiCharacter(s[..n]);
      AbsentStaysAbsent(s[n..], c);
    }
  }

  /** The last character is ASCII only if the last byte is. */
  lemma {:induction false} LastCharacter(s: seq<Byte>)
    requires s != []
    ensures Decode(s) != "" && var last := Decode(s)[|Decode(s)| - 1];
      last as int < 0x80 ==> last == s[|s| - 1] as char
    decreases |s|
  {
    hide Decode, Character;
    var n := Unit(s);
    DecodeFirst(s, |s|);
    assert s[..|s|] == s && s[n..][..|s| - n] == s[n..];
    AsciiCharacter(s[..n]);
    if n == |s| {
      NothingDecodes();
    } else {
      LastCharacter(s[n..]);
    }
  }

  lemma ReturnDecodes(line: seq<Byte>)
    ensures WithoutReturn(Decode(line)) == Decode(WithoutCr(line))
  {
    hide Decode;
    if line == [] {
      NothingDecodes();
    } else if line[|line| - 1] == CR {
      var before := line[..|line| - 1];
      assert line == before + [CR] + [];
      DecodeAround(before, CR, []);
      NothingDecodes();
      assert Decode(line) == Decode(before) + "\r";
    } else {
      LastCharacter(line);
    }
  }

  /** The lines of the decoded text are the decoded lines. */
  lemma {:induction false} LinesDecode(s: seq<Byte>)
    ensures TextLines(Decode(s)) == DecodeAll(Lines(s))
    decreases |s|
  {
    hide Decode, Find, WithoutCr, WithoutReturn;
    if s == [] {
      NothingDecodes();
    } else {
      LastCharacter(s);
      match Find(s, LF) {
        case None =>
          AbsentStaysAbsent(s, LF);
          assert Find(Decode(s), '\n').None?;
        case Some(i) =>
          var line, rest := s[..i], s[i + 1..];
          assert s == line + [LF] + rest;
          DecodeAround(line, LF, rest);
          AbsentStaysAbsent(line, LF);
          FirstFeed(Decode(line), Decode(rest));
          ReturnDecodes(line);
          LinesDecode(rest);
      }
    }
  }

  lemma FirstFeed(line: string, rest: string)
    requires '\n' !in line
    ensures TextLines(line + "\n" + rest) == [WithoutReturn(line)] + TextLines(rest)
  {
    var text := line + "\n" + rest;
    assert text[|line|] == '\n' && forall j :: 0 <= j < |line| ==> text[j] == line[j];
    FindIs(text, '\n', |line|);
    assert text[..|line|] == line && text[|line| + 1..] == rest;
  }
}
