/** Lossy decoding of UTF-8, as String::from_utf8_lossy does it, and what becomes of a text
    whose bytes are decoded chunk by chunk. */
module Utf8Decoding {
  import opened Sequences
  import opened Utf8

  // ---- Units ----

  /** How many bytes the first byte of a character announces. None begins with any other. */
  function Announced(first: Byte): nat {
    if first < 0x80 then 1
    else if 0xc2 <= first <= 0xdf then 2
    else if 0xe0 <= first <= 0xef then 3
    else if 0xf0 <= first <= 0xf4 then 4
    else 0
  }

  predicate Continues(b: Byte) {
    0x80 <= b <= 0xbf
  }

  /** The second byte may not make the character overlong, a surrogate or out of range. */
  predicate Follows(first: Byte, second: Byte) {
    if first == 0xe0 then 0xa0 <= second <= 0xbf
    else if first == 0xed then 0x80 <= second <= 0x9f
    else if first == 0xf0 then 0x90 <= second <= 0xbf
    else if first == 0xf4 then 0x80 <= second <= 0x8f
    else Continues(second)
  }

  /** The bytes decoded together: a character, or as much of one as there is. */
  function Unit(s: seq<Byte>): (n: nat)
    requires s != []
    ensures 1 <= n <= |s| && n <= 4
  {
    var n := Announced(s[0]);
    if n < 2 || |s| < 2 || !Follows(s[0], s[1]) then 1
    else if n < 3 || |s| < 3 || !Continues(s[2]) then 2
    else if n < 4 || |s| < 4 || !Continues(s[3]) then 3
    else 4
  }

  /** The character of a complete unit; any other becomes a replacement character. */
  function Character(unit: seq<Byte>): char
    requires unit != [] && Unit(unit) == |unit|
  {
    var first: int := unit[0];
    if |unit| != Announced(unit[0]) then '\U{FFFD}'
    else if |unit| == 1 then first as char
    else if |unit| == 2 then ((first - 0xc0) * 0x40 + Low(unit[1])) as char
    else if |unit| == 3 then ((first - 0xe0) * 0x1000 + Low(unit[1]) * 0x40 + Low(unit[2])) as char
    else ((first - 0xf0) * 0x4_0000 + Low(unit[1]) * 0x1000 + Low(unit[2]) * 0x40 + Low(unit[3])) as char
  }

  /** The six bits a continuation byte carries. */
  function Low(b: Byte): (n: nat)
    requires Continues(b)
    ensures n < 0x40
  {
    b - 0x80
  }

  /** A unit does not depend on what comes after it. */
  lemma UnitIsLocal(s: seq<Byte>, k: nat)
    requires 0 < k <= |s|
    ensures Unit(s[..k]) == if Unit(s) <= k then Unit(s) else k
  {
  }

  function Decode(s: seq<Byte>): string
    decreases |s|
  {
    if s == [] then ""
    else
      UnitIsLocal(s, Unit(s));
      [Character(s[..Unit(s)])] + Decode(s[Unit(s)..])
  }

  /** The first character of a prefix that holds the first unit. */
  lemma DecodeFirst(s: seq<Byte>, k: nat)
    requires s != [] && Unit(s) <= k <= |s|
    ensures Unit(s[..k]) == Unit(s) && Unit(s[..Unit(s)]) == Unit(s)
    ensures Decode(s[..k]) == [Character(s[..Unit(s)])] + Decode(s[Unit(s)..][..k - Unit(s)])
  {
    hide Unit, Character;
    var n := Unit(s);
    UnitIsLocal(s, k);
    UnitIsLocal(s, n);
    assert s[..k][..n] == s[..n] && s[..k][n..] == s[n..][..k - n];
  }

  // ---- Encoding ----

  /** The UTF-8 encoding of a character. */
  function Encode(c: char): seq<Byte> {
    var n := c as int;
    if n < 0x80 then [n]
    else if n < 0x800 then [0xc0 + n / 0x40, 0x80 + n % 0x40]
    else if n < 0x1_0000 then [0xe0 + n / 0x1000, 0x80 + n / 0x40 % 0x40, 0x80 + n % 0x40]
    else [0xf0 + n / 0x4_0000, 0x80 + n / 0x1000 % 0x40, 0x80 + n / 0x40 % 0x40, 0x80 + n % 0x40]
  }

  function EncodeAll(s: string): seq<Byte> {
    if s == "" then [] else Encode(s[0]) + EncodeAll(s[1..])
  }

  lemma EncodedIsUnit(c: char, rest: seq<Byte>)
    ensures |Encode(c)| == Width(c) && Unit(Encode(c) + rest) == Width(c)
    ensures Unit(Encode(c)) == |Encode(c)| && Character(Encode(c)) == c
  {
    var n := c as int;
    var unit, s := Encode(c), Encode(c) + rest;
    assert forall i :: 0 <= i < |unit| ==> s[i] == unit[i];
    SixBits(n);
  }

  lemma SixBits(n: nat)
    ensures n == n / 0x40 * 0x40 + n % 0x40
    ensures n / 0x40 == n / 0x1000 * 0x40 + n / 0x40 % 0x40
    ensures n / 0x1000 == n / 0x4_0000 * 0x40 + n / 0x1000 % 0x40
  {
  }

  /** Decoding an encoded text gives the text, and its size is the one limits count. */
  lemma {:induction false} DecodeEncoded(s: string)
    ensures Decode(EncodeAll(s)) == s && |EncodeAll(s)| == Bytes(s)
  {
    if s != "" {
      var unit, rest := Encode(s[0]), EncodeAll(s[1..]);
      hide Unit, Character, Encode;
      EncodedIsUnit(s[0], rest);
      assert (unit + rest)[..|unit|] == unit && (unit + rest)[|unit|..] == rest;
      DecodeEncoded(s[1..]);
    }
  }

  // ---- One cut ----

  /** No unit of the text reaches across position `k`. */
  predicate Boundary(s: seq<Byte>, k: nat)
    decreases |s|
  {
    k == 0 || (s != [] && Unit(s) <= k && Boundary(s[Unit(s)..], k - Unit(s)))
  }

  lemma NothingDecodes()
    ensures Decode([]) == ""
  {
  }

  /** Between two units the text can be cut. */
  lemma {:induction false} DecodeSplits(s: seq<Byte>, k: nat)
    requires k <= |s| && Boundary(s, k)
    ensures Decode(s) == Decode(s[..k]) + Decode(s[k..])
    decreases |s|
  {
    hide Unit, Decode, Character;
    if k == 0 {
      assert s[..0] == [] && s[0..] == s;
      NothingDecodes();
    } else {
      var n := Unit(s);
      DecodeFirst(s, k);
      DecodeFirst(s, |s|);
      assert s[..|s|] == s && s[n..][..|s| - n] == s[n..] && s[n..][k - n..] == s[k..];
      DecodeSplits(s[n..], k - n);
      Regroup([Character(s[..n])], Decode(s[n..][..k - n]), Decode(s[k..]));
    }
  }

  /** Continuation bytes at the start of a chunk are each replaced. */
  lemma {:induction false} StrayBytes(s: seq<Byte>, m: nat)
    requires m <= |s| && forall i :: 0 <= i < m ==> Continues(s[i])
    ensures |Decode(s)| == m + |Decode(s[m..])|
    decreases m
  {
    if m == 0 {
      assert s[0..] == s;
    } else {
      StrayBytes(s[1..], m - 1);
      assert s[1..][m - 1..] == s[m..];
    }
  }

  /** Inside a unit it cannot: there will be more characters. */
  lemma {:induction false} DecodeCut(s: seq<Byte>, k: nat)
    requires k <= |s| && !Boundary(s, k)
    ensures |Decode(s[..k])| + |Decode(s[k..])| > |Decode(s)|
    decreases |s|
  {
    hide Unit, Decode, Character;
    var n := Unit(s);
    DecodeFirst(s, |s|);
    assert s[..|s|] == s && s[n..][..|s| - n] == s[n..];
    if n <= k {
      DecodeFirst(s, k);
      DecodeCut(s[n..], k - n);
      assert s[n..][k - n..] == s[k..];
    } else {
      CutUnit(s, k);
      assert s[k..][n - k..] == s[n..];
    }
  }

  /** The part of a unit before the cut is a unit, and the bytes after it are strays. */
  lemma CutUnit(s: seq<Byte>, k: nat)
    requires s != [] && 0 < k < Unit(s)
    ensures |Decode(s[..k])| == 1
    ensures |Decode(s[k..])| == Unit(s) - k + |Decode(s[k..][Unit(s) - k..])|
  {
    hide Decode, Character;
    UnitIsLocal(s, k);
    DecodeFirst(s[..k], k);
    assert s[..k][..k] == s[..k] && s[..k][k..] == [];
    NothingDecodes();
    StrayBytes(s[k..], Unit(s) - k);
  }

  // ---- Any number of chunks ----

  /** The text a reader sees who decodes each chunk on its own. */
  function DecodeApart(chunks: seq<seq<Byte>>): string {
    if chunks == [] then "" else Decode(chunks[0]) + DecodeApart(chunks[1..])
  }

  /** Where the first `i` chunks end. */
  function End(chunks: seq<seq<Byte>>, i: nat): nat
    requires i <= |chunks|
  {
    |Flatten(chunks[..i])|
  }

  /** No chunk ends inside a unit of the whole. */
  ghost predicate Uncut(chunks: seq<seq<Byte>>) {
    forall i :: 0 <= i <= |chunks| ==> Boundary(Flatten(chunks), End(chunks, i))
  }

  lemma {:induction false} BoundaryAfter(s: seq<Byte>, k: nat, m: nat)
    requires k <= |s| && Boundary(s, k)
    ensures Boundary(s, k + m) <==> Boundary(s[k..], m)
    decreases |s|
  {
    hide Unit;
    if k == 0 {
      assert s[0..] == s;
    } else {
      var n := Unit(s);
      BoundaryAfter(s[n..], k - n, m);
      assert s[n..][k - n..] == s[k..];
    }
  }

  lemma EndAfter(chunks: seq<seq<Byte>>, i: nat)
    requires chunks != [] && i < |chunks|
    ensures End(chunks, i + 1) == |chunks[0]| + End(chunks[1..], i)
  {
    assert chunks[..i + 1][0] == chunks[0] && chunks[..i + 1][1..] == chunks[1..][..i];
  }

  lemma UncutStart(chunks: seq<seq<Byte>>)
    requires chunks != []
    ensures End(chunks, 0) == 0 && Boundary(Flatten(chunks), 0)
    ensures |chunks[0]| <= |Flatten(chunks)| && Flatten(chunks)[|chunks[0]|..] == Flatten(chunks[1..])
  {
  }

  lemma UncutAfter(chunks: seq<seq<Byte>>)
    requires chunks != [] && Boundary(Flatten(chunks), |chunks[0]|)
    ensures Uncut(chunks) <==> Uncut(chunks[1..])
  {
    hide Boundary, Flatten, End;
    var all, rest := Flatten(chunks), Flatten(chunks[1..]);
    UncutStart(chunks);
    forall i | 0 <= i < |chunks|
      ensures Boundary(all, End(chunks, i + 1)) <==> Boundary(rest, End(chunks[1..], i))
    {
      EndAfter(chunks, i);
      BoundaryAfter(all, |chunks[0]|, End(chunks[1..], i));
    }
    if Uncut(chunks[1..]) {
      forall i | 0 <= i <= |chunks|
        ensures Boundary(all, End(chunks, i))
      {
        if i > 0 {
          assert Boundary(rest, End(chunks[1..], i - 1));
        }
      }
    }
    if Uncut(chunks) {
      forall i | 0 <= i < |chunks|
        ensures Boundary(rest, End(chunks[1..], i))
      {
        assert Boundary(all, End(chunks, i + 1));
      }
    }
  }

  /** Decoding chunk by chunk never gives fewer characters, and as many only if no chunk ends
      inside a unit. */
  lemma {:induction false} ApartIsLonger(chunks: seq<seq<Byte>>)
    ensures |DecodeApart(chunks)| >= |Decode(Flatten(chunks))|
    ensures Uncut(chunks) ==> DecodeApart(chunks) == Decode(Flatten(chunks))
    ensures !Uncut(chunks) ==> |DecodeApart(chunks)| > |Decode(Flatten(chunks))|
  {
    hide Decode, Boundary, Uncut;
    if chunks == [] {
      NothingIsUncut(chunks);
    } else {
      var all, k := Flatten(chunks), |chunks[0]|;
      assert all[..k] == chunks[0] && all[k..] == Flatten(chunks[1..]);
      ApartIsLonger(chunks[1..]);
      if Boundary(all, k) {
        DecodeSplits(all, k);
        UncutAfter(chunks);
      } else {
        DecodeCut(all, k);
        CutIsNotUncut(chunks);
      }
    }
  }

  lemma NothingIsUncut(chunks: seq<seq<Byte>>)
    requires chunks == []
    ensures Uncut(chunks) && DecodeApart(chunks) == Decode(Flatten(chunks))
  {
    assert End(chunks, 0) == 0;
  }

  lemma CutIsNotUncut(chunks: seq<seq<Byte>>)
    requires chunks != [] && !Boundary(Flatten(chunks), |chunks[0]|)
    ensures !Uncut(chunks)
  {
    EndAfter(chunks, 0);
    assert End(chunks[1..], 0) == 0;
    assert !Boundary(Flatten(chunks), End(chunks, 1));
  }

  /** Decoding chunk by chunk gives the text of the whole if and only if no chunk ends inside
      a unit. */
  lemma ChunksDecodeIff(chunks: seq<seq<Byte>>)
    ensures DecodeApart(chunks) == Decode(Flatten(chunks)) <==> Uncut(chunks)
  {
    ApartIsLonger(chunks);
  }

  /** After an ASCII byte, such as a line feed, a text can always be cut. */
  lemma {:induction false} AsciiEndsUnit(s: seq<Byte>, k: nat)
    requires k <= |s| && (k == 0 || s[k - 1] < 0x80)
    ensures Boundary(s, k)
    decreases |s|
  {
    if k > 0 {
      var n := Unit(s);
      assert n <= k;
      AsciiEndsUnit(s[n..], k - n);
    }
  }

  /** Chunks that end after whole lines do not cut anything. */
  lemma {:induction false} WholeLinesAreUncut(chunks: seq<seq<Byte>>)
    requires forall i :: 0 <= i < |chunks| ==> chunks[i] == [] || chunks[i][|chunks[i]| - 1] < 0x80
    ensures Uncut(chunks)
  {
    if chunks == [] {
      NothingIsUncut(chunks);
    } else {
      assert chunks[0] != [] ==> Flatten(chunks)[|chunks[0]| - 1] == chunks[0][|chunks[0]| - 1];
      AsciiEndsUnit(Flatten(chunks), |chunks[0]|);
      WholeLinesAreUncut(chunks[1..]);
      UncutAfter(chunks);
    }
  }

  /** The input: a letter of two bytes, each in a chunk of its own, becomes two replacement
      characters. */
  lemma CutLetter()
    ensures Decode([0xc3, 0xa9]) == "\U{E9}" && DecodeApart([[0xc3], [0xa9]]) == "\U{FFFD}\U{FFFD}"
  {
    assert Decode([0xc3]) == "\U{FFFD}" && Decode([0xa9]) == "\U{FFFD}";
    assert [[0xc3], [0xa9]][1..] == [[0xa9]] && [[0xa9]][1..] == [];
    assert DecodeApart([[0xa9]]) == Decode([0xa9]) + "";
    assert Decode([0xc3, 0xa9]) == [Character([0xc3, 0xa9])] + Decode([]) by {
      assert [0xc3, 0xa9][..2] == [0xc3, 0xa9] && [0xc3, 0xa9][2..] == [];
    }
  }
}
