/** Searching and regrouping sequences, of bytes or of anything else. */
module Sequences {
  import opened Wrappers

  type Byte = n: int | 0 <= n < 256

  /** The first position of `x`. */
  function Find<T(==)>(s: seq<T>, x: T): (r: Option<nat>)
    ensures r.Some? ==> r.value < |s| && s[r.value] == x && forall i :: 0 <= i < r.value ==> s[i] != x
    ensures r.None? ==> forall i :: 0 <= i < |s| ==> s[i] != x
  {
    if s == [] then None
    else if s[0] == x then Some(0)
    else match Find(s[1..], x)
      case None => None
      case Some(i) => Some(i + 1)
  }

  lemma FindIs<T>(s: seq<T>, x: T, i: nat)
    requires i < |s| && s[i] == x && forall j :: 0 <= j < i ==> s[j] != x
    ensures Find(s, x) == Some(i)
  {
    var r := Find(s, x);
    assert r.Some?;
  }

  lemma FindInPrefix<T>(a: seq<T>, b: seq<T>, x: T)
    requires Find(a, x).Some?
    ensures Find(a + b, x) == Find(a, x)
  {
    var i := Find(a, x).value;
    hide Find;
    assert forall j :: 0 <= j <= i ==> (a + b)[j] == a[j];
    FindIs(a + b, x, i);
  }

  lemma FindInSuffix<T>(a: seq<T>, b: seq<T>, x: T)
    requires Find(a, x).None?
    ensures Find(a + b, x) == if Find(b, x).Some? then Some(|a| + Find(b, x).value) else None
  {
    hide Find;
    var s := a + b;
    assert forall j :: 0 <= j < |a| ==> s[j] == a[j];
    assert forall j :: |a| <= j < |s| ==> s[j] == b[j - |a|];
    if Find(b, x).Some? {
      FindIs(s, x, |a| + Find(b, x).value);
    }
  }

  lemma SplitSuffix<T>(a: seq<T>, b: seq<T>, i: nat)
    requires i <= |b|
    ensures (a + b)[..|a| + i] == a + b[..i]
    ensures (a + b)[|a| + i..] == b[i..]
  {
  }

  lemma SplitPrefix<T>(a: seq<T>, b: seq<T>, i: nat)
    requires i <= |a|
    ensures (a + b)[..i] == a[..i]
    ensures (a + b)[i..] == a[i..] + b
  {
  }

  function Flatten<T>(chunks: seq<seq<T>>): seq<T> {
    if chunks == [] then [] else chunks[0] + Flatten(chunks[1..])
  }

  function LastN<T>(s: seq<T>, n: nat): seq<T> {
    if |s| <= n then s else s[|s| - n..]
  }

  lemma Snoc<T>(s: seq<T>, x: T)
    ensures (s + [x])[..|s|] == s
  {
  }

  lemma LastNSnoc<T>(s: seq<T>, x: T, n: nat)
    requires n > 0
    ensures LastN(s + [x], n) == LastN(s, n - 1) + [x]
  {
  }

  lemma LastOfLast<T>(s: seq<T>, p: nat, n: nat)
    requires n <= p
    ensures LastN(LastN(s, p), n) == LastN(s, n)
  {
  }

  lemma LastNone<T>(s: seq<T>)
    ensures LastN(s, 0) == []
  {
  }

  lemma LastOfNothing<T>(s: seq<T>, n: nat)
    requires s == []
    ensures LastN(s, n) == []
  {
  }

  lemma Regroup<T>(a: seq<T>, b: seq<T>, c: seq<T>)
    ensures (a + b) + c == a + (b + c)
  {
  }
}
