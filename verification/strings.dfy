/** The handful of Python string operations the modelled code relies on:
    str.isspace, str.strip, str.split() (on runs of whitespace), str.split(c),
    " ".join, str.lower, slicing with clamped bounds, int() and the ordering
    that sorted() uses on strings. */
module Strings {
  import opened Common

  /** Python's str.isspace() for one character. */
  predicate IsSpace(c: char) {
    || c == ' ' || ('\t' <= c <= '\r') || ('\U{1c}' <= c <= '\U{1f}')
    || c == '\U{85}' || c == '\U{a0}' || c == '\U{1680}' || ('\U{2000}' <= c <= '\U{200a}')
    || c == '\U{2028}' || c == '\U{2029}' || c == '\U{202f}' || c == '\U{205f}' || c == '\U{3000}'
  }

  predicate NoSpace(s: string) {
    forall i :: 0 <= i < |s| ==> !IsSpace(s[i])
  }

  predicate AllSpace(s: string) {
    forall i :: 0 <= i < |s| ==> IsSpace(s[i])
  }

  /** What str.split() can produce: a non-empty string without whitespace. */
  predicate IsWord(w: string) {
    w != [] && NoSpace(w)
  }

  predicate AllWords(ws: seq<string>) {
    forall i :: 0 <= i < |ws| ==> IsWord(ws[i])
  }

  // ---------------------------------------------------------------------------
  // strip()

  function TrimLeft(s: string): (r: string)
    ensures |r| <= |s| && r == s[|s| - |r|..]
    ensures AllSpace(s[..|s| - |r|])
    ensures r == [] || !IsSpace(r[0])
  {
    if s != [] && IsSpace(s[0]) then TrimLeft(s[1..]) else s
  }

  function TrimRight(s: string): (r: string)
    ensures |r| <= |s| && r == s[..|r|]
    ensures AllSpace(s[|r|..])
    ensures r == [] || !IsSpace(r[|r| - 1])
  {
    if s != [] && IsSpace(s[|s| - 1]) then TrimRight(s[..|s| - 1]) else s
  }

  /** Python's str.strip(): the string without its leading and trailing whitespace. */
  function Strip(s: string): (r: string)
    ensures r == [] <==> AllSpace(s)
    ensures r != [] ==> !IsSpace(r[0]) && !IsSpace(r[|r| - 1])
  {
    var t := TrimLeft(s);
    var r := TrimRight(t);
    assert r == [] ==> t == [];
    assert t == [] ==> s[..|s| - |t|] == s;
    r
  }

  // ---------------------------------------------------------------------------
  // split() and " ".join

  /** The length of the leading run of non-whitespace characters. */
  function WordLen(s: string): (n: nat)
    ensures n <= |s| && NoSpace(s[..n]) && (n == |s| || IsSpace(s[n]))
  {
    if s == [] || IsSpace(s[0]) then 0 else 1 + WordLen(s[1..])
  }

  /** Python's str.split() with no argument: the maximal runs of non-whitespace. */
  function SplitWs(s: string): (ws: seq<string>)
    ensures AllWords(ws)
    decreases |s|
  {
    if s == [] then []
    else if IsSpace(s[0]) then SplitWs(s[1..])
    else
      var n := WordLen(s);
      assert n > 0;
      [s[..n]] + SplitWs(s[n..])
  }

  /** Python's " ".join(ws). */
  function JoinSpace(ws: seq<string>): string {
    if ws == [] then ""
    else if |ws| == 1 then ws[0]
    else ws[0] + " " + JoinSpace(ws[1..])
  }

  lemma {:induction false} WordLenUnique(s: string, k: nat)
    requires k <= |s| && NoSpace(s[..k]) && (k == |s| || IsSpace(s[k]))
    ensures WordLen(s) == k
  {
    if k > 0 {
      assert !IsSpace(s[..k][0]);
      assert s[1..][..k - 1] == s[..k][1..];
      WordLenUnique(s[1..], k - 1);
    }
  }

  /** Joining words with single spaces and splitting again gives the words back. */
  lemma {:induction false} SplitJoinSpace(ws: seq<string>)
    requires AllWords(ws)
    ensures SplitWs(JoinSpace(ws)) == ws
  {
    if ws == [] {
    } else if |ws| == 1 {
      var w := ws[0];
      assert IsWord(w);
      assert w[..|w|] == w;
      WordLenUnique(w, |w|);
      assert w[|w|..] == [];
    } else {
      var w, rest := ws[0], JoinSpace(ws[1..]);
      var s := w + " " + rest;
      assert IsWord(w);
      assert s[..|w|] == w;
      WordLenUnique(s, |w|);
      assert s[|w|..] == " " + rest;
      assert (" " + rest)[1..] == rest;
      assert AllWords(ws[1..]) by {
        forall i | 0 <= i < |ws[1..]| ensures IsWord(ws[1..][i]) {
          assert ws[1..][i] == ws[i + 1];
        }
      }
      SplitJoinSpace(ws[1..]);
    }
  }

  lemma {:induction false} SplitWsAllSpace(w: string)
    requires AllSpace(w)
    ensures SplitWs(w) == []
  {
    if w != [] {
      SplitWsAllSpace(w[1..]);
    }
  }

  /** Trailing whitespace does not change str.split(). */
  lemma {:induction false} SplitWsAppendSpaces(u: string, w: string)
    requires AllSpace(w)
    ensures SplitWs(u + w) == SplitWs(u)
    decreases |u|
  {
    if u == [] {
      assert u + w == w;
      SplitWsAllSpace(w);
    } else if IsSpace(u[0]) {
      assert (u + w)[1..] == u[1..] + w;
      SplitWsAppendSpaces(u[1..], w);
    } else {
      var m := WordLen(u);
      assert (u + w)[..m] == u[..m];
      assert m < |u| ==> (u + w)[m] == u[m];
      assert m == |u| && w != [] ==> (u + w)[m] == w[0];
      WordLenUnique(u + w, m);
      assert (u + w)[m..] == u[m..] + w;
      SplitWsAppendSpaces(u[m..], w);
    }
  }

  /** Leading whitespace does not change str.split(). */
  lemma {:induction false} SplitWsTrimLeft(s: string)
    ensures SplitWs(TrimLeft(s)) == SplitWs(s)
  {
    if s != [] && IsSpace(s[0]) {
      SplitWsTrimLeft(s[1..]);
    }
  }

  /** s.strip().split() == s.split(). */
  lemma SplitWsStrip(s: string)
    ensures SplitWs(Strip(s)) == SplitWs(s)
  {
    var t := TrimLeft(s);
    var r := TrimRight(t);
    assert t == r + t[|r|..];
    SplitWsAppendSpaces(r, t[|r|..]);
    SplitWsTrimLeft(s);
  }

  // ---------------------------------------------------------------------------
  // split(c) and c.join

  /** The length of the leading run of characters other than c. */
  function FieldLen(s: string, c: char): (n: nat)
    ensures n <= |s| && c !in s[..n] && (n == |s| || s[n] == c)
  {
    if s == [] || s[0] == c then 0 else 1 + FieldLen(s[1..], c)
  }

  /** Python's s.split(c) for a one-character separator: always at least one field. */
  function SplitOn(s: string, c: char): (fs: seq<string>)
    ensures |fs| >= 1
    ensures forall i :: 0 <= i < |fs| ==> c !in fs[i]
    decreases |s|
  {
    var n := FieldLen(s, c);
    if n == |s| then [s] else [s[..n]] + SplitOn(s[n + 1..], c)
  }

  /** Python's c.join(fs). */
  function JoinOn(fs: seq<string>, c: char): string {
    if fs == [] then ""
    else if |fs| == 1 then fs[0]
    else fs[0] + [c] + JoinOn(fs[1..], c)
  }

  /** Splitting on c loses nothing: joining the fields with c rebuilds the string. */
  lemma {:induction false} JoinSplitOn(s: string, c: char)
    ensures JoinOn(SplitOn(s, c), c) == s
    decreases |s|
  {
    var n := FieldLen(s, c);
    if n < |s| {
      var rest := SplitOn(s[n + 1..], c);
      assert SplitOn(s, c) == [s[..n]] + rest;
      assert ([s[..n]] + rest)[1..] == rest;
      JoinSplitOn(s[n + 1..], c);
      assert s == s[..n] + [c] + s[n + 1..];
    }
  }

  /** The first field of a string whose first c follows a c-free part a is a. */
  lemma {:induction false} FieldLenPrefix(a: string, rest: string, c: char)
    requires c !in a && (rest == [] || rest[0] == c)
    ensures FieldLen(a + rest, c) == |a|
  {
    if a != [] {
      assert (a + rest)[1..] == a[1..] + rest;
      FieldLenPrefix(a[1..], rest, c);
    }
  }

  /** A string without c is its own only field. */
  lemma SplitOnNone(a: string, c: char)
    requires c !in a
    ensures SplitOn(a, c) == [a]
  {
    assert a + [] == a;
    FieldLenPrefix(a, [], c);
  }

  /** Splitting a + c + b on c gives a, then the fields of b. */
  lemma SplitOnCons(a: string, b: string, c: char)
    requires c !in a
    ensures SplitOn(a + [c] + b, c) == [a] + SplitOn(b, c)
  {
    var s := a + [c] + b;
    assert s == a + ([c] + b);
    FieldLenPrefix(a, [c] + b, c);
    assert s[..|a|] == a;
    assert s[|a| + 1..] == b;
  }

  // ---------------------------------------------------------------------------
  // lower(), slicing, int()

  /** str.lower() restricted to ASCII letters. */
  function LowerChar(c: char): char {
    if 'A' <= c <= 'Z' then (c as int + 32) as char else c
  }

  function Lower(s: string): string {
    seq(|s|, i requires 0 <= i < |s| => LowerChar(s[i]))
  }

  function Min(a: int, b: int): int {
    if a < b then a else b
  }

  /** Python's repetition [x] * k of a one-element list, or c * k of a character: empty
      for k <= 0. */
  function Repeat<T>(x: T, k: int): (r: seq<T>)
    ensures |r| == if k <= 0 then 0 else k
  {
    if k <= 0 then [] else Repeat(x, k - 1) + [x]
  }

  lemma {:induction false} RepeatAt<T>(x: T, k: int)
    ensures forall i :: 0 <= i < |Repeat(x, k)| ==> Repeat(x, k)[i] == x
  {
    if k > 0 {
      RepeatAt(x, k - 1);
    }
  }

  /** Python's slice s[lo:hi] for non-negative bounds, each clamped to the length. */
  function Slice<T>(s: seq<T>, lo: nat, hi: nat): seq<T> {
    var l := Min(lo, |s|);
    var h := Min(hi, |s|);
    if l <= h then s[l..h] else []
  }

  predicate IsDigit(c: char) {
    '0' <= c <= '9'
  }

  predicate AllDigits(s: string) {
    forall i :: 0 <= i < |s| ==> IsDigit(s[i])
  }

  function DigitsValue(s: string): nat
    requires AllDigits(s)
  {
    if s == [] then 0
    else DigitsValue(s[..|s| - 1]) * 10 + (s[|s| - 1] as int - '0' as int)
  }

  /** Python's int(s) on an optional sign followed by ASCII digits; None where int() raises. */
  function ParseInt(s: string): Option<int> {
    if s != [] && (s[0] == '-' || s[0] == '+') then
      if |s| > 1 && AllDigits(s[1..]) then
        var v: int := DigitsValue(s[1..]);
        Some(if s[0] == '-' then -v else v)
      else None
    else if s != [] && AllDigits(s) then Some(DigitsValue(s))
    else None
  }

  // ---------------------------------------------------------------------------
  // The order sorted() puts strings in: lexicographic by code point.

  predicate StrLess(a: string, b: string) {
    if a == [] then b != []
    else if b == [] then false
    else if a[0] != b[0] then a[0] < b[0]
    else StrLess(a[1..], b[1..])
  }

  lemma {:induction false} StrLessIrreflexive(a: string)
    ensures !StrLess(a, a)
  {
    if a != [] {
      StrLessIrreflexive(a[1..]);
    }
  }

  lemma {:induction false} StrLessTransitive(a: string, b: string, c: string)
    requires StrLess(a, b) && StrLess(b, c)
    ensures StrLess(a, c)
  {
    if a != [] && a[0] == b[0] && b[0] == c[0] {
      StrLessTransitive(a[1..], b[1..], c[1..]);
    }
  }

  lemma {:induction false} StrLessTotal(a: string, b: string)
    requires a != b
    ensures StrLess(a, b) || StrLess(b, a)
  {
    if a != [] && b != [] && a[0] == b[0] {
      assert a == [a[0]] + a[1..] && b == [b[0]] + b[1..];
      StrLessTotal(a[1..], b[1..]);
    }
  }

  /** StrLess is a strict total order on strings. */
  lemma StrLessOrder()
    ensures forall a :: !StrLess(a, a)
    ensures forall a, b :: a != b ==> StrLess(a, b) || StrLess(b, a)
    ensures forall a, b, c :: StrLess(a, b) && StrLess(b, c) ==> StrLess(a, c)
  {
    forall a ensures !StrLess(a, a) {
      StrLessIrreflexive(a);
    }
    forall a, b | a != b ensures StrLess(a, b) || StrLess(b, a) {
      StrLessTotal(a, b);
    }
    forall a, b, c | StrLess(a, b) && StrLess(b, c) ensures StrLess(a, c) {
      StrLessTransitive(a, b, c);
    }
  }
}
