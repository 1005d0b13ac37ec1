/**
 * String operations of the JavaScript/TypeScript runtime that the modelled code relies on:
 * `startsWith`, `includes`, `indexOf`, `replace` with a string pattern, `split` on a
 * one-character separator, `join`, `trim`, `padEnd`, ASCII upper-casing and the decimal
 * rendering of a non-negative integer (`String(n)`).
 */
module Text {
  import opened Wrappers

  predicate StartsWith(s: string, p: string) {
    |p| <= |s| && s[..|p|] == p
  }

  /** `s.indexOf(p)`: the first position at which `p` occurs in `s`, `None` standing for -1. */
  function IndexOf(s: string, p: string): (r: Option<nat>)
    ensures r.Some? ==> r.value + |p| <= |s| && s[r.value..r.value + |p|] == p
    ensures r.Some? ==> forall j :: 0 <= j < r.value ==> !StartsWith(s[j..], p)
    ensures r.None? ==> forall j :: 0 <= j <= |s| ==> !StartsWith(s[j..], p)
    decreases |s|
  {
    if StartsWith(s, p) then Some(0)
    else if s == [] then None
    else
      match IndexOf(s[1..], p)
      case None =>
        assert forall j :: 1 <= j <= |s| ==> s[j..] == s[1..][j - 1..];
        None
      case Some(i) =>
        assert forall j :: 1 <= j <= i ==> s[j..] == s[1..][j - 1..];
        assert s[i + 1..i + 1 + |p|] == s[1..][i..i + |p|];
        Some(i + 1)
  }

  /** `s.includes(p)` */
  predicate Contains(s: string, p: string) {
    IndexOf(s, p).Some?
  }

  /** `s.replace(p, r)` with a string pattern: only the first occurrence is replaced. */
  function ReplaceFirst(s: string, p: string, r: string): string {
    match IndexOf(s, p)
    case None => s
    case Some(i) => s[..i] + r + s[i + |p|..]
  }

  /** The first position of `c` in `s`, or `|s|` when `c` does not occur. */
  function IndexOfChar(s: string, c: char): (r: nat)
    ensures r <= |s|
    ensures r < |s| ==> s[r] == c
    ensures forall j :: 0 <= j < r ==> s[j] != c
  {
    if s == [] then 0
    else if s[0] == c then 0
    else 1 + IndexOfChar(s[1..], c)
  }

  /** `s.split(c)` for a one-character separator: `""` splits into `[""]`, `"a,,b"` into `["a", "", "b"]`. */
  function Split(s: string, c: char): (parts: seq<string>)
    ensures |parts| >= 1
    decreases |s|
  {
    var i := IndexOfChar(s, c);
    if i == |s| then [s] else [s[..i]] + Split(s[i + 1..], c)
  }

  /** `parts.join(c)` */
  function Join(parts: seq<string>, c: char): string {
    if parts == [] then ""
    else if |parts| == 1 then parts[0]
    else parts[0] + [c] + Join(parts[1..], c)
  }

  /** The characters JavaScript's `trim` removes and its regular-expression class `\s` matches. */
  predicate IsJsSpace(c: char) {
    c == '\t' || c == '\n' || c == '\U{B}' || c == '\U{C}' || c == '\r' || c == ' '
    || c == '\U{A0}' || c == '\U{1680}' || ('\U{2000}' <= c <= '\U{200A}')
    || c == '\U{2028}' || c == '\U{2029}' || c == '\U{202F}' || c == '\U{205F}'
    || c == '\U{3000}' || c == '\U{FEFF}'
  }


  function TrimStart(s: string): (r: string)
    ensures |r| <= |s| && r == s[|s| - |r|..]
    ensures r != [] ==> !IsJsSpace(r[0])
    ensures forall j :: 0 <= j < |s| - |r| ==> IsJsSpace(s[j])
  {
    if s != [] && IsJsSpace(s[0]) then
      var r := TrimStart(s[1..]);
      assert s[1..][|s| - 1 - |r|..] == s[|s| - |r|..];
      r
    else s
  }

  function TrimEnd(s: string): (r: string)
    ensures |r| <= |s| && r == s[..|r|]
    ensures r != [] ==> !IsJsSpace(r[|r| - 1])
    ensures forall j :: |r| <= j < |s| ==> IsJsSpace(s[j])
  {
    if s != [] && IsJsSpace(s[|s| - 1]) then TrimEnd(s[..|s| - 1]) else s
  }

  /** `s.trim()` */
  function Trim(s: string): string {
    TrimEnd(TrimStart(s))
  }

  /** `s.padEnd(n)`: `s` followed by as many spaces as it takes to reach length `n`. */
  function PadEnd(s: string, n: nat): (r: string)
    ensures |r| == if |s| < n then n else |s|
    ensures r[..|s|] == s
    ensures forall j :: |s| <= j < |r| ==> r[j] == ' '
    decreases n - |s|
  {
    if |s| < n then PadEnd(s + " ", n) else s
  }

  function UpperAscii(c: char): char {
    if 'a' <= c <= 'z' then (c as int - 32) as char else c
  }

  /** `s.toUpperCase()` for ASCII letters. */
  function ToUpperAscii(s: string): (r: string)
    ensures |r| == |s|
    ensures forall j :: 0 <= j < |s| ==> r[j] == UpperAscii(s[j])
  {
    if s == [] then [] else [UpperAscii(s[0])] + ToUpperAscii(s[1..])
  }

  predicate IsDigit(c: char) {
    '0' <= c <= '9'
  }

  function DigitChar(d: nat): (c: char)
    requires d < 10
    ensures IsDigit(c)
  {
    ('0' as int + d) as char
  }

  /** `String(n)` for a non-negative integer: its decimal digits, no leading zero. */
  function NatToString(n: nat): (r: string)
    ensures r != []
    ensures forall j :: 0 <= j < |r| ==> IsDigit(r[j])
  {
    if n < 10 then [DigitChar(n)] else NatToString(n / 10) + [DigitChar(n % 10)]
  }

  /** Numbers below 1000 have at most three digits. */
  lemma NatToStringShort(n: nat)
    requires n < 1000
    ensures |NatToString(n)| <= 3
  {
    if n >= 10 {
      NatToStringShort(n / 10);
      if n >= 100 {
        assert NatToString(n / 10) == NatToString(n / 100) + [DigitChar((n / 10) % 10)];
      }
    }
  }

  /** The value of a string of decimal digits. */
  function DigitsValue(s: string): int
    requires forall j :: 0 <= j < |s| ==> IsDigit(s[j])
  {
    if s == [] then 0 else 10 * DigitsValue(s[..|s| - 1]) + (s[|s| - 1] as int - '0' as int)
  }

  /** The rendering is faithful: reading the digits back gives the number. */
  lemma {:induction false} NatToStringValue(n: nat)
    ensures DigitsValue(NatToString(n)) == n
  {
    if n >= 10 {
      NatToStringValue(n / 10);
      var s := NatToString(n);
      assert s[..|s| - 1] == NatToString(n / 10);
    }
  }

  /** Splitting and joining again gives back the string. */
  lemma {:induction false} JoinSplit(s: string, c: char)
    ensures Join(Split(s, c), c) == s
    decreases |s|
  {
    var i := IndexOfChar(s, c);
    if i < |s| {
      var rest := Split(s[i + 1..], c);
      JoinSplit(s[i + 1..], c);
      assert Split(s, c) == [s[..i]] + rest;
      assert Join([s[..i]] + rest, c) == s[..i] + [c] + Join(rest, c) by {
        assert ([s[..i]] + rest)[1..] == rest;
      }
      assert s == s[..i] + [c] + s[i + 1..];
    }
  }

  /** No part of a split holds the separator. */
  lemma {:induction false} SplitPartsAvoid(s: string, c: char)
    ensures forall k :: 0 <= k < |Split(s, c)| ==> c !in Split(s, c)[k]
    decreases |s|
  {
    var i := IndexOfChar(s, c);
    if i < |s| {
      SplitPartsAvoid(s[i + 1..], c);
      assert forall k :: 1 <= k < |Split(s, c)| ==> Split(s, c)[k] == Split(s[i + 1..], c)[k - 1];
    }
  }

  /** Joining parts that do not hold the separator and splitting again gives back the parts. */
  lemma {:induction false} SplitJoin(parts: seq<string>, c: char)
    requires parts != []
    requires forall k :: 0 <= k < |parts| ==> c !in parts[k]
    ensures Split(Join(parts, c), c) == parts
    decreases |parts|
  {
    if |parts| == 1 {
      assert IndexOfChar(parts[0], c) == |parts[0]|;
    } else {
      var s := Join(parts, c);
      var p := parts[0];
      assert s == p + [c] + Join(parts[1..], c);
      assert s[|p|] == c;
      assert IndexOfChar(s, c) == |p| by {
        assert forall j :: 0 <= j < |p| ==> s[j] == p[j];
      }
      assert s[..|p|] == p;
      assert s[|p| + 1..] == Join(parts[1..], c);
      SplitJoin(parts[1..], c);
    }
  }

  /** A string without the separator splits into itself alone. */
  lemma SplitWithout(s: string, c: char)
    requires c !in s
    ensures Split(s, c) == [s]
  {
    assert IndexOfChar(s, c) == |s|;
  }

  /** Splitting at a separator between two strings splits each of them on its own. */
  lemma {:induction false} SplitAround(a: string, b: string, c: char)
    ensures Split(a + [c] + b, c) == Split(a, c) + Split(b, c)
    decreases |a|
  {
    var s := a + [c] + b;
    var i := IndexOfChar(a, c);
    assert forall j :: 0 <= j < |a| ==> s[j] == a[j];
    if i == |a| {
      assert s[|a|] == c;
      assert IndexOfChar(s, c) == |a|;
      assert s[..|a|] == a;
      assert s[|a| + 1..] == b;
    } else {
      assert s[i] == c;
      assert IndexOfChar(s, c) == i;
      assert s[..i] == a[..i];
      assert s[i + 1..] == a[i + 1..] + [c] + b;
      SplitAround(a[i + 1..], b, c);
    }
  }

  /** Leading whitespace makes no difference to `trimStart`. */
  lemma {:induction false} TrimStartSkips(w: string, t: string)
    requires forall j :: 0 <= j < |w| ==> IsJsSpace(w[j])
    ensures TrimStart(w + t) == TrimStart(t)
  {
    if w != [] {
      var s := w + t;
      assert s[0] == w[0] && IsJsSpace(s[0]);
      assert s[1..] == w[1..] + t;
      assert TrimStart(s) == TrimStart(s[1..]);
      TrimStartSkips(w[1..], t);
    } else {
      assert w + t == t;
    }
  }

  /** A string that contains `p` at some position contains it. */
  lemma ContainsInfix(a: string, p: string, b: string)
    ensures Contains(a + p + b, p)
  {
    var s := a + p + b;
    assert s[|a|..][..|p|] == p;
  }

  /** Replacing a prefix occurrence. */
  lemma ReplaceFirstAtStart(s: string, p: string, r: string)
    requires StartsWith(s, p)
    ensures ReplaceFirst(s, p, r) == r + s[|p|..]
  {
    assert IndexOf(s, p) == Some(0);
  }

  /** Joining with one more part appends the separator and that part. */
  lemma {:induction false} JoinSnoc(parts: seq<string>, y: string, c: char)
    requires parts != []
    ensures Join(parts + [y], c) == Join(parts, c) + [c] + y
  {
    if |parts| > 1 {
      assert (parts + [y])[1..] == parts[1..] + [y];
      JoinSnoc(parts[1..], y, c);
    }
  }
}
