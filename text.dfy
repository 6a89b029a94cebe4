/**
 * The parts of Python's `str` and `os.path` that the player relies on:
 * whitespace stripping, ASCII lower-casing, suffix tests, decimal rendering
 * of integers and POSIX path joining.
 */
module Text {

  /** Python's `str.isspace()`: exactly the characters that `str.strip()` removes. */
  predicate IsSpace(c: char) {
    || ('\t' <= c <= '\r')
    || ('\U{1C}' <= c <= ' ')
    || c == '\U{85}' || c == '\U{A0}' || c == '\U{1680}'
    || ('\U{2000}' <= c <= '\U{200A}')
    || c == '\U{2028}' || c == '\U{2029}' || c == '\U{202F}' || c == '\U{205F}' || c == '\U{3000}'
  }

  predicate AllSpace(s: string) {
    forall k :: 0 <= k < |s| ==> IsSpace(s[k])
  }

  /** Python's `str.lstrip()`: drops the leading whitespace and nothing else. */
  function LStrip(s: string): (r: string)
    ensures |r| <= |s| && r == s[|s| - |r|..]
    ensures AllSpace(s[..|s| - |r|])
    ensures r != [] ==> !IsSpace(r[0])
  {
    if s != [] && IsSpace(s[0]) then
      var r := LStrip(s[1..]);
      assert s[..|s| - |r|] == [s[0]] + s[1..][..|s| - 1 - |r|];
      r
    else s
  }

  /** Python's `str.rstrip()`: drops the trailing whitespace and nothing else. */
  function RStrip(s: string): (r: string)
    ensures |r| <= |s| && r == s[..|r|]
    ensures AllSpace(s[|r|..])
    ensures r != [] ==> !IsSpace(r[|r| - 1])
  {
    if s != [] && IsSpace(s[|s| - 1]) then
      var r := RStrip(s[..|s| - 1]);
      assert s[|r|..] == s[..|s| - 1][|r|..] + [s[|s| - 1]];
      r
    else s
  }

  /**
   * Python's `str.strip()`: the result is the slice of `s` left once the
   * whitespace at both ends is removed.
   */
  function Strip(s: string): (r: string)
    ensures var a := |s| - |LStrip(s)|;
      && 0 <= a <= |s| && AllSpace(s[..a])
      && |r| <= |s| - a && r == s[a..][..|r|] && AllSpace(s[a..][|r|..])
    ensures Trimmed(r)
  {
    RStrip(LStrip(s))
  }

  /** No whitespace at either end. */
  predicate Trimmed(s: string) {
    s != [] ==> !IsSpace(s[0]) && !IsSpace(s[|s| - 1])
  }

  /** A text without whitespace at either end is its own strip, so stripping twice is stripping once. */
  lemma StripOfTrimmed(s: string)
    requires Trimmed(s)
    ensures Strip(s) == s
  {
    assert LStrip(s) == s;
    assert RStrip(s) == s;
  }

  lemma StripIdempotent(s: string)
    ensures Strip(Strip(s)) == Strip(s)
  {
    StripOfTrimmed(Strip(s));
  }

  /** Stripping only removes characters. */
  lemma StripKeepsCharacters(s: string)
    ensures forall c :: c in Strip(s) ==> c in s
  {
    var rest := s[|s| - |LStrip(s)|..];
    var r := Strip(s);
    forall c | c in r ensures c in s {
      var k :| 0 <= k < |r| && r[k] == c;
      assert rest[k] == c;
    }
  }

  /** Python's `str.lower()` restricted to ASCII letters. */
  function LowerChar(c: char): (r: char)
    ensures 'A' <= c <= 'Z' ==> r as int == c as int + 32
    ensures !('A' <= c <= 'Z') ==> r == c
  {
    if 'A' <= c <= 'Z' then (c as int + 32) as char else c
  }

  function Lower(s: string): (r: string)
    ensures |r| == |s|
    ensures forall k :: 0 <= k < |s| ==> r[k] == LowerChar(s[k])
  {
    seq(|s|, k requires 0 <= k < |s| => LowerChar(s[k]))
  }

  predicate EndsWith(s: string, suffix: string) {
    |suffix| <= |s| && s[|s| - |suffix|..] == suffix
  }

  /** Python's `str.find(c)` and `list.index(c)`: the first position of `c` in `s`, when there is one. */
  function IndexOf<T(==)>(s: seq<T>, c: T): (i: nat)
    requires c in s
    ensures i < |s| && s[i] == c && c !in s[..i]
  {
    if s[0] == c then 0 else 1 + IndexOf(s[1..], c)
  }

  /** The first `c` after a prefix without one is the one that follows the prefix. */
  lemma IndexOfAfterPrefix<T>(prefix: seq<T>, c: T, rest: seq<T>)
    requires c !in prefix
    ensures IndexOf(prefix + [c] + rest, c) == |prefix|
    ensures (prefix + [c] + rest)[..|prefix|] == prefix && (prefix + [c] + rest)[|prefix| + 1..] == rest
  {
    var s := prefix + [c] + rest;
    assert forall j :: 0 <= j < |prefix| ==> s[j] == prefix[j];
    assert s[|prefix|] == c;
  }

  // ----- decimal rendering, as Python's str(int) and f"{n}" -----

  predicate IsDigit(c: char) {
    '0' <= c <= '9'
  }

  predicate AllDigits(s: string) {
    forall k :: 0 <= k < |s| ==> IsDigit(s[k])
  }

  function DigitChar(d: nat): (c: char)
    requires d < 10
    ensures IsDigit(c) && c as int - '0' as int == d
  {
    (d + '0' as int) as char
  }

  /** The decimal digits of `n`, most significant first, without leading zeros. */
  function NatToString(n: nat): (r: string)
    ensures r != [] && AllDigits(r)
    ensures |r| > 1 ==> r[0] != '0'
  {
    if n < 10 then [DigitChar(n)] else NatToString(n / 10) + [DigitChar(n % 10)]
  }

  /** Python's `str(i)` for an int: a minus sign, then the digits of its magnitude. */
  function IntToString(i: int): string {
    if i < 0 then "-" + NatToString(-i) else NatToString(i)
  }

  /** The number a string of decimal digits denotes (the inverse of NatToString). */
  function DigitsValue(s: string): nat
    requires AllDigits(s)
  {
    if s == [] then 0 else DigitsValue(s[..|s| - 1]) * 10 + (s[|s| - 1] as int - '0' as int)
  }

  /** Reading back the digits that NatToString writes gives the number again. */
  lemma {:induction false} NatToStringRoundTrip(n: nat)
    ensures DigitsValue(NatToString(n)) == n
  {
    if n >= 10 {
      var r := NatToString(n);
      NatToStringRoundTrip(n / 10);
      assert r[..|r| - 1] == NatToString(n / 10);
    }
  }

  // ----- POSIX paths, as Python's os.path.join and os.path.basename -----

  /** `os.path.join(a, b)` on POSIX: an absolute `b` replaces `a`, otherwise one '/' separates them. */
  function Join(a: string, b: string): string {
    if b != [] && b[0] == '/' then b
    else if a == [] || a[|a| - 1] == '/' then a + b
    else a + "/" + b
  }

  /** `os.path.basename(p)`: what follows the last '/' of `p`. */
  function BaseName(p: string): (r: string)
    ensures '/' !in r && |r| <= |p|
  {
    if p == [] || p[|p| - 1] == '/' then [] else BaseName(p[..|p| - 1]) + [p[|p| - 1]]
  }

  /** The base name is a suffix of the path, preceded by a '/' unless it is the whole path. */
  lemma {:induction false} BaseNameIsLastComponent(p: string)
    ensures var r := BaseName(p);
      && r == p[|p| - |r|..]
      && (|r| < |p| ==> p[|p| - |r| - 1] == '/')
  {
    if p != [] && p[|p| - 1] != '/' {
      var q := p[..|p| - 1];
      BaseNameIsLastComponent(q);
      var r := BaseName(q);
      assert p[|p| - |r| - 1..] == q[|q| - |r|..] + [p[|p| - 1]];
      if |r| + 1 < |p| {
        assert p[|p| - |r| - 2] == q[|q| - |r| - 1];
      }
    }
  }

  /** The base name of a joined path is the entry name that was joined, for any entry name that `os.listdir` can return. */
  lemma {:induction false} BaseNameOfJoin(a: string, b: string)
    requires '/' !in b
    ensures BaseName(Join(a, b)) == b
  {
    var p := Join(a, b);
    assert p == (if a == [] || a[|a| - 1] == '/' then a else a + "/") + b;
    BaseNameOfSuffix(if a == [] || a[|a| - 1] == '/' then a else a + "/", b);
  }

  lemma {:induction false} BaseNameOfSuffix(dir: string, b: string)
    requires '/' !in b
    requires dir == [] || dir[|dir| - 1] == '/'
    ensures BaseName(dir + b) == b
    decreases |b|
  {
    if b == [] {
      assert dir + b == dir;
    } else {
      var p := dir + b;
      assert p[..|p| - 1] == dir + b[..|b| - 1];
      assert p[|p| - 1] == b[|b| - 1];
      BaseNameOfSuffix(dir, b[..|b| - 1]);
      assert b == b[..|b| - 1] + [b[|b| - 1]];
    }
  }
}
