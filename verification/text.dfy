/**
 The Python `str` methods the licensing tools and the reporters rely on:
 `split`, `join`, `strip`, `rstrip`/`lstrip` of one character, `startswith`,
 the `in` substring test, `upper` and `lower`.
 */
module Text {

  /** The characters Python's `str.isspace()` accepts, which `str.strip()` removes. */
  predicate IsSpace(c: char) {
    var n := c as int;
    || (9 <= n <= 13) || (0x1c <= n <= 0x20) || n == 0x85 || n == 0xa0
    || n == 0x1680 || (0x2000 <= n <= 0x200a) || n == 0x2028 || n == 0x2029
    || n == 0x202f || n == 0x205f || n == 0x3000
  }

  /** Every character is ASCII. */
  predicate IsAscii(s: string) {
    forall k :: 0 <= k < |s| ==> s[k] as int < 128
  }

  /** `s` has no removable whitespace at either end. */
  predicate Stripped(s: string) {
    |s| > 0 ==> !IsSpace(s[0]) && !IsSpace(s[|s| - 1])
  }

  /** `s.lstrip()`: drops the leading whitespace and nothing else. */
  function LStrip(s: string): (r: string)
    ensures |r| <= |s| && r == s[|s| - |r|..]
    ensures forall k :: 0 <= k < |s| - |r| ==> IsSpace(s[k])
    ensures |r| > 0 ==> !IsSpace(r[0])
  {
    if |s| > 0 && IsSpace(s[0]) then LStrip(s[1..]) else s
  }

  /** `s.rstrip()`: drops the trailing whitespace and nothing else. */
  function RStrip(s: string): (r: string)
    ensures |r| <= |s| && r == s[..|r|]
    ensures forall k :: |r| <= k < |s| ==> IsSpace(s[k])
    ensures |r| > 0 ==> !IsSpace(r[|r| - 1])
  {
    if |s| > 0 && IsSpace(s[|s| - 1]) then RStrip(s[..|s| - 1]) else s
  }

  /** `s.strip()`: whitespace removed at both ends. */
  function Strip(s: string): (r: string)
    ensures Stripped(r) && |r| <= |s|
  {
    var l := LStrip(s);
    var r := RStrip(l);
    StripEnds(l, r);
    r
  }

  /** What `strip` keeps is an infix of `s`, and every character it removes is whitespace. */
  lemma StripInfix(s: string)
    ensures |s| - |LStrip(s)| + |Strip(s)| <= |s|
    ensures forall k :: 0 <= k < |Strip(s)| ==> Strip(s)[k] == s[|s| - |LStrip(s)| + k]
    ensures forall k :: 0 <= k < |s| - |LStrip(s)| ==> IsSpace(s[k])
    ensures forall k :: |s| - |LStrip(s)| + |Strip(s)| <= k < |s| ==> IsSpace(s[k])
  {
    var l := LStrip(s);
    var r := RStrip(l);
    StripTail(s, l, r);
    StripSlice(s, l, r);
  }

  lemma StripSlice(s: string, l: string, r: string)
    requires |l| <= |s| && l == s[|s| - |l|..]
    requires |r| <= |l| && r == l[..|r|]
    ensures forall k :: 0 <= k < |r| ==> r[k] == s[|s| - |l| + k]
  {
  }

  lemma StripEnds(l: string, r: string)
    requires |l| > 0 ==> !IsSpace(l[0])
    requires r == RStrip(l)
    ensures Stripped(r)
  {
    if |r| > 0 {
      assert r[0] == l[0];
    }
  }

  lemma StripTail(s: string, l: string, r: string)
    requires |l| <= |s| && l == s[|s| - |l|..]
    requires |r| <= |l| && r == l[..|r|]
    requires forall k :: |r| <= k < |l| ==> IsSpace(l[k])
    ensures forall k :: |s| - |l| + |r| <= k < |s| ==> IsSpace(s[k])
  {
    var i := |s| - |l|;
    forall k | i + |r| <= k < |s| ensures IsSpace(s[k]) {
      assert s[k] == l[k - i];
    }
  }

  lemma StripFixesStripped(s: string)
    requires Stripped(s)
    ensures Strip(s) == s
  {
    assert LStrip(s) == s;
    assert RStrip(s) == s;
  }

  /** `s.rstrip(c)` for a single character `c`. */
  function RStripChar(s: string, c: char): (r: string)
    ensures |r| <= |s| && r == s[..|r|]
    ensures forall k :: |r| <= k < |s| ==> s[k] == c
    ensures |r| > 0 ==> r[|r| - 1] != c
  {
    if |s| > 0 && s[|s| - 1] == c then RStripChar(s[..|s| - 1], c) else s
  }

  /** `s.lstrip(c)` for a single character `c`. */
  function LStripChar(s: string, c: char): (r: string)
    ensures |r| <= |s| && r == s[|s| - |r|..]
    ensures forall k :: 0 <= k < |s| - |r| ==> s[k] == c
    ensures |r| > 0 ==> r[0] != c
  {
    if |s| > 0 && s[0] == c then LStripChar(s[1..], c) else s
  }

  /** `n` copies of `c`. */
  function Repeat(c: char, n: nat): (r: string)
    ensures |r| == n
    ensures forall k :: 0 <= k < n ==> r[k] == c
  {
    if n == 0 then "" else [c] + Repeat(c, n - 1)
  }

  /** `s.startswith(p)`. */
  predicate StartsWith(s: string, p: string) {
    |p| <= |s| && s[..|p|] == p
  }

  /** `needle in hay` for strings and byte strings: `needle` occurs contiguously in `hay`. */
  predicate HasRun<T(==)>(hay: seq<T>, needle: seq<T>) {
    exists i :: 0 <= i <= |hay| - |needle| && RunAt(hay, needle, i)
  }

  /** `needle` occurs in `hay` starting at position `i`. */
  predicate RunAt<T(==)>(hay: seq<T>, needle: seq<T>, i: int)
    requires 0 <= i <= |hay| - |needle|
  {
    hay[i..i + |needle|] == needle
  }

  /** The position of the first `c` in `s`. */
  function IndexOf(s: string, c: char): (i: nat)
    requires c in s
    ensures i < |s| && s[i] == c && c !in s[..i]
  {
    if s[0] == c then 0 else 1 + IndexOf(s[1..], c)
  }

  /** `sep.join(parts)`. */
  function Join(parts: seq<string>, sep: string): string {
    if |parts| == 0 then ""
    else if |parts| == 1 then parts[0]
    else parts[0] + sep + Join(parts[1..], sep)
  }

  /** `s.split(sep)`: the pieces between separators, never an empty list. */
  function Split(s: string, sep: char): (parts: seq<string>)
    ensures |parts| >= 1
    ensures forall i :: 0 <= i < |parts| ==> sep !in parts[i]
    ensures Join(parts, [sep]) == s
    decreases |s|
  {
    if sep !in s then [s]
    else
      var i := IndexOf(s, sep);
      var rest := Split(s[i + 1..], sep);
      assert ([s[..i]] + rest)[1..] == rest;
      assert s == s[..i] + [sep] + s[i + 1..];
      [s[..i]] + rest
  }

  /** Splitting a joined list gives the list back when no piece holds the separator. */
  lemma {:induction false} SplitJoin(parts: seq<string>, sep: char)
    requires |parts| >= 1
    requires forall i :: 0 <= i < |parts| ==> sep !in parts[i]
    ensures Split(Join(parts, [sep]), sep) == parts
  {
    if |parts| > 1 {
      var s := Join(parts, [sep]);
      var p := parts[0];
      assert s == p + [sep] + Join(parts[1..], [sep]);
      assert s[|p|] == sep;
      assert s[..|p|] == p;
      assert sep in s;
      var i := IndexOf(s, sep);
      assert s[i + 1..] == Join(parts[1..], [sep]);
      SplitJoin(parts[1..], sep);
    }
  }

  /** `str.upper()` of one character, for every character whose upper case is all ASCII: the ASCII
      letters, dotless i, long s, sharp s and the Latin ligatures. Any other character is kept as
      it is, including those whose upper case mixes an ASCII capital with a mark or a modifier
      letter (`ẗ` gives `T` and U+0308, `ẚ` gives `A` and U+02BE, `ŉ` gives U+02BC and `N`). */
  function UpperChar(c: char): string {
    var n := c as int;
    if 'a' <= c <= 'z' then [(n - 32) as char]
    else if n == 0x131 then "I"
    else if n == 0x17f then "S"
    else if n == 0xdf then "SS"
    else if n == 0xfb00 then "FF"
    else if n == 0xfb01 then "FI"
    else if n == 0xfb02 then "FL"
    else if n == 0xfb03 then "FFI"
    else if n == 0xfb04 then "FFL"
    else if n == 0xfb05 || n == 0xfb06 then "ST"
    else [c]
  }

  /** `s.upper()`, character by character. */
  function Upper(s: string): string {
    if |s| == 0 then "" else UpperChar(s[0]) + Upper(s[1..])
  }

  /** `str.lower()` of one character: ASCII capitals and the Kelvin sign give ASCII letters;
      every other character is kept, which no comparison against an ASCII word can tell apart. */
  function LowerChar(c: char): char {
    if 'A' <= c <= 'Z' then ((c as int) + 32) as char
    else if c as int == 0x212a then 'k'
    else c
  }

  /** `s.lower()`. */
  function Lower(s: string): (r: string)
    ensures |r| == |s|
    ensures forall k :: 0 <= k < |s| ==> r[k] == LowerChar(s[k])
  {
    if |s| == 0 then "" else [LowerChar(s[0])] + Lower(s[1..])
  }

  /** Text without capitals is its own lower case. */
  lemma LowerFixes(s: string)
    requires forall k :: 0 <= k < |s| ==> 'a' <= s[k] <= 'z'
    ensures Lower(s) == s
  {
    var r := Lower(s);
    assert forall k :: 0 <= k < |s| ==> r[k] == s[k];
  }

  /** The upper-case ASCII characters Upper can produce only from themselves and their lower case. */
  predicate PlainUpper(c: char) {
    ('A' <= c <= 'Z' && c != 'F' && c != 'I' && c != 'S') || ('0' <= c <= '9') || c == '-' || c == '.'
  }

  /** `c` is `u` or, for a letter, its ASCII lower case. */
  predicate SameIgnoringCase(c: char, u: char) {
    c == u || ('A' <= u <= 'Z' && c as int == u as int + 32)
  }

  /** `s` starts with `p` when ASCII case is ignored. */
  predicate StartsWithIgnoringCase(s: string, p: string) {
    |p| <= |s| && forall k :: 0 <= k < |p| ==> SameIgnoringCase(s[k], p[k])
  }

  /** Prefix test on a sequence built from a first element and a rest. */
  lemma ConsStartsWith(a: char, rest: string, p: string)
    requires |p| > 0 && p[0] == a
    ensures StartsWith([a] + rest, p) <==> StartsWith(rest, p[1..])
  {
    var s := [a] + rest;
    if StartsWith(s, p) {
      assert s[..|p|][1..] == rest[..|p| - 1];
    }
    if StartsWith(rest, p[1..]) {
      assert s[..|p|] == [a] + rest[..|p| - 1];
    }
  }

  /** `s.upper().startswith(p)` holds exactly when `s` starts with `p` ignoring ASCII case,
      for a prefix made of capitals other than F, I and S, digits, `-` and `.`. */
  lemma {:induction false} UpperStartsWith(s: string, p: string)
    requires forall k :: 0 <= k < |p| ==> PlainUpper(p[k])
    ensures StartsWith(Upper(s), p) <==> StartsWithIgnoringCase(s, p)
    decreases |p|
  {
    if |p| > 0 && |s| > 0 {
      var u := UpperChar(s[0]);
      assert Upper(s) == u + Upper(s[1..]);
      if SameIgnoringCase(s[0], p[0]) {
        assert u == [p[0]];
        UpperStartsWith(s[1..], p[1..]);
        ConsStartsWith(p[0], Upper(s[1..]), p);
        if StartsWithIgnoringCase(s[1..], p[1..]) {
          forall k | 0 <= k < |p|
            ensures SameIgnoringCase(s[k], p[k])
          {
            if k > 0 {
              assert s[k] == s[1..][k - 1];
            }
          }
        }
        if StartsWithIgnoringCase(s, p) {
          forall k | 0 <= k < |p| - 1
            ensures SameIgnoringCase(s[1..][k], p[1..][k])
          {
            assert s[1..][k] == s[k + 1];
          }
        }
      } else {
        assert |u| > 0 && u[0] != p[0];
        assert Upper(s)[0] == u[0];
      }
    } else if |p| > 0 {
      assert Upper(s) == "";
    }
  }

  /** `s` is `w` when ASCII case is ignored. */
  predicate EqualsIgnoringCase(s: string, w: string) {
    |s| == |w| && forall k :: 0 <= k < |w| ==> SameIgnoringCase(s[k], w[k])
  }

  /** Any ASCII-case variant of a word in capitals upper-cases to the word. */
  /** A word of ASCII capitals is its own upper case. */
  lemma {:induction false} UpperOfCapitals(w: string)
    requires forall k :: 0 <= k < |w| ==> 'A' <= w[k] <= 'Z'
    ensures Upper(w) == w
  {
    if |w| > 0 {
      UpperOfCapitals(w[1..]);
      assert w == [w[0]] + w[1..];
    }
  }

  lemma {:induction false} UpperOfVariant(s: string, w: string)
    requires forall k :: 0 <= k < |w| ==> 'A' <= w[k] <= 'Z'
    requires EqualsIgnoringCase(s, w)
    ensures Upper(s) == w
    decreases |s|
  {
    if |s| > 0 {
      assert UpperChar(s[0]) == [w[0]];
      assert EqualsIgnoringCase(s[1..], w[1..]) by {
        forall k | 0 <= k < |w| - 1
          ensures SameIgnoringCase(s[1..][k], w[1..][k])
        {
          assert s[1..][k] == s[k + 1];
        }
      }
      UpperOfVariant(s[1..], w[1..]);
      assert w == [w[0]] + w[1..];
    }
  }

  /** For a word of capitals other than F, I and S, digits, `-` and `.`, only its ASCII-case
      variants upper-case to it. */
  lemma UpperIsVariant(s: string, w: string)
    requires forall k :: 0 <= k < |w| ==> PlainUpper(w[k])
    requires Upper(s) == w
    ensures EqualsIgnoringCase(s, w)
  {
    UpperStartsWith(s, w);
    if |s| != |w| {
      UpperLonger(s);
    }
  }

  /** Upper-casing never shortens a string. */
  lemma {:induction false} UpperLonger(s: string)
    ensures |Upper(s)| >= |s|
    decreases |s|
  {
    if |s| > 0 {
      UpperLonger(s[1..]);
    }
  }
}

