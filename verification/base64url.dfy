/**
 The base64url coding of license tokens (section 5 of RFC 4648).

 The issuer writes `urlsafe_b64encode(b)` with the trailing `=` removed. The
 validator adds `-len(value) % 4` padding characters back and calls
 `urlsafe_b64decode`, which rejects non-ASCII text, turns `-` and `_` into `+` and
 `/`, and hands the text to the lenient (non-strict) `binascii.a2b_base64` of
 CPython 3.11 and later. That decoder skips characters outside the alphabet, stops
 at the first complete padding, and fails only when the data characters leave a
 partial group behind.
 */
module Base64Url {
  import opened Wrappers
  import Text
  import opened Bytes

  /** The character of a 6-bit value in the URL-safe alphabet. */
  function UrlChar(v: nat): (c: char)
    requires v < 64
  {
    if v < 26 then ('A' as int + v) as char
    else if v < 52 then ('a' as int + v - 26) as char
    else if v < 62 then ('0' as int + v - 52) as char
    else if v == 62 then '-'
    else '_'
  }

  /** The characters of the URL-safe alphabet; neither `=` nor `.` is one of them. */
  predicate IsUrlChar(c: char) {
    ('A' <= c <= 'Z') || ('a' <= c <= 'z') || ('0' <= c <= '9') || c == '-' || c == '_'
  }

  /** The 6-bit values base64 cuts `b` into: four for every three bytes, then two for a final
      single byte and three for a final pair, the missing low bits filled with zeros. */
  function Sextets(b: seq<byte>): (r: seq<nat>)
    ensures forall k :: 0 <= k < |r| ==> r[k] < 64
    ensures |r| % 4 != 1
    decreases |b|
  {
    if |b| == 0 then []
    else
      var b0 := b[0] as int;
      if |b| == 1 then [b0 / 4, b0 % 4 * 16]
      else
        var b1 := b[1] as int;
        if |b| == 2 then [b0 / 4, b0 % 4 * 16 + b1 / 16, b1 % 16 * 4]
        else Group(b) + Sextets(b[3..])
  }

  /** The four 6-bit values of the first three bytes. */
  function Group(b: seq<byte>): (r: seq<nat>)
    requires |b| >= 3
    ensures |r| == 4 && forall k :: 0 <= k < 4 ==> r[k] < 64
  {
    var b0, b1, b2 := b[0] as int, b[1] as int, b[2] as int;
    [b0 / 4, b0 % 4 * 16 + b1 / 16, b1 % 16 * 4 + b2 / 64, b2 % 64]
  }

  /** The values written in the URL-safe alphabet. */
  function UrlText(sx: seq<nat>): (r: string)
    requires forall k :: 0 <= k < |sx| ==> sx[k] < 64
    ensures |r| == |sx|
    ensures forall k :: 0 <= k < |r| ==> IsUrlChar(r[k]) && r[k] == UrlChar(sx[k])
  {
    seq(|sx|, k requires 0 <= k < |sx| => UrlChar(sx[k]))
  }

  /** `base64.urlsafe_b64encode(b).decode()`: the characters of the values, padded with `=` to a
      multiple of four. */
  function PaddedEncode(b: seq<byte>): (r: string)
    ensures |r| % 4 == 0
  {
    var u := UrlText(Sextets(b));
    var pad := (-|u|) % 4;
    assert (|u| + pad) % 4 == 0;
    u + Text.Repeat('=', pad)
  }

  /** `b64url_encode(b)`: the encoding with every trailing `=` stripped. The text holds only
      alphabet characters, so no `=` and no `.`, and is never one character past a group of four. */
  function Encode(b: seq<byte>): (r: string)
    ensures forall k :: 0 <= k < |r| ==> IsUrlChar(r[k])
    ensures '=' !in r && '.' !in r
    ensures |r| % 4 != 1
  {
    var r := Text.RStripChar(PaddedEncode(b), '=');
    StripPadding(b);
    r
  }

  /** Removing trailing `=` from the padded text leaves exactly the alphabet characters. */
  lemma StripPadding(b: seq<byte>)
    ensures Text.RStripChar(PaddedEncode(b), '=') == UrlText(Sextets(b))
  {
    var u := UrlText(Sextets(b));
    var p := PaddedEncode(b);
    var r := Text.RStripChar(p, '=');
    if |u| > 0 {
      assert p[|u| - 1] == u[|u| - 1];
    }
    assert r == p[..|u|] == u;
  }

  /** The value of a character in the standard alphabet `binascii` decodes; the URL-safe
      characters were translated into it before. Any other character has no value. */
  function Sextet(c: char): Option<nat> {
    if 'A' <= c <= 'Z' then Some(c as int - 'A' as int)
    else if 'a' <= c <= 'z' then Some(c as int - 'a' as int + 26)
    else if '0' <= c <= '9' then Some(c as int - '0' as int + 52)
    else if c == '+' then Some(62)
    else if c == '/' then Some(63)
    else None
  }

  /** `s.translate(bytes.maketrans(b"-_", b"+/"))`. */
  function Translate(s: string): (r: string)
    ensures |r| == |s|
    ensures forall k :: 0 <= k < |s| ==> r[k] == (if s[k] == '-' then '+' else if s[k] == '_' then '/' else s[k])
  {
    seq(|s|, k requires 0 <= k < |s| => if s[k] == '-' then '+' else if s[k] == '_' then '/' else s[k])
  }

  /** What the decoder still remembers of an unfinished group: how many data characters it has
      seen (`quad`), the bits not yet written (`left`) and the `=` counted since then (`pads`). */
  predicate Carry(quad: nat, left: nat) {
    quad < 4 && (quad == 0 ==> left == 0) && (quad == 1 ==> left < 64)
      && (quad == 2 ==> left < 16) && (quad == 3 ==> left < 4)
  }

  /** CPython's `a2b_base64` without strict mode, on the text still to be read. A `=` ends the
      input once at least two data characters of the group are in and enough `=` have come to
      complete it; earlier ones, and every character outside the alphabet, are skipped. The
      input ending inside a group is an error, raised as `binascii.Error`. */
  function A2b(s: string, quad: nat, left: nat, pads: nat, acc: seq<byte>): Option<seq<byte>>
    requires Carry(quad, left)
    decreases |s|
  {
    if |s| == 0 then (if quad == 0 then Some(acc) else None)
    else if s[0] == '=' then
      if quad >= 2 && quad + pads + 1 >= 4 then Some(acc)
      else A2b(s[1..], quad, left, if quad >= 2 then pads + 1 else pads, acc)
    else
      match Sextet(s[0])
      case None => A2b(s[1..], quad, left, pads, acc)
      case Some(v) =>
        if quad == 0 then A2b(s[1..], 1, v, 0, acc)
        else if quad == 1 then A2b(s[1..], 2, v % 16, 0, acc + [(left * 4 + v / 16) as byte])
        else if quad == 2 then A2b(s[1..], 3, v % 4, 0, acc + [(left * 16 + v / 4) as byte])
        else A2b(s[1..], 0, 0, 0, acc + [(left * 64 + v) as byte])
  }

  /** `b64url_decode(value)`: `None` where Python raises, that is for text that is not ASCII
      and for text whose data characters do not form whole groups. */
  function Decode(value: string): Option<seq<byte>> {
    var padded := value + Text.Repeat('=', (-|value|) % 4);
    if !Text.IsAscii(padded) then None
    else A2b(Translate(padded), 0, 0, 0, [])
  }

  /** The translated alphabet character of `v`. */
  function StdChar(v: nat): char
    requires v < 64
  {
    var c := UrlChar(v);
    if c == '-' then '+' else if c == '_' then '/' else c
  }

  lemma SextetOfStdChar(v: nat)
    requires v < 64
    ensures Sextet(StdChar(v)) == Some(v) && StdChar(v) != '='
  {
  }

  /** The values written in the standard alphabet: what `binascii` is given for a token part. */
  function StdText(sx: seq<nat>): (r: string)
    requires forall k :: 0 <= k < |sx| ==> sx[k] < 64
    ensures |r| == |sx|
    ensures forall k :: 0 <= k < |r| ==> r[k] == StdChar(sx[k])
  {
    seq(|sx|, k requires 0 <= k < |sx| => StdChar(sx[k]))
  }

  /** Four data characters from a fresh group give back the three bytes they encode. */
  lemma DecodeGroup(b: seq<byte>, rest: string, acc: seq<byte>)
    requires |b| >= 3
    ensures A2b(StdText(Group(b)) + rest, 0, 0, 0, acc) == A2b(rest, 0, 0, 0, acc + b[..3])
  {
    var b0, b1, b2 := b[0] as int, b[1] as int, b[2] as int;
    var vs := Group(b);
    var v0, v1, v2, v3 := vs[0], vs[1], vs[2], vs[3];
    var s := StdText(vs) + rest;
    SextetOfStdChar(v0);
    SextetOfStdChar(v1);
    SextetOfStdChar(v2);
    SextetOfStdChar(v3);
    var t1 := s[1..];
    var t2 := t1[1..];
    var t3 := t2[1..];
    assert s[0] == StdChar(v0) && t1[0] == StdChar(v1) && t2[0] == StdChar(v2) && t3[0] == StdChar(v3);
    assert t3[1..] == rest;
    assert v0 * 4 + v1 / 16 == b0;
    assert v1 % 16 * 16 + v2 / 4 == b1;
    assert v2 % 4 * 64 + v3 == b2;
    var a1 := acc + [b0 as byte];
    var a2 := a1 + [b1 as byte];
    assert A2b(s, 0, 0, 0, acc) == A2b(t1, 1, v0, 0, acc);
    assert A2b(t1, 1, v0, 0, acc) == A2b(t2, 2, v1 % 16, 0, a1);
    assert A2b(t2, 2, v1 % 16, 0, a1) == A2b(t3, 3, v2 % 4, 0, a2);
    assert A2b(t3, 3, v2 % 4, 0, a2) == A2b(rest, 0, 0, 0, a2 + [b2 as byte]);
    assert a2 + [b2 as byte] == acc + b[..3];
  }

  /** The final one or two bytes, with their padding, decode and end the input. */
  lemma DecodeTail(b: seq<byte>, acc: seq<byte>)
    requires 1 <= |b| <= 2
    ensures A2b(StdText(Sextets(b)) + Text.Repeat('=', (-|Sextets(b)|) % 4), 0, 0, 0, acc) == Some(acc + b)
  {
    if |b| == 1 {
      DecodeLastByte(b, acc);
    } else {
      DecodeLastPair(b, acc);
    }
  }

  lemma DecodeLastByte(b: seq<byte>, acc: seq<byte>)
    requires |b| == 1
    ensures A2b(StdText(Sextets(b)) + Text.Repeat('=', (-|Sextets(b)|) % 4), 0, 0, 0, acc) == Some(acc + b)
  {
    var b0 := b[0] as int;
    var v0, v1 := b0 / 4, b0 % 4 * 16;
    assert Sextets(b) == [v0, v1];
    SextetOfStdChar(v0);
    SextetOfStdChar(v1);
    var s := [StdChar(v0), StdChar(v1), '=', '='];
    assert StdText(Sextets(b)) + Text.Repeat('=', (-|Sextets(b)|) % 4) == s;
    var t1 := s[1..];
    var t2 := t1[1..];
    var t3 := t2[1..];
    assert t1[0] == StdChar(v1) && t2[0] == '=' && t3[0] == '=';
    assert v0 * 4 + v1 / 16 == b0;
    var a1 := acc + [b0 as byte];
    assert A2b(s, 0, 0, 0, acc) == A2b(t1, 1, v0, 0, acc);
    assert A2b(t1, 1, v0, 0, acc) == A2b(t2, 2, v1 % 16, 0, a1);
    assert A2b(t2, 2, v1 % 16, 0, a1) == A2b(t3, 2, v1 % 16, 1, a1);
    assert a1 == acc + b;
  }

  lemma DecodeLastPair(b: seq<byte>, acc: seq<byte>)
    requires |b| == 2
    ensures A2b(StdText(Sextets(b)) + Text.Repeat('=', (-|Sextets(b)|) % 4), 0, 0, 0, acc) == Some(acc + b)
  {
    var b0, b1 := b[0] as int, b[1] as int;
    var v0, v1, v2 := b0 / 4, b0 % 4 * 16 + b1 / 16, b1 % 16 * 4;
    assert Sextets(b) == [v0, v1, v2];
    SextetOfStdChar(v0);
    SextetOfStdChar(v1);
    SextetOfStdChar(v2);
    var s := [StdChar(v0), StdChar(v1), StdChar(v2), '='];
    assert StdText(Sextets(b)) + Text.Repeat('=', (-|Sextets(b)|) % 4) == s;
    var t1 := s[1..];
    var t2 := t1[1..];
    var t3 := t2[1..];
    assert t1[0] == StdChar(v1) && t2[0] == StdChar(v2) && t3[0] == '=';
    assert v0 * 4 + v1 / 16 == b0;
    assert v1 % 16 * 16 + v2 / 4 == b1;
    var a1 := acc + [b0 as byte];
    var a2 := a1 + [b1 as byte];
    assert A2b(s, 0, 0, 0, acc) == A2b(t1, 1, v0, 0, acc);
    assert A2b(t1, 1, v0, 0, acc) == A2b(t2, 2, v1 % 16, 0, a1);
    assert A2b(t2, 2, v1 % 16, 0, a1) == A2b(t3, 3, v2 % 4, 0, a2);
    assert a2 == acc + b;
  }

  lemma StdTextAppend(xs: seq<nat>, ys: seq<nat>)
    requires forall k :: 0 <= k < |xs| ==> xs[k] < 64
    requires forall k :: 0 <= k < |ys| ==> ys[k] < 64
    ensures StdText(xs + ys) == StdText(xs) + StdText(ys)
  {
  }

  /** Translating the URL-safe characters and their padding gives the standard characters. */
  lemma TranslateUrlText(sx: seq<nat>, pad: string)
    requires forall k :: 0 <= k < |sx| ==> sx[k] < 64
    requires forall k :: 0 <= k < |pad| ==> pad[k] == '='
    ensures Translate(UrlText(sx) + pad) == StdText(sx) + pad
  {
    var u := UrlText(sx);
    var t := Translate(u + pad);
    forall k | 0 <= k < |t|
      ensures t[k] == (StdText(sx) + pad)[k]
    {
      if k < |u| {
        assert (u + pad)[k] == UrlChar(sx[k]);
      } else {
        assert (u + pad)[k] == pad[k - |u|];
      }
    }
  }

  /** The text `binascii` reads for `b`: standard characters, then the padding. */
  function Padded(b: seq<byte>): string {
    var sx := Sextets(b);
    StdText(sx) + Text.Repeat('=', (-|sx|) % 4)
  }

  /** The text of three or more bytes starts with the four characters of the first three. */
  lemma PaddedGroup(b: seq<byte>)
    requires |b| >= 3
    ensures Padded(b) == StdText(Group(b)) + Padded(b[3..])
  {
    var vs, rest := Group(b), Sextets(b[3..]);
    assert Sextets(b) == vs + rest;
    StdTextAppend(vs, rest);
    PadOfGroup(|rest|);
  }

  lemma PadOfGroup(n: int)
    ensures (-(4 + n)) % 4 == (-n) % 4
  {
  }

  /** The translated, padded encoding of `b` decodes to `b`, appended to what came before. */
  lemma {:induction false} DecodeStd(b: seq<byte>, acc: seq<byte>)
    ensures A2b(Padded(b), 0, 0, 0, acc) == Some(acc + b)
    decreases |b|
  {
    if |b| == 0 {
      assert acc + b == acc;
    } else if |b| <= 2 {
      DecodeTail(b, acc);
    } else {
      PaddedGroup(b);
      DecodeGroup(b, Padded(b[3..]), acc);
      DecodeStd(b[3..], acc + b[..3]);
      assert acc + b[..3] + b[3..] == acc + b;
    }
  }

  /** `b64url_decode(b64url_encode(b)) == b` for all bytes `b` (section 5 of RFC 4648): the
      padding the validator adds back is exactly the padding the issuer stripped. */
  lemma RoundTrip(b: seq<byte>)
    ensures Decode(Encode(b)) == Some(b)
  {
    StripPadding(b);
    assert Encode(b) == UrlText(Sextets(b));
    DecodeUrlText(b);
  }

  /** The URL-safe characters of `b`, unpadded, decode to `b`. */
  lemma DecodeUrlText(b: seq<byte>)
    ensures Decode(UrlText(Sextets(b))) == Some(b)
  {
    var sx := Sextets(b);
    var u := UrlText(sx);
    var pad := Text.Repeat('=', (-|u|) % 4);
    AsciiPadded(u, pad);
    TranslateUrlText(sx, pad);
    assert Translate(u + pad) == Padded(b);
    DecodeAscii(u);
    DecodeStd(b, []);
    assert [] + b == b;
  }

  lemma DecodeAscii(value: string)
    requires Text.IsAscii(value + Text.Repeat('=', (-|value|) % 4))
    ensures Decode(value) == A2b(Translate(value + Text.Repeat('=', (-|value|) % 4)), 0, 0, 0, [])
  {
  }

  lemma AsciiPadded(u: string, pad: string)
    requires forall k :: 0 <= k < |u| ==> IsUrlChar(u[k])
    requires forall k :: 0 <= k < |pad| ==> pad[k] == '='
    ensures Text.IsAscii(u + pad)
  {
    var p := u + pad;
    forall k | 0 <= k < |p|
      ensures p[k] as int < 128
    {
      if k < |u| {
        assert p[k] == u[k];
      } else {
        assert p[k] == pad[k - |u|];
      }
    }
  }
}
