/**
 `json.dumps` as the tools call it: `ensure_ascii` on, keys in insertion order or
 sorted, compact or spaced separators, and an optional indent. Strings are escaped
 the way Python's encoder does it, so every output is printable ASCII apart from
 the newlines an indent adds.

 `UnescapeChars` reads a JSON string body back, following section 7 of RFC 8259;
 it is the partner the escaping is checked against.
 */
module JsonText {
  import opened Wrappers
  import Text
  import Decimal
  import Order
  import opened Json

  /** Text of ASCII characters only, as every separator the tools pass is. */
  type AsciiText = s: string | Text.IsAscii(s)

  /** The keyword arguments of `json.dumps` that the tools vary. */
  datatype Format = Format(sortKeys: bool, indent: Option<nat>, itemSep: AsciiText, keySep: AsciiText)

  /** `sort_keys=True, separators=(",", ":")`: the signed license payload. */
  const Canonical := Format(true, None, ",", ":")
  /** `separators=(",", ":")`: the validator's verdict line. */
  const Compact := Format(false, None, ",", ":")
  /** No arguments: Python's default separators `", "` and `": "`. */
  const Spaced := Format(false, None, ", ", ": ")
  /** `indent=2`, whose separators default to `","` and `": "`: every file the tools write. */
  const Pretty := Format(false, Some(2), ",", ": ")

  /** The characters Python's encoder writes without escaping. */
  predicate Printable(c: char) {
    ' ' <= c <= '~'
  }

  predicate AllPrintable(s: string) {
    forall k :: 0 <= k < |s| ==> Printable(s[k])
  }

  /** Four lowercase hexadecimal digits, most significant first. */
  function Hex4(n: nat): (r: string)
    requires n < 0x10000
    ensures |r| == 4 && AllPrintable(r)
  {
    [HexDigit(n / 16 / 16 / 16), HexDigit(n / 16 / 16 % 16), HexDigit(n / 16 % 16), HexDigit(n % 16)]
  }

  /** One character as Python's `ensure_ascii` encoder writes it inside a string literal:
      printable ASCII other than `"` and `\` as itself, the five short escapes, and `\uXXXX`
      for the rest, split into a UTF-16 surrogate pair above U+FFFF. */
  function EscapeChar(c: char): (r: string)
    ensures |r| > 0 && AllPrintable(r)
    ensures r[0] == '\\' || (r == [c] && c != '"')
  {
    var n := c as int;
    if c == '"' then "\\\""
    else if c == '\\' then "\\\\"
    else if c == '\n' then "\\n"
    else if c == '\r' then "\\r"
    else if c == '\t' then "\\t"
    else if n == 8 then "\\b"
    else if n == 12 then "\\f"
    else if Printable(c) then [c]
    else if n < 0x10000 then "\\u" + Hex4(n)
    else
      var v := n - 0x10000;
      "\\u" + Hex4(0xd800 + v / 0x400) + "\\u" + Hex4(0xdc00 + v % 0x400)
  }

  function EscapeChars(s: string): (r: string)
    ensures AllPrintable(r)
  {
    if |s| == 0 then "" else EscapeChar(s[0]) + EscapeChars(s[1..])
  }

  /** A Python string as a JSON string literal. */
  function Quote(s: string): (r: string)
    ensures |r| >= 2 && r[0] == '"' && r[|r| - 1] == '"'
    ensures AllPrintable(r)
  {
    "\"" + EscapeChars(s) + "\""
  }

  /** The value of one hexadecimal digit in either case. */
  function HexValue(c: char): Option<nat> {
    if '0' <= c <= '9' then Some(c as int - '0' as int)
    else if 'a' <= c <= 'f' then Some(c as int - 'a' as int + 10)
    else if 'A' <= c <= 'F' then Some(c as int - 'A' as int + 10)
    else None
  }

  /** The value of the four hexadecimal digits of a `\uXXXX` escape. */
  function Hex4Value(s: string): (r: Option<nat>)
    requires |s| == 4
    ensures r.Some? ==> r.value < 0x10000
  {
    match (HexValue(s[0]), HexValue(s[1]), HexValue(s[2]), HexValue(s[3]))
    case (Some(a), Some(b), Some(c), Some(d)) =>
      if a < 16 && b < 16 && c < 16 && d < 16 then Some(((a * 16 + b) * 16 + c) * 16 + d) else None
    case _ => None
  }

  /** The digits `Hex4` writes read back as the number. */
  lemma Hex4Reads(n: nat)
    requires n < 0x10000
    ensures Hex4Value(Hex4(n)) == Some(n)
  {
    var m1 := n / 16;
    var m2 := m1 / 16;
    var m3 := m2 / 16;
    HexDigitReads(m3);
    HexDigitReads(m2 % 16);
    HexDigitReads(m1 % 16);
    HexDigitReads(n % 16);
    assert ((m3 * 16 + m2 % 16) * 16 + m1 % 16) * 16 + n % 16 == n;
  }

  lemma HexDigitReads(d: nat)
    requires d < 16
    ensures HexValue(HexDigit(d)) == Some(d)
  {
  }

  /** Prepends a character to a decoded result. */
  function Cons(c: char, r: Option<string>): Option<string> {
    match r
    case Some(s) => Some([c] + s)
    case None => None
  }

  /** The body of a JSON string literal read back into the characters it denotes, as section 7
      of RFC 8259 defines it: any character but `"`, `\` and the controls below U+0020 stands for
      itself; escapes are the eight short ones and `\uXXXX`, with surrogate pairs combined.
      `None` when the text is not such a body, or holds a surrogate that is not paired. */
  function UnescapeChars(s: string): Option<string>
    decreases |s|
  {
    if |s| == 0 then Some("")
    else if s[0] == '"' || (s[0] as int) < 0x20 then None
    else if s[0] != '\\' then Cons(s[0], UnescapeChars(s[1..]))
    else if |s| < 2 then None
    else if s[1] == '"' then Cons('"', UnescapeChars(s[2..]))
    else if s[1] == '\\' then Cons('\\', UnescapeChars(s[2..]))
    else if s[1] == '/' then Cons('/', UnescapeChars(s[2..]))
    else if s[1] == 'b' then Cons(8 as char, UnescapeChars(s[2..]))
    else if s[1] == 'f' then Cons(12 as char, UnescapeChars(s[2..]))
    else if s[1] == 'n' then Cons('\n', UnescapeChars(s[2..]))
    else if s[1] == 'r' then Cons('\r', UnescapeChars(s[2..]))
    else if s[1] == 't' then Cons('\t', UnescapeChars(s[2..]))
    else if s[1] != 'u' || |s| < 6 then None
    else
      match Hex4Value(s[2..6])
      case None => None
      case Some(hi) =>
        if hi < 0xd800 || hi > 0xdfff then Cons(hi as char, UnescapeChars(s[6..]))
        else if hi > 0xdbff || |s| < 12 || s[6] != '\\' || s[7] != 'u' then None
        else
          match Hex4Value(s[8..12])
          case None => None
          case Some(lo) =>
            if lo < 0xdc00 || lo > 0xdfff then None
            else Cons((0x10000 + (hi - 0xd800) * 0x400 + (lo - 0xdc00)) as char, UnescapeChars(s[12..]))
  }

  /** Reading back one escaped character and whatever follows it. */
  lemma UnescapeOne(c: char, t: string)
    ensures UnescapeChars(EscapeChar(c) + t) == Cons(c, UnescapeChars(t))
  {
    var n := c as int;
    if c == '"' || c == '\\' || c == '\n' || c == '\r' || c == '\t' || n == 8 || n == 12 {
      UnescapeShort(c, t);
    } else if Printable(c) {
      var s := EscapeChar(c) + t;
      assert s[1..] == t;
    } else if n < 0x10000 {
      UnescapeBasic(c, t);
    } else {
      UnescapePair(c, t);
    }
  }

  lemma UnescapeShort(c: char, t: string)
    requires c == '"' || c == '\\' || c == '\n' || c == '\r' || c == '\t' || c as int == 8 || c as int == 12
    ensures UnescapeChars(EscapeChar(c) + t) == Cons(c, UnescapeChars(t))
  {
    var s := EscapeChar(c) + t;
    assert |EscapeChar(c)| == 2;
    assert s[2..] == t;
  }

  lemma UnescapeBasic(c: char, t: string)
    requires !Printable(c) && c as int < 0x10000
    requires !(c == '\n' || c == '\r' || c == '\t' || c as int == 8 || c as int == 12)
    ensures UnescapeChars(EscapeChar(c) + t) == Cons(c, UnescapeChars(t))
  {
    var n := c as int;
    var s := EscapeChar(c) + t;
    assert EscapeChar(c) == "\\u" + Hex4(n);
    assert s[0] == '\\' && s[1] == 'u';
    assert s[2..6] == Hex4(n);
    Hex4Reads(n);
    assert s[6..] == t;
  }

  lemma UnescapePair(c: char, t: string)
    requires c as int >= 0x10000
    ensures UnescapeChars(EscapeChar(c) + t) == Cons(c, UnescapeChars(t))
  {
    var n := c as int;
    var v := n - 0x10000;
    var hi := 0xd800 + v / 0x400;
    var lo := 0xdc00 + v % 0x400;
    SurrogateSplit(n);
    assert (0x10000 + (hi - 0xd800) * 0x400 + (lo - 0xdc00)) as char == c;
    assert EscapeChar(c) == "\\u" + Hex4(hi) + "\\u" + Hex4(lo);
    UnescapeSurrogates(hi, lo, t);
  }

  /** The UTF-16 surrogate pair of a character above U+FFFF, and the character back from it. */
  lemma SurrogateSplit(n: int)
    requires 0x10000 <= n < 0x110000
    ensures var v := n - 0x10000;
      && 0xd800 <= 0xd800 + v / 0x400 <= 0xdbff && 0xdc00 <= 0xdc00 + v % 0x400 <= 0xdfff
      && 0x10000 + (0xd800 + v / 0x400 - 0xd800) * 0x400 + (0xdc00 + v % 0x400 - 0xdc00) == n
  {
  }

  /** A surrogate pair written as two escapes reads back as the one character it encodes. */
  lemma UnescapeSurrogates(hi: int, lo: int, t: string)
    requires 0xd800 <= hi <= 0xdbff && 0xdc00 <= lo <= 0xdfff
    ensures var s := "\\u" + Hex4(hi) + "\\u" + Hex4(lo) + t;
      UnescapeChars(s) == Cons((0x10000 + (hi - 0xd800) * 0x400 + (lo - 0xdc00)) as char, UnescapeChars(t))
  {
    var s := "\\u" + Hex4(hi) + "\\u" + Hex4(lo) + t;
    assert s[0] == '\\' && s[1] == 'u';
    assert s[2..6] == Hex4(hi);
    assert s[6] == '\\' && s[7] == 'u';
    assert s[8..12] == Hex4(lo);
    assert s[12..] == t;
    Hex4Reads(hi);
    Hex4Reads(lo);
    UnescapeHighLow(s, hi, lo);
  }

  /** A `\\uXXXX\\uXXXX` surrogate pair at the start of a literal body is one character. */
  lemma UnescapeHighLow(s: string, hi: int, lo: int)
    requires |s| >= 12 && s[0] == '\\' && s[1] == 'u' && s[6] == '\\' && s[7] == 'u'
    requires 0xd800 <= hi <= 0xdbff && 0xdc00 <= lo <= 0xdfff
    requires Hex4Value(s[2..6]) == Some(hi) && Hex4Value(s[8..12]) == Some(lo)
    ensures UnescapeChars(s) == Cons((0x10000 + (hi - 0xd800) * 0x400 + (lo - 0xdc00)) as char, UnescapeChars(s[12..]))
  {
  }

  /** Escaping loses nothing: the string literal Python writes reads back as the original string. */
  lemma {:induction false} UnescapeEscape(s: string)
    ensures UnescapeChars(EscapeChars(s)) == Some(s)
  {
    if |s| > 0 {
      UnescapeOne(s[0], EscapeChars(s[1..]));
      UnescapeEscape(s[1..]);
      assert [s[0]] + s[1..] == s;
    }
  }

  /** The break between items of a container at depth `level`: a newline and the indent when
      indenting, nothing otherwise. */
  function Newline(fmt: Format, level: nat): (r: string)
    ensures Text.IsAscii(r)
  {
    match fmt.indent
    case None => ""
    case Some(width) => "\n" + Text.Repeat(' ', width * level)
  }

  /** The members of an object in the order they are written: as they stand, or sorted by key. */
  function Members(fmt: Format, fields: seq<(string, Json)>): (r: seq<(string, Json)>)
    ensures forall k :: 0 <= k < |r| ==> r[k] in fields
    ensures !fmt.sortKeys ==> r == fields
    ensures fmt.sortKeys ==> Keys(r) == Order.SortedDistinct(Keys(fields))
  {
    if !fmt.sortKeys then fields
    else
      var keys := Order.SortedDistinct(Keys(fields));
      seq(|keys|, k requires 0 <= k < |keys| =>
        assert HasKey(fields, keys[k]);
        (keys[k], Lookup(fields, keys[k]).value))
  }

  /** Writing the members sorted moves them but keeps what every key looks up. */
  lemma MembersKeepLookups(fmt: Format, fields: seq<(string, Json)>, key: string)
    ensures Lookup(Members(fmt, fields), key) == Lookup(fields, key)
  {
    var r := Members(fmt, fields);
    if fmt.sortKeys {
      var keys := Order.SortedDistinct(Keys(fields));
      assert Keys(r) == keys;
      assert HasKey(r, key) <==> HasKey(fields, key);
      if HasKey(fields, key) {
        var i :| 0 <= i < |keys| && keys[i] == key;
        SortedKeysDistinct(r);
        LookupDistinct(r, i);
        assert r[i] == (key, Lookup(fields, key).value);
      }
    }
  }

  /** The same for every key at once. */
  lemma MembersKeepAllLookups(fmt: Format, fields: seq<(string, Json)>)
    ensures forall k :: Lookup(Members(fmt, fields), k) == Lookup(fields, k)
  {
    forall k
      ensures Lookup(Members(fmt, fields), k) == Lookup(fields, k)
    {
      MembersKeepLookups(fmt, fields, k);
    }
  }

  /** Keys in strictly ascending order are distinct. */
  lemma SortedKeysDistinct(fields: seq<(string, Json)>)
    requires Order.StrictlySorted(Keys(fields))
    ensures DistinctKeys(fields)
  {
    forall i, j | 0 <= i < j < |fields|
      ensures fields[i].0 != fields[j].0
    {
      Order.SortedDistinctElements(Keys(fields), i, j);
    }
  }

  lemma JoinAscii(parts: seq<string>, sep: string)
    requires Text.IsAscii(sep)
    requires forall k :: 0 <= k < |parts| ==> Text.IsAscii(parts[k])
    ensures Text.IsAscii(Text.Join(parts, sep))
  {
    if |parts| > 1 {
      JoinAscii(parts[1..], sep);
    }
  }

  /** A non-empty container at depth `level`: the opening bracket, its encoded entries one
      level deeper separated by the item separator, and the closing bracket on its own line. */
  function Container(fmt: Format, level: nat, open: string, parts: seq<string>, close: string): (r: string)
    requires Text.IsAscii(open) && Text.IsAscii(close)
    requires forall k :: 0 <= k < |parts| ==> Text.IsAscii(parts[k])
    ensures Text.IsAscii(r)
  {
    var sep := fmt.itemSep + Newline(fmt, level + 1);
    JoinAscii(parts, sep);
    open + Newline(fmt, level + 1) + Text.Join(parts, sep) + Newline(fmt, level) + close
  }

  /** `json.dumps(v, ...)` for a value nested `level` containers deep. */
  function Encode(fmt: Format, v: Json, level: nat): (r: string)
    ensures Text.IsAscii(r)
    decreases v
  {
    match v
    case JNull => "null"
    case JBool(b) => if b then "true" else "false"
    case JInt(i) => Decimal.IntToDecimal(i)
    case JStr(s) => Quote(s)
    case JArr(items) =>
      if |items| == 0 then "[]"
      else
        var parts := seq(|items|, k requires 0 <= k < |items| => Encode(fmt, items[k], level + 1));
        Container(fmt, level, "[", parts, "]")
    case JObj(fields) =>
      if |fields| == 0 then "{}"
      else
        var members := Members(fmt, fields);
        var parts := seq(|members|, k requires 0 <= k < |members| =>
          assert members[k] in fields;
          Quote(members[k].0) + fmt.keySep + Encode(fmt, members[k].1, level + 1));
        Container(fmt, level, "{", parts, "}")
  }

  /** `json.dumps(v, ...)`: always ASCII, since `ensure_ascii` escapes everything else. */
  function Dumps(fmt: Format, v: Json): (r: string)
    ensures Text.IsAscii(r)
  {
    Encode(fmt, v, 0)
  }

  /** With sorted keys the text of an object depends only on what each key maps to, never on
      the order in which the keys were inserted, so equal claims give identical payloads. */
  lemma CanonicalIgnoresInsertionOrder(a: seq<(string, Json)>, b: seq<(string, Json)>)
    requires forall k :: Lookup(a, k) == Lookup(b, k)
    ensures Dumps(Canonical, JObj(a)) == Dumps(Canonical, JObj(b))
  {
    forall y
      ensures y in Keys(a) <==> y in Keys(b)
    {
      assert HasKey(a, y) <==> Lookup(a, y).Some?;
    }
    if |a| > 0 {
      assert a[0].0 in Keys(a);
    }
    if |b| > 0 {
      assert b[0].0 in Keys(b);
    }
    Order.SortedDistinctCanonical(Keys(a), Keys(b));
    assert Members(Canonical, a) == Members(Canonical, b);
    ObjectByMembers(Canonical, a, b, 0);
  }

  /** An object is written from its members in writing order alone. */
  lemma ObjectByMembers(fmt: Format, a: seq<(string, Json)>, b: seq<(string, Json)>, level: nat)
    requires |a| == 0 <==> |b| == 0
    requires Members(fmt, a) == Members(fmt, b)
    ensures Encode(fmt, JObj(a), level) == Encode(fmt, JObj(b), level)
  {
  }
}
