/**
 JSON values as the Python runtime holds them after `json.loads`, and the Python
 operations the tools apply to them: `dict.get`, item assignment, truthiness,
 `str`/`repr`, `int()`, iteration, `x[0]`, `x[:n]` and `+`.

 Objects keep their members in document order, as Python dicts do. A dict read
 by `json.loads` never holds a key twice; lookups take the first member with
 the key, which for such a dict is the only one.
 */
module Json {
  import opened Wrappers
  import Text
  import Decimal

  datatype Json =
    | JNull
    | JBool(b: bool)
    | JInt(i: int)
    | JStr(s: string)
    | JArr(items: seq<Json>)
    | JObj(fields: seq<(string, Json)>)

  /** The Python exceptions that can escape the modelled code; each one ends the process. */
  datatype PyError =
    | AttributeError
    | TypeError
    | ValueError
    | KeyError
    | IndexError
    | OSError
    | UnicodeDecodeError
    | JSONDecodeError
    | RecursionError

  /** Why `json.loads` gives up on a text. A syntax error raises `JSONDecodeError`. An integer
      literal of more than 4,300 digits raises a plain `ValueError` (CPython's limit on
      integer string conversion), and nesting past the interpreter's recursion limit raises
      `RecursionError`: neither of those is a `JSONDecodeError`. */
  datatype ParseFailure = BadSyntax | OverlongInteger | TooDeep

  /** The exception `json.loads` raises for a failure; only a syntax error is a `JSONDecodeError`. */
  function Raised(why: ParseFailure): (e: PyError)
    ensures e == JSONDecodeError <==> why == BadSyntax
    ensures e == ValueError <==> why == OverlongInteger
    ensures e == RecursionError <==> why == TooDeep
  {
    match why
    case BadSyntax => JSONDecodeError
    case OverlongInteger => ValueError
    case TooDeep => RecursionError
  }

  /** What `json.loads(path.read_text())` meets for a path: no file, a read failure,
      bytes that are not text, text `json.loads` cannot read, or a parsed document. */
  datatype JsonFile = Missing | Unreadable | Undecodable | Malformed(why: ParseFailure) | Parsed(doc: Json)

  /** `json.loads(path.read_text())` on a file that exists, with its exceptions uncaught. */
  function Load(f: JsonFile): (r: Result<Json, PyError>)
    requires !f.Missing?
    ensures r.Ok? <==> f.Parsed?
    ensures r.Ok? ==> r.value == f.doc
    ensures f.Malformed? ==> r == Err(Raised(f.why))
  {
    match f
    case Unreadable => Err(OSError)
    case Undecodable => Err(UnicodeDecodeError)
    case Malformed(why) => Err(Raised(why))
    case Parsed(doc) => Ok(doc)
  }

  /** The keys of a dict, in order. */
  function Keys(fields: seq<(string, Json)>): (r: seq<string>)
    ensures |r| == |fields|
    ensures forall k :: 0 <= k < |r| ==> r[k] == fields[k].0
  {
    seq(|fields|, k requires 0 <= k < |fields| => fields[k].0)
  }

  /** No key occurs twice, which holds of every dict Python builds. */
  predicate DistinctKeys(fields: seq<(string, Json)>) {
    forall i, j :: 0 <= i < j < |fields| ==> fields[i].0 != fields[j].0
  }

  /** `key in d`. */
  predicate HasKey(fields: seq<(string, Json)>, key: string) {
    key in Keys(fields)
  }

  /** `d[key]` when present. */
  function Lookup(fields: seq<(string, Json)>, key: string): (r: Option<Json>)
    ensures r.Some? <==> HasKey(fields, key)
    ensures r.Some? ==> exists k :: 0 <= k < |fields| && fields[k] == (key, r.value)
  {
    if |fields| == 0 then None
    else if fields[0].0 == key then Some(fields[0].1)
    else
      var r := Lookup(fields[1..], key);
      assert Keys(fields) == [fields[0].0] + Keys(fields[1..]);
      assert r.Some? ==> exists k :: 0 <= k < |fields[1..]| && fields[1..][k] == (key, r.value);
      if r.Some? then
        var k :| 0 <= k < |fields[1..]| && fields[1..][k] == (key, r.value);
        assert fields[k + 1] == (key, r.value);
        r
      else r
  }

  /** `d[key]` is the member at the first position holding `key`. */
  lemma {:induction false} LookupFirstAt(fields: seq<(string, Json)>, key: string, n: nat)
    requires n < |fields| && fields[n].0 == key
    requires forall j :: 0 <= j < n ==> fields[j].0 != key
    ensures Lookup(fields, key) == Some(fields[n].1)
  {
    if n > 0 {
      assert fields[1..][n - 1] == fields[n];
      LookupFirstAt(fields[1..], key, n - 1);
    }
  }

  /** In a dict without repeated keys, each member is what its key looks up. */
  lemma {:induction false} LookupDistinct(fields: seq<(string, Json)>, k: int)
    requires DistinctKeys(fields) && 0 <= k < |fields|
    ensures Lookup(fields, fields[k].0) == Some(fields[k].1)
  {
    if k > 0 {
      assert fields[0].0 != fields[k].0;
      assert DistinctKeys(fields[1..]) by {
        forall i, j | 0 <= i < j < |fields[1..]|
          ensures fields[1..][i].0 != fields[1..][j].0
        {
          assert fields[1..][i] == fields[i + 1] && fields[1..][j] == fields[j + 1];
        }
      }
      LookupDistinct(fields[1..], k - 1);
      assert fields[1..][k - 1] == fields[k];
    }
  }

  /** `d.get(key, default)` on a dict. */
  function GetOr(fields: seq<(string, Json)>, key: string, default: Json): Json {
    Lookup(fields, key).GetOr(default)
  }

  /** `v.get(key, default)`: only a dict has `get`; anything else raises `AttributeError`. */
  function Get(v: Json, key: string, default: Json): (r: Result<Json, PyError>)
    ensures r.Ok? <==> v.JObj?
    ensures v.JObj? && HasKey(v.fields, key) ==> r == Ok(Lookup(v.fields, key).value)
    ensures v.JObj? && !HasKey(v.fields, key) ==> r == Ok(default)
  {
    if v.JObj? then Ok(GetOr(v.fields, key, default)) else Err(AttributeError)
  }

  /** Every member with `key` gets `value`; keys and order are kept. */
  function Replace(fields: seq<(string, Json)>, key: string, value: Json): (r: seq<(string, Json)>)
    ensures Keys(r) == Keys(fields)
    ensures forall k :: 0 <= k < |r| ==> r[k].1 == (if fields[k].0 == key then value else fields[k].1)
  {
    seq(|fields|, k requires 0 <= k < |fields| => (fields[k].0, if fields[k].0 == key then value else fields[k].1))
  }

  lemma {:induction false} LookupReplace(fields: seq<(string, Json)>, key: string, value: Json, other: string)
    ensures Lookup(Replace(fields, key, value), other)
      == if other == key && HasKey(fields, key) then Some(value) else Lookup(fields, other)
  {
    if |fields| > 0 {
      var r := Replace(fields, key, value);
      assert r[1..] == Replace(fields[1..], key, value);
      assert Keys(fields) == [fields[0].0] + Keys(fields[1..]);
      LookupReplace(fields[1..], key, value, other);
    }
  }

  lemma {:induction false} LookupAppend(fields: seq<(string, Json)>, key: string, value: Json, other: string)
    requires !HasKey(fields, key)
    ensures Lookup(fields + [(key, value)], other) == if other == key then Some(value) else Lookup(fields, other)
  {
    if |fields| > 0 {
      assert (fields + [(key, value)])[1..] == fields[1..] + [(key, value)];
      assert Keys(fields) == [fields[0].0] + Keys(fields[1..]);
      LookupAppend(fields[1..], key, value, other);
    }
  }

  /** `d[key] = value`: replaces the value in place, or appends the key when it is new;
      every other key keeps its value. */
  function Put(fields: seq<(string, Json)>, key: string, value: Json): (r: seq<(string, Json)>)
    ensures Lookup(r, key) == Some(value)
    ensures forall k :: k != key ==> Lookup(r, k) == Lookup(fields, k)
    ensures HasKey(fields, key) ==> Keys(r) == Keys(fields)
    ensures !HasKey(fields, key) ==> r == fields + [(key, value)]
  {
    if HasKey(fields, key) then
      var r := Replace(fields, key, value);
      LookupReplace(fields, key, value, key);
      forall k | k != key
        ensures Lookup(r, k) == Lookup(fields, k)
      {
        LookupReplace(fields, key, value, k);
      }
      r
    else
      var r := fields + [(key, value)];
      LookupAppend(fields, key, value, key);
      forall k | k != key
        ensures Lookup(r, k) == Lookup(fields, k)
      {
        LookupAppend(fields, key, value, k);
      }
      r
  }

  /** Assigning a key the value it was just given changes nothing. */
  lemma PutTwice(fields: seq<(string, Json)>, key: string, value: Json)
    ensures Put(Put(fields, key, value), key, value) == Put(fields, key, value)
  {
    var g := Put(fields, key, value);
    assert HasKey(g, key);
    var r := Replace(g, key, value);
    assert Keys(r) == Keys(g);
    forall i | 0 <= i < |g|
      ensures r[i] == g[i]
    {
      assert r[i].0 == Keys(r)[i] == Keys(g)[i] == g[i].0;
      if g[i].0 == key {
        if HasKey(fields, key) {
          assert Keys(g)[i] == Keys(fields)[i];
        }
      }
    }
  }

  /** Python truthiness of a value: `None`, `False`, `0`, and empty strings, lists and dicts are false. */
  predicate Truthy(v: Json) {
    match v
    case JNull => false
    case JBool(b) => b
    case JInt(i) => i != 0
    case JStr(s) => |s| > 0
    case JArr(items) => |items| > 0
    case JObj(fields) => |fields| > 0
  }

  /** Values Python can put in a set or use as a dict key. */
  predicate Hashable(v: Json) {
    !v.JArr? && !v.JObj?
  }

  function HexDigit(d: nat): char
    requires d < 16
  {
    if d < 10 then ('0' as int + d) as char else ('a' as int + d - 10) as char
  }

  /** `repr` of one character inside a quoted string: backslash escapes for the quote, the backslash,
      tab, newline and return, `\xNN` for the other control characters, DEL, the C1 block,
      no-break space and soft hyphen. Every other character is taken as printable. */
  function ReprChar(c: char, quote: char): string {
    var n := c as int;
    if c == quote || c == '\\' then ['\\', c]
    else if c == '\t' then "\\t"
    else if c == '\n' then "\\n"
    else if c == '\r' then "\\r"
    else if n < 0x20 || (0x7f <= n <= 0xa0) || n == 0xad then ['\\', 'x', HexDigit(n / 16), HexDigit(n % 16)]
    else [c]
  }

  function ReprChars(s: string, quote: char): string {
    if |s| == 0 then "" else ReprChar(s[0], quote) + ReprChars(s[1..], quote)
  }

  /** `repr(s)` for a `str`: single quotes, or double quotes when `s` holds a single quote and no double quote. */
  function ReprString(s: string): string {
    var quote := if '\'' in s && '"' !in s then '"' else '\'';
    [quote] + ReprChars(s, quote) + [quote]
  }

  /** `repr(v)`. */
  function Repr(v: Json): string {
    match v
    case JNull => "None"
    case JBool(b) => if b then "True" else "False"
    case JInt(i) => Decimal.IntToDecimal(i)
    case JStr(s) => ReprString(s)
    case JArr(items) =>
      "[" + Text.Join(seq(|items|, k requires 0 <= k < |items| => Repr(items[k])), ", ") + "]"
    case JObj(fields) =>
      "{" + Text.Join(seq(|fields|, k requires 0 <= k < |fields| =>
        ReprString(fields[k].0) + ": " + Repr(fields[k].1)), ", ") + "}"
  }

  /** `str(v)`, which is also what an f-string interpolates: a string is itself, anything else its `repr`. */
  function Str(v: Json): (r: string)
    ensures v.JStr? ==> r == v.s
    ensures v.JInt? ==> r == Decimal.IntToDecimal(v.i)
  {
    if v.JStr? then v.s else Repr(v)
  }

  /** `int(v)`: integers as they are, booleans as 0 and 1, decimal text parsed; text that is not a
      decimal raises `ValueError`, any other value `TypeError`. */
  function IntOf(v: Json): (r: Result<int, PyError>)
    ensures v.JInt? ==> r == Ok(v.i)
    ensures r.Err? ==> v.JNull? || v.JStr? || v.JArr? || v.JObj?
  {
    match v
    case JInt(i) => Ok(i)
    case JBool(b) => Ok(if b then 1 else 0)
    case JStr(s) =>
      (match Decimal.ParseInt(s)
       case Some(i) => Ok(i)
       case None => Err(ValueError))
    case _ => Err(TypeError)
  }

  /** The strings a JSON document can hold as one-character Python strings. */
  function Chars(s: string): (r: seq<Json>)
    ensures |r| == |s|
    ensures forall k :: 0 <= k < |s| ==> r[k] == JStr([s[k]])
  {
    seq(|s|, k requires 0 <= k < |s| => JStr([s[k]]))
  }

  /** What `for x in v` visits: list items, dict keys, or the characters of a string;
      numbers, booleans and `None` are not iterable and raise `TypeError`. */
  function Iterate(v: Json): (r: Result<seq<Json>, PyError>)
    ensures v.JArr? ==> r == Ok(v.items)
    ensures r.Ok? <==> v.JArr? || v.JObj? || v.JStr?
    ensures v.JObj? ==> r.Ok? && |r.value| == |v.fields|
  {
    match v
    case JArr(items) => Ok(items)
    case JObj(fields) => Ok(seq(|fields|, k requires 0 <= k < |fields| => JStr(fields[k].0)))
    case JStr(s) => Ok(Chars(s))
    case _ => Err(TypeError)
  }

  /** `v[0]`: the first item of a list or the first character of a string; an empty one raises
      `IndexError`, a dict has no key `0` and raises `KeyError`, anything else `TypeError`. */
  function First(v: Json): (r: Result<Json, PyError>)
    ensures v.JArr? && |v.items| > 0 ==> r == Ok(v.items[0])
    ensures r.Ok? <==> (v.JArr? && |v.items| > 0) || (v.JStr? && |v.s| > 0)
  {
    match v
    case JArr(items) => if |items| > 0 then Ok(items[0]) else Err(IndexError)
    case JStr(s) => if |s| > 0 then Ok(JStr([s[0]])) else Err(IndexError)
    case JObj(_) => Err(KeyError)
    case _ => Err(TypeError)
  }

  /** `v[:n]` on a list or a string; other values cannot be sliced and raise `TypeError`. */
  function Prefix(v: Json, n: nat): (r: Result<Json, PyError>)
    ensures r.Ok? <==> v.JArr? || v.JStr?
    ensures v.JArr? ==> (r.Ok? && r.value.JArr? && |r.value.items| <= n && |r.value.items| <= |v.items|
      && r.value.items == v.items[..|r.value.items|] && (|v.items| <= n ==> r.value.items == v.items))
    ensures v.JStr? ==> (r.Ok? && r.value.JStr? && |r.value.s| <= n && |r.value.s| <= |v.s|
      && r.value.s == v.s[..|r.value.s|] && (|v.s| <= n ==> r.value.s == v.s))
  {
    match v
    case JArr(items) => Ok(JArr(if |items| <= n then items else items[..n]))
    case JStr(s) => Ok(JStr(if |s| <= n then s else s[..n]))
    case _ => Err(TypeError)
  }

  /** A number as Python adds it: `True` and `False` count as 1 and 0. */
  function NumberOf(v: Json): int
    requires v.JInt? || v.JBool?
  {
    if v.JInt? then v.i else if v.b then 1 else 0
  }

  /** The pairings Python's `+` accepts among JSON values. */
  predicate Addable(a: Json, b: Json) {
    || (a.JArr? && b.JArr?)
    || (a.JStr? && b.JStr?)
    || ((a.JInt? || a.JBool?) && (b.JInt? || b.JBool?))
  }

  /** `a + b`: lists and strings concatenate, numbers add, any other pairing raises `TypeError`. */
  function Add(a: Json, b: Json): (r: Result<Json, PyError>)
    ensures a.JArr? && b.JArr? ==> r == Ok(JArr(a.items + b.items))
    ensures a.JStr? && b.JStr? ==> r == Ok(JStr(a.s + b.s))
    ensures r.Err? <==> !Addable(a, b)
  {
    if a.JArr? && b.JArr? then Ok(JArr(a.items + b.items))
    else if a.JStr? && b.JStr? then Ok(JStr(a.s + b.s))
    else if (a.JInt? || a.JBool?) && (b.JInt? || b.JBool?) then Ok(JInt(NumberOf(a) + NumberOf(b)))
    else Err(TypeError)
  }

  /** A list of strings as a JSON list. */
  function Strings(xs: seq<string>): (r: seq<Json>)
    ensures |r| == |xs|
    ensures forall k :: 0 <= k < |xs| ==> r[k] == JStr(xs[k])
  {
    seq(|xs|, k requires 0 <= k < |xs| => JStr(xs[k]))
  }
}
