/**
 Python's conversions between integers and decimal text: `str(i)` for an `int`
 and `int(s)` for a `str`.
 */
module Decimal {
  import opened Wrappers
  import Text

  predicate IsDigit(c: char) {
    '0' <= c <= '9'
  }

  predicate AllDigits(s: string) {
    forall k :: 0 <= k < |s| ==> IsDigit(s[k])
  }

  function DigitChar(d: nat): (c: char)
    requires d < 10
    ensures IsDigit(c)
  {
    ('0' as int + d) as char
  }

  function DigitValue(c: char): (d: nat)
    requires IsDigit(c)
    ensures d < 10 && DigitChar(d) == c
  {
    c as int - '0' as int
  }

  /** The value of a string of ASCII digits read in base ten. */
  function ValueOf(s: string): nat
    requires AllDigits(s)
  {
    if |s| == 0 then 0 else ValueOf(s[..|s| - 1]) * 10 + DigitValue(s[|s| - 1])
  }

  /** The shortest decimal spelling of `n`: digits only, no leading zero except for `0` itself. */
  function Digits(n: nat): (r: string)
    ensures |r| >= 1 && AllDigits(r)
    ensures |r| > 1 ==> r[0] != '0'
  {
    if n < 10 then [DigitChar(n)] else Digits(n / 10) + [DigitChar(n % 10)]
  }

  /** Reading the digits of `n` back gives `n`. */
  lemma {:induction false} DigitsValue(n: nat)
    ensures ValueOf(Digits(n)) == n
  {
    if n >= 10 {
      var s := Digits(n);
      assert s[..|s| - 1] == Digits(n / 10);
      DigitsValue(n / 10);
    }
  }

  /** `str(i)` for a Python `int`. */
  function IntToDecimal(i: int): (r: string)
    ensures |r| >= 1
    ensures forall k :: 0 <= k < |r| ==> IsDigit(r[k]) || (k == 0 && r[k] == '-')
    ensures (r[0] == '-') <==> i < 0
  {
    if i < 0 then "-" + Digits(-i) else Digits(i)
  }

  /** Digits with single underscores between them, as Python's `int()` accepts them. */
  predicate Grouped(s: string) {
    && |s| > 0 && IsDigit(s[0]) && IsDigit(s[|s| - 1])
    && (forall k :: 0 <= k < |s| ==> IsDigit(s[k]) || s[k] == '_')
    && !Text.HasRun(s, "__")
  }

  /** The digits of `s` with the underscores left out. */
  function Ungroup(s: string): (r: string)
    requires forall k :: 0 <= k < |s| ==> IsDigit(s[k]) || s[k] == '_'
    ensures AllDigits(r)
    ensures AllDigits(s) ==> r == s
  {
    if |s| == 0 then ""
    else if s[0] == '_' then Ungroup(s[1..])
    else [s[0]] + Ungroup(s[1..])
  }

  /** CPython's default `sys.get_int_max_str_digits()`: `int()` of decimal text with more digits
      than this, underscores not counted, raises `ValueError`. */
  const MaxStrDigits: nat := 4300

  /** `int(t)` once the whitespace is gone: one optional sign, then at most `MaxStrDigits` ASCII
      digits that may be grouped by single underscores. */
  function ParseStripped(t: string): (r: Option<int>)
    ensures r.Some? ==> |t| > 0 && IsDigit(t[|t| - 1])
  {
    var negative := |t| > 0 && t[0] == '-';
    var body := if |t| > 0 && (t[0] == '-' || t[0] == '+') then t[1..] else t;
    if !Grouped(body) || |Ungroup(body)| > MaxStrDigits then None
    else
      assert t[|t| - 1] == body[|body| - 1];
      var v: int := ValueOf(Ungroup(body));
      Some(if negative then -v else v)
  }

  /** `int(s)` for a Python `str`: surrounding whitespace, then a signed grouped decimal;
      anything else raises `ValueError`, here `None`. */
  function ParseInt(s: string): (r: Option<int>)
    ensures r.Some? ==> exists k :: 0 <= k < |s| && IsDigit(s[k])
  {
    var t := Text.Strip(s);
    var r := ParseStripped(t);
    if r.Some? then
      Text.StripInfix(s);
      assert s[|s| - |Text.LStrip(s)| + |t| - 1] == t[|t| - 1];
      r
    else r
  }

  lemma DigitsGrouped(s: string)
    requires |s| > 0 && AllDigits(s)
    ensures Grouped(s) && Ungroup(s) == s
  {
  }

  /** A run of digits parses as its value, unless it is longer than the digit limit. */
  lemma ParseDigits(d: string)
    requires |d| > 0 && AllDigits(d)
    ensures ParseInt(d) == if |d| <= MaxStrDigits then Some(ValueOf(d) as int) else None
  {
    assert !Text.IsSpace(d[0]) && !Text.IsSpace(d[|d| - 1]);
    Text.StripFixesStripped(d);
    UnsignedDigits(d);
  }

  lemma UnsignedDigits(d: string)
    requires |d| > 0 && AllDigits(d)
    ensures ParseStripped(d) == if |d| <= MaxStrDigits then Some(ValueOf(d) as int) else None
  {
    assert d[0] != '+' && d[0] != '-';
    DigitsGrouped(d);
  }

  lemma SignedDigits(s: string, d: string)
    requires |d| > 0 && AllDigits(d)
    requires |s| > 0 && s[0] == '-' && s[1..] == d
    ensures ParseStripped(s) == if |d| <= MaxStrDigits then Some(-(ValueOf(d) as int)) else None
  {
    DigitsGrouped(d);
  }

  /** A minus sign followed by digits parses as the negated value, unless the digits are too many. */
  lemma ParseNegated(s: string, d: string, n: int)
    requires |d| > 0 && AllDigits(d) && ValueOf(d) == n
    requires |s| > 0 && s[0] == '-' && s[1..] == d
    ensures ParseInt(s) == if |d| <= MaxStrDigits then Some(-n) else None
  {
    assert s[|s| - 1] == d[|d| - 1];
    Text.StripFixesStripped(s);
    SignedDigits(s, d);
  }

  /** The number of decimal digits of `i`, its sign not counted. */
  function DigitCount(i: int): nat {
    if i < 0 then |Digits(-i)| else |Digits(i)|
  }

  /** `int(str(i)) == i`: the decimal spelling of an integer reads back as that integer, as long
      as it has no more digits than `int()` accepts. */
  lemma DecimalRoundTrip(i: int)
    ensures ParseInt(IntToDecimal(i)) == if DigitCount(i) <= MaxStrDigits then Some(i) else None
  {
    if i < 0 {
      NegativeReadBack(i);
    } else {
      NaturalReadBack(i);
    }
  }

  /** The round trip for an integer that is not negative. */
  lemma NaturalReadBack(i: int)
    requires i >= 0
    ensures ParseInt(IntToDecimal(i)) == if DigitCount(i) <= MaxStrDigits then Some(i) else None
  {
    DigitsValue(i);
    ParseDigits(IntToDecimal(i));
  }

  /** The round trip for a negative integer: the sign, then the digits of its magnitude. */
  lemma NegativeReadBack(i: int)
    requires i < 0
    ensures ParseInt(IntToDecimal(i)) == if DigitCount(i) <= MaxStrDigits then Some(i) else None
  {
    var r := IntToDecimal(i);
    var d := Digits(-i);
    DigitsValue(-i);
    assert r[1..] == d;
    ParseNegated(r, d, -i);
  }
}
