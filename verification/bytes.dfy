/**
 Python `bytes`, and `str.encode` for text that is pure ASCII, which is all the
 licensing tools ever encode: the output of `json.dumps` with `ensure_ascii`.
 */
module Bytes {
  import Text

  newtype byte = x: int | 0 <= x < 256

  /** `s.encode("utf-8")` (equally `"ascii"`) for ASCII text: one byte per character. */
  function AsciiBytes(s: string): (r: seq<byte>)
    requires Text.IsAscii(s)
    ensures |r| == |s|
    ensures forall k :: 0 <= k < |s| ==> r[k] as int == s[k] as int
  {
    seq(|s|, k requires 0 <= k < |s| => s[k] as int as byte)
  }

  /** `b.decode("ascii")` for bytes below 128. */
  function AsciiText(b: seq<byte>): (r: string)
    requires forall k :: 0 <= k < |b| ==> b[k] < 128
    ensures |r| == |b|
    ensures forall k :: 0 <= k < |b| ==> r[k] as int == b[k] as int
  {
    seq(|b|, k requires 0 <= k < |b| => b[k] as int as char)
  }

  /** Decoding the encoded text gives the text back, so the encoding loses nothing. */
  lemma AsciiRoundTrip(s: string)
    requires Text.IsAscii(s)
    ensures AsciiText(AsciiBytes(s)) == s
  {
    var r := AsciiText(AsciiBytes(s));
    assert forall k :: 0 <= k < |s| ==> r[k] == s[k];
  }
}
