/**
 * The two text encodings the response code uses: `str.encode("latin-1")`
 * (ISO/IEC 8859-1, which raises for code points above 255) and
 * `str.encode("utf-8")` (RFC 3629).
 */
module Encoding {
  import opened Base

  predicate IsLatin1(s: string)
  {
    forall i :: 0 <= i < |s| ==> s[i] as int < 256
  }

  predicate IsAscii(s: string)
  {
    forall i :: 0 <= i < |s| ==> s[i] as int < 128
  }

  /** `s.encode("latin-1")`: None where Python raises UnicodeEncodeError. */
  function Latin1(s: string): (r: Option<seq<byte>>)
    ensures r.Some? <==> IsLatin1(s)
    ensures r.Some? ==> |r.value| == |s| && forall i :: 0 <= i < |s| ==> r.value[i] as int == s[i] as int
  {
    if IsLatin1(s) then Some(seq(|s|, i requires 0 <= i < |s| && IsLatin1(s) => s[i] as int as byte)) else None
  }

  /** The Latin-1 byte string decodes back to the text it was encoded from. */
  function Latin1Decode(b: seq<byte>): (s: string)
    ensures |s| == |b| && IsLatin1(s)
  {
    seq(|b|, i requires 0 <= i < |b| => b[i] as int as char)
  }

  lemma Latin1RoundTrip(s: string)
    requires IsLatin1(s)
    ensures Latin1Decode(Latin1(s).value) == s
  {
  }

  /** The UTF-8 encoding of one Unicode scalar value. */
  function Utf8Char(c: char): (r: seq<byte>)
    ensures 1 <= |r| <= 4
    ensures |r| == 1 <==> c as int < 128
    ensures |r| == 1 ==> r[0] as int == c as int
  {
    var n := c as int;
    if n < 0x80 then [n as byte]
    else if n < 0x800 then [(0xC0 + n / 0x40) as byte, (0x80 + n % 0x40) as byte]
    else if n < 0x10000 then
      [(0xE0 + n / 0x1000) as byte, (0x80 + (n / 0x40) % 0x40) as byte, (0x80 + n % 0x40) as byte]
    else
      [(0xF0 + n / 0x40000) as byte, (0x80 + (n / 0x1000) % 0x40) as byte,
       (0x80 + (n / 0x40) % 0x40) as byte, (0x80 + n % 0x40) as byte]
  }

  /** `s.encode("utf-8")`. */
  function Utf8(s: string): (r: seq<byte>)
    ensures |s| <= |r| <= 4 * |s|
  {
    if s == [] then [] else Utf8Char(s[0]) + Utf8(s[1..])
  }

  /** ASCII text encodes byte for byte, in UTF-8 and in Latin-1 alike. */
  lemma {:induction false} AsciiUtf8(s: string)
    requires IsAscii(s)
    ensures Utf8(s) == Latin1(s).value
    decreases |s|
  {
    if s != [] {
      AsciiUtf8(s[1..]);
      var tail := Latin1(s[1..]).value;
      assert Latin1(s).value == [Latin1(s).value[0]] + tail;
    }
  }

  /** UTF-8 keeps the length exactly when the text is ASCII. */
  lemma {:induction false} Utf8LengthIsCharCountOnlyForAscii(s: string)
    ensures |Utf8(s)| == |s| <==> IsAscii(s)
    decreases |s|
  {
    if s != [] {
      Utf8LengthIsCharCountOnlyForAscii(s[1..]);
      assert IsAscii(s) <==> s[0] as int < 128 && IsAscii(s[1..]) by {
        if IsAscii(s) {
          forall i | 0 <= i < |s[1..]| ensures s[1..][i] as int < 128 { assert s[1..][i] == s[i + 1]; }
        }
        if s[0] as int < 128 && IsAscii(s[1..]) {
          forall i | 0 <= i < |s| ensures s[i] as int < 128 { if i > 0 { assert s[i] == s[1..][i - 1]; } }
        }
      }
    }
  }
}
