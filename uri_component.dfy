/**
 * `encodeURIComponent`: every character outside its unreserved set
 * becomes the percent-encoded bytes of its UTF-8 form, with upper-case
 * hexadecimal digits.
 */
module UriComponent {

  /** The characters `encodeURIComponent` leaves as they are. */
  predicate IsUnreserved(c: char) {
    ('A' <= c <= 'Z') || ('a' <= c <= 'z') || ('0' <= c <= '9') ||
    c == '-' || c == '_' || c == '.' || c == '!' || c == '~' || c == '*' || c == '\'' || c == '(' || c == ')'
  }

  function HexDigit(d: nat): (c: char)
    requires d < 16
    ensures IsUnreserved(c)
  {
    if d < 10 then ('0' as int + d) as char else ('A' as int + d - 10) as char
  }

  predicate IsHexDigit(c: char) {
    ('0' <= c <= '9') || ('A' <= c <= 'F') || ('a' <= c <= 'f')
  }

  function HexValue(c: char): nat
    requires IsHexDigit(c)
  {
    if '0' <= c <= '9' then c as int - '0' as int
    else if 'A' <= c <= 'F' then c as int - 'A' as int + 10
    else c as int - 'a' as int + 10
  }

  lemma HexDigitValue(d: nat)
    requires d < 16
    ensures IsHexDigit(HexDigit(d)) && HexValue(HexDigit(d)) == d
  {
  }

  /** The UTF-8 bytes of a Unicode scalar value. */
  function Utf8(c: char): (bytes: seq<nat>)
    ensures 1 <= |bytes| <= 4
    ensures forall i :: 0 <= i < |bytes| ==> bytes[i] < 256
    ensures c as int < 0x80 <==> |bytes| == 1
    ensures c as int < 0x80 ==> bytes == [c as int]
  {
    var cp := c as int;
    if cp < 0x80 then [cp]
    else if cp < 0x800 then [0xC0 + cp / 64, 0x80 + cp % 64]
    else if cp < 0x10000 then [0xE0 + cp / 4096, 0x80 + (cp / 64) % 64, 0x80 + cp % 64]
    else [0xF0 + cp / 262144, 0x80 + (cp / 4096) % 64, 0x80 + (cp / 64) % 64, 0x80 + cp % 64]
  }

  /** `%XY` for one byte. */
  function PercentByte(b: nat): (t: string)
    requires b < 256
    ensures |t| == 3 && t[0] == '%' && IsHexDigit(t[1]) && IsHexDigit(t[2])
    ensures HexValue(t[1]) * 16 + HexValue(t[2]) == b
  {
    HexDigitValue(b / 16);
    HexDigitValue(b % 16);
    ['%', HexDigit(b / 16), HexDigit(b % 16)]
  }

  function PercentBytes(bytes: seq<nat>): (t: string)
    requires forall i :: 0 <= i < |bytes| ==> bytes[i] < 256
    ensures |t| == 3 * |bytes|
    ensures forall i :: 0 <= i < |t| ==> t[i] == '%' || IsUnreserved(t[i])
    decreases |bytes|
  {
    if |bytes| == 0 then "" else PercentByte(bytes[0]) + PercentBytes(bytes[1..])
  }

  function EncodeChar(c: char): (t: string)
    ensures IsUnreserved(c) ==> t == [c]
    ensures forall i :: 0 <= i < |t| ==> t[i] == '%' || IsUnreserved(t[i])
  {
    if IsUnreserved(c) then [c] else PercentBytes(Utf8(c))
  }

  /** `encodeURIComponent(s)`: only unreserved characters and '%' come out. */
  function Encode(s: string): (t: string)
    ensures forall i :: 0 <= i < |t| ==> t[i] == '%' || IsUnreserved(t[i])
    decreases |s|
  {
    if |s| == 0 then "" else EncodeChar(s[0]) + Encode(s[1..])
  }

  /** None of the URI delimiters survives encoding. */
  lemma EncodedHasNoDelimiters(s: string)
    ensures '&' !in Encode(s) && '=' !in Encode(s) && '?' !in Encode(s) && '#' !in Encode(s) && ' ' !in Encode(s)
  {
    var t := Encode(s);
    forall i | 0 <= i < |t|
      ensures t[i] !in "&=?# "
    {
      EncodedCharNotDelimiter(t[i]);
    }
  }

  lemma EncodedCharNotDelimiter(c: char)
    requires c == '%' || IsUnreserved(c)
    ensures c !in "&=?# "
  {
  }

  /** `decodeURIComponent` for text whose escapes stand for single bytes below 0x80. */
  function DecodeAscii(t: string): string
    decreases |t|
  {
    if |t| == 0 then ""
    else if t[0] == '%' && |t| >= 3 && IsHexDigit(t[1]) && IsHexDigit(t[2]) then
      [(HexValue(t[1]) * 16 + HexValue(t[2])) as char] + DecodeAscii(t[3..])
    else [t[0]] + DecodeAscii(t[1..])
  }

  predicate IsAscii(s: string) {
    forall i :: 0 <= i < |s| ==> s[i] as int < 0x80
  }

  /** Decoding gives back ASCII text: the encoding loses nothing. */
  lemma {:induction false} DecodeEncodeAscii(s: string)
    requires IsAscii(s)
    ensures DecodeAscii(Encode(s)) == s
    decreases |s|
  {
    if |s| > 0 {
      DecodeEncodeAscii(s[1..]);
      DecodeEncodedChar(s[0], Encode(s[1..]));
      assert [s[0]] + s[1..] == s;
    }
  }

  /** Decoding one encoded ASCII character gives it back and continues after its encoding. */
  lemma DecodeEncodedChar(c: char, rest: string)
    requires c as int < 0x80
    ensures DecodeAscii(EncodeChar(c) + rest) == [c] + DecodeAscii(rest)
  {
    if IsUnreserved(c) {
      assert ([c] + rest)[1..] == rest;
    } else {
      DecodeEscapedChar(c, rest);
    }
  }

  lemma DecodeEscapedChar(c: char, rest: string)
    requires c as int < 0x80 && !IsUnreserved(c)
    ensures DecodeAscii(EncodeChar(c) + rest) == [c] + DecodeAscii(rest)
  {
    var p := PercentByte(c as int);
    assert Utf8(c) == [c as int];
    assert PercentBytes([c as int]) == p + "";
    assert EncodeChar(c) == p;
    assert (p + rest)[3..] == rest;
    assert (p + rest)[0] == '%' && (p + rest)[1] == p[1] && (p + rest)[2] == p[2];
  }

  /**
   * A header value of section 2 of RFC 6068: characters allowed as they
   * are, and '%' only as the start of a two-digit escape.
   */
  predicate IsHfvalue(t: string)
    decreases |t|
  {
    if |t| == 0 then true
    else if t[0] == '%' then |t| >= 3 && IsHexDigit(t[1]) && IsHexDigit(t[2]) && IsHfvalue(t[3..])
    else IsQcharPlain(t[0]) && IsHfvalue(t[1..])
  }

  /** `unreserved` and `some-delims` of RFC 6068. */
  predicate IsQcharPlain(c: char) {
    ('A' <= c <= 'Z') || ('a' <= c <= 'z') || ('0' <= c <= '9') ||
    c == '-' || c == '.' || c == '_' || c == '~' ||
    c == '!' || c == '$' || c == '\'' || c == '(' || c == ')' || c == '*' || c == '+' || c == ',' || c == ';' || c == ':' || c == '@'
  }

  lemma {:induction false} HfvalueConcat(a: string, b: string)
    requires IsHfvalue(a) && IsHfvalue(b)
    ensures IsHfvalue(a + b)
    decreases |a|
  {
    if |a| == 0 {
      assert a + b == b;
    } else if a[0] == '%' {
      HfvalueConcat(a[3..], b);
      EscapeThenHfvalue(a, a[3..] + b, b);
    } else {
      HfvalueConcat(a[1..], b);
      PlainThenHfvalue(a, a[1..] + b, b);
    }
  }

  lemma EscapeThenHfvalue(a: string, tail: string, b: string)
    requires |a| >= 3 && a[0] == '%' && IsHexDigit(a[1]) && IsHexDigit(a[2])
    requires tail == a[3..] + b && IsHfvalue(tail)
    ensures IsHfvalue(a + b)
  {
    assert (a + b)[3..] == tail;
    assert (a + b)[..3] == a[..3];
  }

  lemma PlainThenHfvalue(a: string, tail: string, b: string)
    requires |a| >= 1 && a[0] != '%' && IsQcharPlain(a[0])
    requires tail == a[1..] + b && IsHfvalue(tail)
    ensures IsHfvalue(a + b)
  {
    assert (a + b)[1..] == tail;
    assert (a + b)[0] == a[0];
  }

  /** Escaped bytes form a header value. */
  lemma {:induction false} PercentBytesHfvalue(bytes: seq<nat>)
    requires forall i :: 0 <= i < |bytes| ==> bytes[i] < 256
    ensures IsHfvalue(PercentBytes(bytes))
    decreases |bytes|
  {
    if |bytes| > 0 {
      PercentBytesHfvalue(bytes[1..]);
      var p := PercentByte(bytes[0]);
      var rest := PercentBytes(bytes[1..]);
      assert p[3..] + rest == rest;
      EscapeThenHfvalue(p, rest, rest);
    }
  }

  /** Encoded text is a well-formed RFC 6068 header value. */
  lemma {:induction false} EncodeIsHfvalue(s: string)
    ensures IsHfvalue(Encode(s))
    decreases |s|
  {
    if |s| > 0 {
      EncodeIsHfvalue(s[1..]);
      if !IsUnreserved(s[0]) {
        PercentBytesHfvalue(Utf8(s[0]));
      }
      HfvalueConcat(EncodeChar(s[0]), Encode(s[1..]));
    }
  }
}
