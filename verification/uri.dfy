/** `encodeURIComponent` and `decodeURIComponent` (ECMA-262, section 19.2.6). */
module UriComponent {
  import opened Wrappers
  import Text

  /** The characters `encodeURIComponent` leaves as they are. */
  predicate Unreserved(c: char) {
    || ('A' <= c <= 'Z') || ('a' <= c <= 'z') || ('0' <= c <= '9')
    || c == '-' || c == '_' || c == '.' || c == '!' || c == '~' || c == '*'
    || c == '\'' || c == '(' || c == ')'
  }

  /** A character that can appear in encoded text. */
  predicate IsEncodedChar(c: char) { Unreserved(c) || c == '%' }

  predicate IsAscii(s: string) { forall i :: 0 <= i < |s| ==> s[i] as int < 128 }

  /** Upper-case hexadecimal digit, as `encodeURIComponent` writes them. */
  function HexDigit(d: int): (c: char)
    requires 0 <= d < 16
    ensures Unreserved(c)
  {
    if d < 10 then ('0' as int + d) as char else ('A' as int + d - 10) as char
  }

  /** The value of a hexadecimal digit of either case, or -1. */
  function HexValue(c: char): (v: int)
    ensures -1 <= v < 16
  {
    if '0' <= c <= '9' then c as int - '0' as int
    else if 'A' <= c <= 'F' then c as int - 'A' as int + 10
    else if 'a' <= c <= 'f' then c as int - 'a' as int + 10
    else -1
  }

  lemma HexRoundTrip(d: int)
    requires 0 <= d < 16
    ensures HexValue(HexDigit(d)) == d
  {
  }

  /** The UTF-8 bytes of a Unicode scalar value. */
  function Utf8(c: char): (bytes: seq<int>)
    ensures 1 <= |bytes| <= 4
    ensures forall i :: 0 <= i < |bytes| ==> 0 <= bytes[i] < 256
    ensures c as int < 128 <==> bytes == [c as int]
  {
    var n := c as int;
    if n < 0x80 then [n]
    else if n < 0x800 then [0xC0 + n / 64, 0x80 + n % 64]
    else if n < 0x10000 then [0xE0 + n / 4096, 0x80 + (n / 64) % 64, 0x80 + n % 64]
    else [0xF0 + n / 262144, 0x80 + (n / 4096) % 64, 0x80 + (n / 64) % 64, 0x80 + n % 64]
  }

  /** `%XY` for each byte. */
  function Escape(bytes: seq<int>): (r: string)
    requires forall i :: 0 <= i < |bytes| ==> 0 <= bytes[i] < 256
    ensures |r| == 3 * |bytes|
    ensures forall i :: 0 <= i < |r| ==> IsEncodedChar(r[i])
  {
    if |bytes| == 0 then ""
    else ['%', HexDigit(bytes[0] / 16), HexDigit(bytes[0] % 16)] + Escape(bytes[1..])
  }

  function EncodeChar(c: char): (r: string)
    ensures |r| > 0
    ensures forall i :: 0 <= i < |r| ==> IsEncodedChar(r[i])
  {
    if Unreserved(c) then [c] else Escape(Utf8(c))
  }

  /** `encodeURIComponent(s)`. */
  function Encode(s: string): (r: string)
    ensures |r| == 0 <==> |s| == 0
    ensures forall i :: 0 <= i < |r| ==> IsEncodedChar(r[i])
  {
    if |s| == 0 then "" else EncodeChar(s[0]) + Encode(s[1..])
  }

  /** `decodeURIComponent(s)`, `None` where it throws `URIError`: a `%` not followed by two
      hexadecimal digits. Escapes of bytes from 0x80 up (multi-byte UTF-8) are also `None`. */
  function Decode(s: string): (r: Option<string>)
    ensures r.Some? ==> (|r.value| == 0 <==> |s| == 0)
  {
    if |s| == 0 then Some("")
    else if s[0] != '%' then
      match Decode(s[1..])
      case None => None
      case Some(t) => Some([s[0]] + t)
    else if |s| < 3 then None
    else
      var v := HexValue(s[1]) * 16 + HexValue(s[2]);
      if HexValue(s[1]) < 0 || HexValue(s[2]) < 0 || v >= 128 then None
      else
        match Decode(s[3..])
        case None => None
        case Some(t) => Some([v as char] + t)
  }

  /** Encoded text holds no cookie delimiter and no whitespace. */
  lemma EncodedHasNoDelimiters(s: string)
    ensures ';' !in Encode(s) && '=' !in Encode(s) && ',' !in Encode(s)
    ensures forall i :: 0 <= i < |Encode(s)| ==> !Text.IsWhitespace(Encode(s)[i])
  {
    var e := Encode(s);
    forall i | 0 <= i < |e|
      ensures e[i] != ';' && e[i] != '=' && e[i] != ',' && !Text.IsWhitespace(e[i])
    {
      EncodedCharIsPlain(e[i]);
    }
  }

  /** No character of encoded text is a cookie delimiter or whitespace. */
  lemma EncodedCharIsPlain(c: char)
    requires IsEncodedChar(c)
    ensures c != ';' && c != '=' && c != ',' && !Text.IsWhitespace(c)
  {
  }

  /** Decoding undoes encoding, for ASCII text. */
  lemma {:induction false} DecodeEncode(s: string)
    requires IsAscii(s)
    ensures Decode(Encode(s)) == Some(s)
  {
    if |s| > 0 {
      var c := s[0];
      assert IsAscii(s[1..]);
      DecodeEncode(s[1..]);
      assert Encode(s) == EncodeChar(c) + Encode(s[1..]);
      if Unreserved(c) {
        DecodePlain(c, Encode(s[1..]));
      } else {
        DecodeEscaped(c, Encode(s[1..]));
      }
      assert [c] + s[1..] == s;
    }
  }

  /** An unreserved character decodes to itself, in front of whatever the rest decodes to. */
  lemma DecodePlain(c: char, rest: string)
    requires Unreserved(c)
    ensures Decode(EncodeChar(c) + rest) == match Decode(rest)
                                            case None => None
                                            case Some(t) => Some([c] + t)
  {
    assert EncodeChar(c) + rest == [c] + rest;
    assert ([c] + rest)[1..] == rest;
  }

  /** The escape of an ASCII character decodes to the character, in front of whatever the
      rest decodes to. */
  lemma DecodeEscaped(c: char, rest: string)
    requires c as int < 128 && !Unreserved(c)
    ensures Decode(EncodeChar(c) + rest) == match Decode(rest)
                                            case None => None
                                            case Some(t) => Some([c] + t)
  {
    var e := EncodeChar(c) + rest;
    assert Utf8(c) == [c as int];
    assert EncodeChar(c) == ['%', HexDigit(c as int / 16), HexDigit(c as int % 16)];
    HexRoundTrip(c as int / 16);
    HexRoundTrip(c as int % 16);
    assert e[0] == '%' && e[3..] == rest;
    assert HexValue(e[1]) * 16 + HexValue(e[2]) == c as int;
    assert (c as int) as char == c;
  }
}
