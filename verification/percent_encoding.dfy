/**
 * Percent-encoding as in section 2.1 of RFC 3986: the script side escapes
 * with `encodeURIComponent`, the host side unescapes query values with
 * `Uri.UnescapeDataString`.
 *
 * The decoder here decodes only escapes of ASCII octets (`%00`..`%7F`);
 * an escape of a higher octet, or a '%' not followed by two hex digits,
 * is left in the text unchanged, as `UnescapeDataString` does with escapes
 * it cannot decode.
 */
module PercentEncoding {

  /** The characters `encodeURIComponent` leaves alone. */
  predicate IsUnreservedMark(c: char) {
    ('A' <= c <= 'Z') || ('a' <= c <= 'z') || ('0' <= c <= '9')
    || c == '-' || c == '_' || c == '.' || c == '!' || c == '~' || c == '*'
    || c == '\'' || c == '(' || c == ')'
  }

  function HexDigit(d: nat): (c: char)
    requires d < 16
    ensures IsUnreservedMark(c)
  {
    "0123456789ABCDEF"[d]
  }

  /** The value of a hexadecimal digit of either case, or -1. */
  function HexValue(c: char): (v: int)
    ensures -1 <= v < 16
  {
    if '0' <= c <= '9' then c as int - '0' as int
    else if 'A' <= c <= 'F' then c as int - 'A' as int + 10
    else if 'a' <= c <= 'f' then c as int - 'a' as int + 10
    else -1
  }

  lemma HexValueOfDigit(d: nat)
    requires d < 16
    ensures HexValue(HexDigit(d)) == d
  {
  }

  /** "%HH" for one octet, upper-case hex. */
  function EscapeOctet(b: nat): (r: string)
    requires b < 256
    ensures |r| == 3 && r[0] == '%'
    ensures forall i :: 0 <= i < |r| ==> IsUnreservedMark(r[i]) || r[i] == '%'
  {
    ['%', HexDigit(b / 16), HexDigit(b % 16)]
  }

  /** The UTF-8 encoding of one Unicode scalar value. */
  function Utf8(c: char): (bytes: seq<nat>)
    ensures 1 <= |bytes| <= 4
    ensures forall i :: 0 <= i < |bytes| ==> bytes[i] < 256
    ensures |bytes| == 1 <==> c as int < 0x80
    ensures |bytes| == 1 ==> bytes[0] == c as int
  {
    var cp := c as int;
    if cp < 0x80 then [cp]
    else if cp < 0x800 then [0xC0 + cp / 64, 0x80 + cp % 64]
    else if cp < 0x1_0000 then [0xE0 + cp / 4096, 0x80 + (cp / 64) % 64, 0x80 + cp % 64]
    else [0xF0 + cp / 262144, 0x80 + (cp / 4096) % 64, 0x80 + (cp / 64) % 64, 0x80 + cp % 64]
  }

  function EscapeOctets(bytes: seq<nat>): (r: string)
    requires forall i :: 0 <= i < |bytes| ==> bytes[i] < 256
    ensures |r| == 3 * |bytes|
    ensures forall i :: 0 <= i < |r| ==> IsUnreservedMark(r[i]) || r[i] == '%'
  {
    if |bytes| == 0 then "" else EscapeOctet(bytes[0]) + EscapeOctets(bytes[1..])
  }

  function EncodeChar(c: char): (r: string)
    ensures forall i :: 0 <= i < |r| ==> IsUnreservedMark(r[i]) || r[i] == '%'
  {
    if IsUnreservedMark(c) then [c] else EscapeOctets(Utf8(c))
  }

  /** `encodeURIComponent`. */
  function EncodeUriComponent(s: string): (r: string)
    ensures forall i :: 0 <= i < |r| ==> IsUnreservedMark(r[i]) || r[i] == '%'
  {
    if |s| == 0 then "" else EncodeChar(s[0]) + EncodeUriComponent(s[1..])
  }

  /** `Uri.UnescapeDataString`, decoding ASCII escapes only. */
  function UnescapeDataString(s: string): (r: string)
    ensures |r| <= |s|
    decreases |s|
  {
    if |s| == 0 then ""
    else if s[0] == '%' && |s| >= 3 && HexValue(s[1]) >= 0 && HexValue(s[2]) >= 0
            && HexValue(s[1]) * 16 + HexValue(s[2]) < 0x80 then
      [(HexValue(s[1]) * 16 + HexValue(s[2])) as char] + UnescapeDataString(s[3..])
    else [s[0]] + UnescapeDataString(s[1..])
  }

  predicate IsAscii(s: string) {
    forall i :: 0 <= i < |s| ==> s[i] as int < 0x80
  }

  /** Text without '%' has nothing to unescape. */
  lemma {:induction false} UnescapeWithoutPercent(s: string)
    requires '%' !in s
    ensures UnescapeDataString(s) == s
    decreases |s|
  {
    if |s| > 0 {
      assert s[0] != '%';
      assert '%' !in s[1..];
      UnescapeWithoutPercent(s[1..]);
    }
  }

  /** Unescaping undoes the escape of one ASCII character. */
  lemma UnescapeEncodedChar(c: char, rest: string)
    requires c as int < 0x80
    ensures UnescapeDataString(EncodeChar(c) + rest) == [c] + UnescapeDataString(rest)
  {
    var s := EncodeChar(c) + rest;
    if IsUnreservedMark(c) {
      assert s[0] == c && s[1..] == rest;
    } else {
      var b := c as int;
      assert EncodeChar(c) == EscapeOctet(b) by {
        assert Utf8(c) == [b];
        assert EscapeOctets([b]) == EscapeOctet(b) + EscapeOctets([]);
      }
      HexValueOfDigit(b / 16);
      HexValueOfDigit(b % 16);
      assert s[1] == HexDigit(b / 16) && s[2] == HexDigit(b % 16);
      assert s[3..] == rest;
      assert (b / 16 * 16 + b % 16) as char == c;
    }
  }

  /** Decoding an encoded ASCII string gives it back. */
  lemma {:induction false} UnescapeEncodeRoundTrip(s: string)
    requires IsAscii(s)
    ensures UnescapeDataString(EncodeUriComponent(s)) == s
  {
    if |s| > 0 {
      UnescapeEncodedChar(s[0], EncodeUriComponent(s[1..]));
      assert IsAscii(s[1..]) by {
        forall i | 0 <= i < |s[1..]| ensures s[1..][i] as int < 0x80 {
          assert s[1..][i] == s[i + 1];
        }
      }
      UnescapeEncodeRoundTrip(s[1..]);
    }
  }

  /** The encoded text never contains the query-string delimiters. */
  lemma EncodedHasNoDelimiters(s: string)
    ensures '?' !in EncodeUriComponent(s)
    ensures '&' !in EncodeUriComponent(s)
    ensures '=' !in EncodeUriComponent(s)
  {
  }
}
