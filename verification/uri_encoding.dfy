/**
 * `encodeURIComponent`, which the badge lookup applies to the badge id before placing it in
 * the query string: unreserved characters are kept, every other character is replaced by the
 * percent-escaped bytes of its UTF-8 encoding, in upper-case hexadecimal.
 */
module UriEncoding {

  /** The characters `encodeURIComponent` leaves as they are. */
  predicate Unreserved(c: char) {
    ('A' <= c <= 'Z') || ('a' <= c <= 'z') || ('0' <= c <= '9')
    || c == '-' || c == '_' || c == '.' || c == '!' || c == '~' || c == '*' || c == '\'' || c == '(' || c == ')'
  }

  /** The characters an encoded component can contain. */
  predicate QuerySafe(c: char) {
    Unreserved(c) || c == '%'
  }

  function HexDigit(d: nat): (c: char)
    requires d < 16
    ensures Unreserved(c)
  {
    "0123456789ABCDEF"[d]
  }

  /** The UTF-8 encoding of one code point. */
  function Utf8(c: char): (bytes: seq<nat>)
    ensures 1 <= |bytes| <= 4
    ensures forall i :: 0 <= i < |bytes| ==> bytes[i] < 0x100
  {
    var cp := c as int;
    if cp < 0x80 then [cp]
    else if cp < 0x800 then [0xC0 + cp / 0x40, 0x80 + cp % 0x40]
    else if cp < 0x10000 then [0xE0 + cp / 0x1000, 0x80 + (cp / 0x40) % 0x40, 0x80 + cp % 0x40]
    else [0xF0 + cp / 0x40000, 0x80 + (cp / 0x1000) % 0x40, 0x80 + (cp / 0x40) % 0x40, 0x80 + cp % 0x40]
  }

  /** `%XY` for one byte. */
  function PercentEscape(b: nat): (e: string)
    requires b < 0x100
    ensures |e| == 3 && e[0] == '%' && Unreserved(e[1]) && Unreserved(e[2])
  {
    ['%', HexDigit(b / 16), HexDigit(b % 16)]
  }

  function PercentEscapes(bytes: seq<nat>): (e: string)
    requires forall i :: 0 <= i < |bytes| ==> bytes[i] < 0x100
    ensures |e| == 3 * |bytes|
    ensures forall i :: 0 <= i < |e| ==> QuerySafe(e[i])
  {
    if bytes == [] then [] else PercentEscape(bytes[0]) + PercentEscapes(bytes[1..])
  }

  /** `encodeURIComponent(s)`. */
  function EncodeURIComponent(s: string): (e: string)
    ensures forall i :: 0 <= i < |e| ==> QuerySafe(e[i])
    ensures |e| >= |s|
  {
    if s == [] then []
    else
      (if Unreserved(s[0]) then [s[0]] else PercentEscapes(Utf8(s[0])))
      + EncodeURIComponent(s[1..])
  }

  /** A string of unreserved characters, such as a UUID, is passed through unchanged. */
  lemma {:induction false} EncodeUnreservedIsIdentity(s: string)
    requires forall i :: 0 <= i < |s| ==> Unreserved(s[i])
    ensures EncodeURIComponent(s) == s
  {
    if s != [] {
      EncodeUnreservedIsIdentity(s[1..]);
    }
  }

  /** No encoded component can end the query value or start another parameter. */
  lemma EncodedHasNoQueryDelimiters(s: string)
    ensures var e := EncodeURIComponent(s);
      '&' !in e && '=' !in e && '#' !in e && '+' !in e && ' ' !in e && '?' !in e
  {
    var e := EncodeURIComponent(s);
    forall i | 0 <= i < |e|
      ensures e[i] != '&' && e[i] != '=' && e[i] != '#' && e[i] != '+' && e[i] != ' ' && e[i] != '?'
    {
      assert QuerySafe(e[i]);
    }
  }
}
