/**
 * `encodeURIComponent` and `decodeURIComponent` of ECMA-262 (section 19.2.6,
 * URI Handling Functions): percent-encoding of the UTF-8 octets of every code
 * point outside the unescaped set, with upper-case hexadecimal digits.
 *
 * Strings are sequences of Unicode scalar values, so the URIError that
 * `encodeURIComponent` raises on a lone surrogate cannot arise here.
 */
module Uri {
  import opened Wrappers

  newtype byte = x: int | 0 <= x < 256

  /**
   * The characters `encodeURIComponent` leaves alone (uriUnreserved of ECMA-262):
   * letters, decimal digits and the marks - _ . ! ~ * ' ( ).  These are the
   * unreserved characters of section 2.3 of RFC 3986 plus ! * ' ( ).
   */
  predicate IsUnreserved(c: char) {
    || ('A' <= c <= 'Z') || ('a' <= c <= 'z') || ('0' <= c <= '9')
    || c == '-' || c == '_' || c == '.' || c == '!' || c == '~'
    || c == '*' || c == '\'' || c == '(' || c == ')'
  }

  /** A hexadecimal digit in either case. */
  predicate IsHexDigit(c: char) {
    ('0' <= c <= '9') || ('a' <= c <= 'f') || ('A' <= c <= 'F')
  }

  function HexValue(c: char): (n: int)
    requires IsHexDigit(c)
    ensures 0 <= n < 16
  {
    if '0' <= c <= '9' then c as int - '0' as int
    else if 'a' <= c <= 'f' then c as int - 'a' as int + 10
    else c as int - 'A' as int + 10
  }

  /** The upper-case hexadecimal digit of a nibble; reading it back gives the nibble. */
  function HexDigit(n: int): (c: char)
    requires 0 <= n < 16
    ensures IsHexDigit(c) && IsUnreserved(c) && c != '%'
    ensures HexValue(c) == n
  {
    if n < 10 then ('0' as int + n) as char else ('A' as int + n - 10) as char
  }

  /**
   * The UTF-8 encoding of a code point (section 3.9 of the Unicode Standard):
   * one octet below U+0080, otherwise a lead octet announcing the length
   * followed by continuation octets 10xxxxxx.
   */
  function Utf8(c: char): (u: seq<byte>)
    ensures 1 <= |u| <= 4
    ensures |u| == 1 <==> c as int < 0x80
    ensures |u| == 1 ==> u[0] as int == c as int
    ensures |u| > 1 ==> LeadLength(u[0]) == |u|
    ensures forall j :: 1 <= j < |u| ==> IsContinuation(u[j])
  {
    var cp := c as int;
    var q1, r1 := cp / 64, cp % 64;
    var q2, r2 := q1 / 64, q1 % 64;
    var q3, r3 := q2 / 64, q2 % 64;
    if cp < 0x80 then [cp as byte]
    else if cp < 0x800 then [(0xC0 + q1) as byte, (0x80 + r1) as byte]
    else if cp < 0x10000 then [(0xE0 + q2) as byte, (0x80 + r2) as byte, (0x80 + r1) as byte]
    else [(0xF0 + q3) as byte, (0x80 + r3) as byte, (0x80 + r2) as byte, (0x80 + r1) as byte]
  }

  /** An octet of the form 10xxxxxx. */
  predicate IsContinuation(b: byte) {
    0x80 <= b < 0xC0
  }

  /** The number of leading one bits of an octet, capped at 5. */
  function LeadLength(b: byte): (n: nat)
    ensures n <= 5
  {
    if b < 0x80 then 0
    else if b < 0xC0 then 1
    else if b < 0xE0 then 2
    else if b < 0xF0 then 3
    else if b < 0xF8 then 4
    else 5
  }

  /** "%" followed by the two upper-case hexadecimal digits of the octet. */
  function Escape(b: byte): (e: string)
    ensures |e| == 3 && e[0] == '%'
  {
    ['%', HexDigit(b as int / 16), HexDigit(b as int % 16)]
  }

  function EscapeAll(u: seq<byte>): (e: string)
    ensures |e| == 3 * |u|
  {
    if u == [] then [] else Escape(u[0]) + EscapeAll(u[1..])
  }

  /** Escaped text consists of "%" and hexadecimal digits only. */
  lemma {:induction false} EscapeAllSafe(u: seq<byte>)
    ensures forall i :: 0 <= i < |EscapeAll(u)| ==> IsUnreserved(EscapeAll(u)[i]) || EscapeAll(u)[i] == '%'
  {
    if u != [] {
      EscapeAllSafe(u[1..]);
    }
  }

  /** The encoding of one code point: itself if unescaped, else its escaped UTF-8 octets. */
  function EncodeChar(c: char): (e: string)
    ensures forall i :: 0 <= i < |e| ==> IsUnreserved(e[i]) || e[i] == '%'
  {
    if IsUnreserved(c) then [c] else EscapeAllSafe(Utf8(c)); EscapeAll(Utf8(c))
  }

  /**
   * `encodeURIComponent(s)`.  The result is made of unescaped characters and
   * "%" only, so it never contains a delimiter such as "&", "=", "?", "#" or "/".
   */
  function EncodeURIComponent(s: string): (r: string)
    ensures forall i :: 0 <= i < |r| ==> IsUnreserved(r[i]) || r[i] == '%'
  {
    if s == [] then [] else EncodeChar(s[0]) + EncodeURIComponent(s[1..])
  }

  /** The octet written as "%XY" at index `k` of `t`, if there is one. */
  function ParseEscape(t: string, k: nat): Option<byte> {
    if k + 2 < |t| && t[k] == '%' && IsHexDigit(t[k + 1]) && IsHexDigit(t[k + 2])
    then Some((HexValue(t[k + 1]) * 16 + HexValue(t[k + 2])) as byte)
    else None
  }

  /**
   * The continuation octets of a multi-octet sequence: the escapes at indices
   * 3 * j for `j` from `j` up to `n`, each of the form 10xxxxxx.
   */
  function Continuations(t: string, j: nat, n: nat): (r: Option<seq<byte>>)
    requires j <= n
    ensures r.Some? ==> |r.value| == n - j && forall i :: 0 <= i < |r.value| ==> IsContinuation(r.value[i])
    decreases n - j
  {
    if j >= n then Some([])
    else match ParseEscape(t, 3 * j)
      case None => None
      case Some(b) =>
        if !IsContinuation(b) then None
        else match Continuations(t, j + 1, n)
          case None => None
          case Some(rest) => Some([b] + rest)
  }

  /**
   * The code point of a well-formed sequence of two to four octets whose lead
   * and continuation octets have the right form; none for an overlong form, a
   * surrogate or a value beyond U+10FFFF.
   */
  function DecodeOctets(u: seq<byte>): Option<char>
    requires 2 <= |u| <= 4 && LeadLength(u[0]) == |u|
    requires forall j :: 1 <= j < |u| ==> IsContinuation(u[j])
  {
    var cp :=
      if |u| == 2 then (u[0] as int - 0xC0) * 64 + (u[1] as int - 0x80)
      else if |u| == 3 then (u[0] as int - 0xE0) * 4096 + (u[1] as int - 0x80) * 64 + (u[2] as int - 0x80)
      else (u[0] as int - 0xF0) * 262144 + (u[1] as int - 0x80) * 4096 + (u[2] as int - 0x80) * 64 + (u[3] as int - 0x80);
    var least := if |u| == 2 then 0x80 else if |u| == 3 then 0x800 else 0x10000;
    if least <= cp <= 0x10FFFF && !(0xD800 <= cp <= 0xDFFF) then Some(cp as char) else None
  }

  function Prepend(c: char, r: Option<string>): Option<string> {
    match r
    case None => None
    case Some(s) => Some([c] + s)
  }

  /**
   * `decodeURIComponent(t)`; none where it throws URIError (a malformed escape,
   * a bad lead or continuation octet, a truncated or ill-formed sequence).
   */
  function DecodeURIComponent(t: string): Option<string>
    decreases |t|
  {
    if t == [] then Some([])
    else if t[0] != '%' then Prepend(t[0], DecodeURIComponent(t[1..]))
    else match ParseEscape(t, 0)
      case None => None
      case Some(b) =>
        if b < 0x80 then Prepend(b as int as char, DecodeURIComponent(t[3..]))
        else
          var n := LeadLength(b);
          if n == 1 || n > 4 || |t| < 3 * n then None
          else match Continuations(t, 1, n)
            case None => None
            case Some(rest) =>
              match DecodeOctets([b] + rest)
              case None => None
              case Some(c) => Prepend(c, DecodeURIComponent(t[3 * n..]))
  }

  // ---------------------------------------------------------------------------
  // Properties of the encoding

  /** Encoding works code point by code point, so it distributes over concatenation. */
  lemma {:induction false} EncodeConcat(a: string, b: string)
    ensures EncodeURIComponent(a + b) == EncodeURIComponent(a) + EncodeURIComponent(b)
  {
    if a == [] {
      assert a + b == b;
    } else {
      assert (a + b)[1..] == a[1..] + b;
      EncodeConcat(a[1..], b);
    }
  }

  /** A string of unescaped characters is its own encoding. */
  lemma {:induction false} EncodeUnreserved(s: string)
    requires forall i :: 0 <= i < |s| ==> IsUnreserved(s[i])
    ensures EncodeURIComponent(s) == s
  {
    if s != [] {
      EncodeUnreserved(s[1..]);
    }
  }

  /** The escape of octet `j` of `u` sits at index 3 * j of the escaped text. */
  lemma {:induction false} EscapeAllAt(u: seq<byte>, j: nat, m: nat)
    requires j < |u| && m < 3
    ensures EscapeAll(u)[3 * j + m] == Escape(u[j])[m]
  {
    if j > 0 {
      EscapeAllAt(u[1..], j - 1, m);
      assert EscapeAll(u) == Escape(u[0]) + EscapeAll(u[1..]);
    }
  }

  /** The three characters of the escape of octet `j`, seen through any suffix. */
  lemma EscapeAt(u: seq<byte>, rest: string, j: nat)
    requires j < |u|
    ensures 3 * j + 2 < |EscapeAll(u) + rest|
    ensures (EscapeAll(u) + rest)[3 * j] == '%'
    ensures (EscapeAll(u) + rest)[3 * j + 1] == HexDigit(u[j] as int / 16)
    ensures (EscapeAll(u) + rest)[3 * j + 2] == HexDigit(u[j] as int % 16)
  {
    EscapeAllAt(u, j, 0);
    EscapeAllAt(u, j, 1);
    EscapeAllAt(u, j, 2);
  }

  /** Every escape written by `EscapeAll` reads back as its octet. */
  lemma ParseEscapeAt(u: seq<byte>, rest: string, j: nat)
    requires j < |u|
    ensures ParseEscape(EscapeAll(u) + rest, 3 * j) == Some(u[j])
  {
    EscapeAt(u, rest, j);
    ParseEscapeOf(EscapeAll(u) + rest, 3 * j, u[j]);
  }

  /** An escape reads back as the octet it was written from. */
  lemma ParseEscapeOf(t: string, k: nat, b: byte)
    requires k + 2 < |t| && t[k] == '%'
    requires t[k + 1] == HexDigit(b as int / 16) && t[k + 2] == HexDigit(b as int % 16)
    ensures ParseEscape(t, k) == Some(b)
  {
  }

  lemma {:induction false} ContinuationsAt(u: seq<byte>, rest: string, j: nat)
    requires 1 <= j <= |u|
    requires forall i :: 1 <= i < |u| ==> IsContinuation(u[i])
    ensures Continuations(EscapeAll(u) + rest, j, |u|) == Some(u[j..])
    decreases |u| - j
  {
    if j < |u| {
      ParseEscapeAt(u, rest, j);
      ContinuationsAt(u, rest, j + 1);
      assert u[j..] == [u[j]] + u[j + 1..];
    }
  }

  /** Reading back the octets of a code point of two or more octets gives the code point. */
  lemma DecodeUtf8(c: char)
    requires c as int >= 0x80
    ensures DecodeOctets(Utf8(c)) == Some(c)
  {
  }

  /** Decoding the encoding of one code point, followed by anything, reads that code point first. */
  lemma DecodeEncodeChar(c: char, rest: string)
    ensures DecodeURIComponent(EncodeChar(c) + rest) == Prepend(c, DecodeURIComponent(rest))
  {
    var t := EncodeChar(c) + rest;
    if IsUnreserved(c) {
      assert t[0] == c && t[1..] == rest;
    } else if c as int < 0x80 {
      DecodeEscapedAscii(c, rest);
    } else {
      DecodeEscapedMultiOctet(c, rest);
    }
  }

  lemma DecodeEscapedAscii(c: char, rest: string)
    requires c as int < 0x80
    ensures DecodeURIComponent(EscapeAll(Utf8(c)) + rest) == Prepend(c, DecodeURIComponent(rest))
  {
    var u := Utf8(c);
    var t := EscapeAll(u) + rest;
    ParseEscapeAt(u, rest, 0);
    assert t[0] == '%';
    assert t[3..] == rest;
    assert u[0] < 0x80;
  }

  lemma DecodeEscapedMultiOctet(c: char, rest: string)
    requires c as int >= 0x80
    ensures DecodeURIComponent(EscapeAll(Utf8(c)) + rest) == Prepend(c, DecodeURIComponent(rest))
  {
    var u := Utf8(c);
    var n := |u|;
    var t := EscapeAll(u) + rest;
    ParseEscapeAt(u, rest, 0);
    assert t[0] == '%';
    assert t[3 * n..] == rest;
    ContinuationsAt(u, rest, 1);
    assert [u[0]] + u[1..] == u;
    DecodeUtf8(c);
  }

  /** `decodeURIComponent` undoes `encodeURIComponent`. */
  lemma {:induction false} DecodeEncode(s: string)
    ensures DecodeURIComponent(EncodeURIComponent(s)) == Some(s)
  {
    if s != [] {
      DecodeEncode(s[1..]);
      DecodeEncodeChar(s[0], EncodeURIComponent(s[1..]));
      assert [s[0]] + s[1..] == s;
    }
  }

  /** Distinct strings have distinct encodings. */
  lemma EncodeInjective(a: string, b: string)
    requires EncodeURIComponent(a) == EncodeURIComponent(b)
    ensures a == b
  {
    DecodeEncode(a);
    DecodeEncode(b);
  }
}
