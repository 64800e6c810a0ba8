/**
 * `encodeURIComponent`, which the HTTP client applies to the current path
 * before putting it into the `callbackUrl` query parameter. Every character
 * outside the unescaped set is replaced by the percent-escapes of its UTF-8
 * bytes, with upper-case hexadecimal digits, as section 2.1 of RFC 3986
 * describes. The unescaped set is the one the ECMAScript standard
 * (ECMA-262) gives `encodeURIComponent`: RFC 3986's unreserved characters
 * plus `! * ' ( )`, which RFC 3986 counts as reserved sub-delimiters.
 */
module UriComponent {
  import opened Wrappers

  type Byte = b: int | 0 <= b < 256

  /** The characters `encodeURIComponent` leaves as they are: `A-Z a-z 0-9 - _ . ! ~ * ' ( )`. */
  predicate IsUnreserved(c: char) {
    || ('A' <= c <= 'Z') || ('a' <= c <= 'z') || ('0' <= c <= '9')
    || c == '-' || c == '_' || c == '.' || c == '!' || c == '~' || c == '*' || c == '\'' || c == '(' || c == ')'
  }

  // ---------------------------------------------------------------------------
  // UTF-8
  // ---------------------------------------------------------------------------

  predicate IsContinuation(b: Byte) {
    0x80 <= b < 0xC0
  }

  /** The UTF-8 encoding of one Unicode scalar value. */
  function Utf8(c: char): (bs: seq<Byte>)
    ensures 1 <= |bs| <= 4
    ensures |bs| == 1 <==> c as int < 0x80
    ensures |bs| == 1 ==> bs[0] == c as int
    ensures forall i :: 1 <= i < |bs| ==> IsContinuation(bs[i])
  {
    var cp := c as int;
    if cp < 0x80 then [cp]
    else if cp < 0x800 then [0xC0 + cp / 64, 0x80 + cp % 64]
    else if cp < 0x1_0000 then [0xE0 + cp / 4096, 0x80 + (cp / 64) % 64, 0x80 + cp % 64]
    else [0xF0 + cp / 262144, 0x80 + (cp / 4096) % 64, 0x80 + (cp / 64) % 64, 0x80 + cp % 64]
  }

  function Utf8String(s: string): seq<Byte> {
    if s == [] then [] else Utf8(s[0]) + Utf8String(s[1..])
  }

  /** The character with code point `cp`, unless `cp` is a surrogate or out of range. */
  function CharOf(cp: int): (r: Option<char>)
    ensures r.Some? ==> r.value as int == cp
  {
    if 0 <= cp < 0xD800 || 0xE000 <= cp < 0x11_0000 then Some(cp as char) else None
  }

  function PrependChar(c: char, rest: Option<string>): Option<string> {
    match rest
    case None => None
    case Some(r) => Some([c] + r)
  }

  /** The number of bytes a UTF-8 sequence starting with `b0` has, or 0 for a byte that cannot start one. */
  function SequenceLength(b0: Byte): (n: nat)
    ensures n <= 4
  {
    if b0 < 0x80 then 1 else if 0xC2 <= b0 < 0xE0 then 2 else if 0xE0 <= b0 < 0xF0 then 3
    else if 0xF0 <= b0 < 0xF5 then 4 else 0
  }

  /** The first character of a UTF-8 byte sequence and the number of bytes it takes. */
  function DecodeFirst(bs: seq<Byte>): (r: Option<(char, nat)>)
    requires bs != []
    ensures r.Some? ==> 1 <= r.value.1 <= |bs|
  {
    var n := SequenceLength(bs[0]);
    if n == 0 || |bs| < n then None
    else if (n >= 2 && !IsContinuation(bs[1])) || (n >= 3 && !IsContinuation(bs[2]))
         || (n >= 4 && !IsContinuation(bs[3])) then None
    else
      var b0: int := bs[0];
      var cp: int :=
        if n == 1 then b0
        else if n == 2 then (b0 - 0xC0) * 64 + (bs[1] as int - 0x80)
        else if n == 3 then (b0 - 0xE0) * 4096 + (bs[1] as int - 0x80) * 64 + (bs[2] as int - 0x80)
        else (b0 - 0xF0) * 262144 + (bs[1] as int - 0x80) * 4096 + (bs[2] as int - 0x80) * 64 + (bs[3] as int - 0x80);
      match CharOf(cp)
      case None => None
      case Some(c) => Some((c, n))
  }

  /** Decodes a UTF-8 byte sequence; a truncated sequence or a stray byte is refused. */
  function Utf8Decode(bs: seq<Byte>): Option<string>
    decreases |bs|
  {
    if bs == [] then Some([])
    else match DecodeFirst(bs)
      case None => None
      case Some((c, n)) => PrependChar(c, Utf8Decode(bs[n..]))
  }

  lemma DecodeFirstTwo(c: char, rest: seq<Byte>)
    requires 0x80 <= c as int < 0x800
    ensures DecodeFirst(Utf8(c) + rest) == Some((c, 2))
  {
    var cp := c as int;
    var bs := Utf8(c) + rest;
    assert bs[0] == 0xC0 + cp / 64 && bs[1] == 0x80 + cp % 64;
  }

  lemma DecodeFirstThree(c: char, rest: seq<Byte>)
    requires 0x800 <= c as int < 0x1_0000
    ensures DecodeFirst(Utf8(c) + rest) == Some((c, 3))
  {
    var cp := c as int;
    var bs := Utf8(c) + rest;
    var q := cp / 64;
    assert cp / 4096 == q / 64;
    assert cp == 4096 * (q / 64) + 64 * (q % 64) + cp % 64;
    assert bs[0] == 0xE0 + q / 64 && bs[1] == 0x80 + q % 64 && bs[2] == 0x80 + cp % 64;
  }

  lemma DecodeFirstFour(c: char, rest: seq<Byte>)
    requires 0x1_0000 <= c as int
    ensures DecodeFirst(Utf8(c) + rest) == Some((c, 4))
  {
    var cp := c as int;
    var bs := Utf8(c) + rest;
    var q := cp / 64;
    var q2 := q / 64;
    assert cp / 4096 == q2 && cp / 262144 == q2 / 64;
    assert cp == 262144 * (q2 / 64) + 4096 * (q2 % 64) + 64 * (q % 64) + cp % 64;
    assert bs[0] == 0xF0 + q2 / 64 && bs[1] == 0x80 + q2 % 64;
    assert bs[2] == 0x80 + q % 64 && bs[3] == 0x80 + cp % 64;
  }

  /** Decoding the bytes of one character gives that character back and leaves the rest. */
  lemma Utf8DecodeChar(c: char, rest: seq<Byte>)
    ensures Utf8Decode(Utf8(c) + rest) == PrependChar(c, Utf8Decode(rest))
  {
    var bs := Utf8(c) + rest;
    var n := |Utf8(c)|;
    assert bs[n..] == rest;
    if c as int < 0x80 {
      assert DecodeFirst(bs) == Some((c, 1));
    } else if c as int < 0x800 {
      DecodeFirstTwo(c, rest);
    } else if c as int < 0x1_0000 {
      DecodeFirstThree(c, rest);
    } else {
      DecodeFirstFour(c, rest);
    }
  }

  lemma {:induction false} Utf8RoundTrip(s: string)
    ensures Utf8Decode(Utf8String(s)) == Some(s)
  {
    if s != [] {
      Utf8RoundTrip(s[1..]);
      Utf8DecodeChar(s[0], Utf8String(s[1..]));
      assert [s[0]] + s[1..] == s;
    }
  }

  // ---------------------------------------------------------------------------
  // Percent-escapes
  // ---------------------------------------------------------------------------

  /** An upper-case hexadecimal digit. */
  function HexDigit(n: nat): (c: char)
    requires n < 16
    ensures c == '%' || IsUnreserved(c)
  {
    if n < 10 then (48 + n) as char else (55 + n) as char
  }

  function HexValue(c: char): (r: Option<nat>)
    ensures r.Some? ==> r.value < 16
  {
    if '0' <= c <= '9' then Some(c as int - 48)
    else if 'A' <= c <= 'F' then Some(c as int - 55)
    else if 'a' <= c <= 'f' then Some(c as int - 87)
    else None
  }

  lemma HexValueOfDigit(n: nat)
    requires n < 16
    ensures HexValue(HexDigit(n)) == Some(n)
  {
  }

  /** `%XX` for every byte. */
  function PercentEscape(bs: seq<Byte>): (e: string)
    ensures |e| == 3 * |bs|
    ensures forall i :: 0 <= i < |e| ==> e[i] == '%' || IsUnreserved(e[i])
  {
    if bs == [] then []
    else
      var rest := PercentEscape(bs[1..]);
      var head := ['%', HexDigit(bs[0] / 16), HexDigit(bs[0] % 16)];
      assert forall i :: 3 <= i < |head + rest| ==> (head + rest)[i] == rest[i - 3];
      head + rest
  }

  /** `encodeURIComponent` applied to one character. */
  function EncodeChar(c: char): (e: string)
    ensures 1 <= |e|
    ensures IsUnreserved(c) ==> e == [c]
    ensures forall i :: 0 <= i < |e| ==> e[i] == '%' || IsUnreserved(e[i])
  {
    if IsUnreserved(c) then [c] else PercentEscape(Utf8(c))
  }

  /**
   * `encodeURIComponent(s)`. The result holds only unreserved characters and
   * '%', so it cannot end the query parameter it is placed in ('&', '#') or
   * start another one ('=', '?').
   */
  function Encode(s: string): (e: string)
    ensures |s| <= |e|
    ensures forall i :: 0 <= i < |e| ==> e[i] == '%' || IsUnreserved(e[i])
  {
    if s == [] then []
    else
      var head, rest := EncodeChar(s[0]), Encode(s[1..]);
      assert forall i :: |head| <= i < |head + rest| ==> (head + rest)[i] == rest[i - |head|];
      head + rest
  }

  /** A string of unreserved characters is its own encoding. */
  lemma {:induction false} EncodeUnreserved(s: string)
    requires forall i :: 0 <= i < |s| ==> IsUnreserved(s[i])
    ensures Encode(s) == s
  {
    if s != [] {
      EncodeUnreserved(s[1..]);
      assert [s[0]] + s[1..] == s;
    }
  }

  /** The slash of a path is escaped, so `/feed` becomes `%2Ffeed`. */
  lemma EncodeExample()
    ensures Encode("/feed") == "%2Ffeed"
  {
  }

  // ---------------------------------------------------------------------------
  // The inverse, which shows that the encoding loses nothing
  // ---------------------------------------------------------------------------

  function PrependBytes(prefix: seq<Byte>, rest: Option<seq<Byte>>): Option<seq<Byte>> {
    match rest
    case None => None
    case Some(r) => Some(prefix + r)
  }

  /** Replaces every `%XX` by its byte and every other ASCII character by its code. */
  function PercentDecode(e: string): Option<seq<Byte>>
    decreases |e|
  {
    if e == [] then Some([])
    else if e[0] == '%' then
      if |e| < 3 then None
      else match (HexValue(e[1]), HexValue(e[2]))
        case (Some(h), Some(l)) => PrependBytes([16 * h + l], PercentDecode(e[3..]))
        case _ => None
    else if e[0] as int < 0x80 then PrependBytes([e[0] as int], PercentDecode(e[1..]))
    else None
  }

  /** `decodeURIComponent` restricted to ASCII input. */
  function Decode(e: string): Option<string> {
    match PercentDecode(e)
    case None => None
    case Some(bs) => Utf8Decode(bs)
  }

  lemma {:induction false} PercentDecodeEscape(bs: seq<Byte>, rest: string)
    ensures PercentDecode(PercentEscape(bs) + rest) == PrependBytes(bs, PercentDecode(rest))
  {
    if bs == [] {
      assert PercentEscape(bs) + rest == rest;
      match PercentDecode(rest) {
        case None =>
        case Some(r) => assert bs + r == r;
      }
    } else {
      var e := PercentEscape(bs) + rest;
      var b := bs[0];
      HexValueOfDigit(b / 16);
      HexValueOfDigit(b % 16);
      assert e[0] == '%' && e[1] == HexDigit(b / 16) && e[2] == HexDigit(b % 16);
      assert e[3..] == PercentEscape(bs[1..]) + rest;
      PercentDecodeEscape(bs[1..], rest);
      match PercentDecode(rest) {
        case None =>
        case Some(r) => assert [b] + (bs[1..] + r) == bs + r;
      }
    }
  }

  lemma {:induction false} PercentDecodeEncode(s: string)
    ensures PercentDecode(Encode(s)) == Some(Utf8String(s))
  {
    if s != [] {
      var c := s[0];
      PercentDecodeEncode(s[1..]);
      if IsUnreserved(c) {
        var e := Encode(s);
        assert e[0] == c && e[1..] == Encode(s[1..]);
        assert Utf8(c) == [c as int];
      } else {
        PercentDecodeEscape(Utf8(c), Encode(s[1..]));
      }
    }
  }

  /** Decoding an encoded string gives the string back, so distinct paths get distinct encodings. */
  lemma EncodeRoundTrip(s: string)
    ensures Decode(Encode(s)) == Some(s)
  {
    PercentDecodeEncode(s);
    Utf8RoundTrip(s);
  }
}
