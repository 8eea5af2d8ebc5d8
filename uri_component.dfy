/** JavaScript's `encodeURIComponent`: percent-encoding (section 2.1 of RFC 3986) of the
    UTF-8 bytes of every character outside ALPHA, DIGIT and `- _ . ! ~ * ' ( )`, with
    upper-case hexadecimal digits. `Decode` is the receiving side's `decodeURIComponent`,
    the inverse that the single-sign-on receiver applies to the `data` parameter. */
module UriComponent {
  import opened Js

  type Byte = x: int | 0 <= x < 256

  /** Characters `encodeURIComponent` leaves unescaped. */
  predicate IsUnescaped(c: char)
  {
    ('A' <= c <= 'Z') || ('a' <= c <= 'z') || ('0' <= c <= '9')
    || c == '-' || c == '_' || c == '.' || c == '!' || c == '~' || c == '*' || c == '\''
    || c == '(' || c == ')'
  }

  predicate IsUpperHexDigit(c: char)
  {
    ('0' <= c <= '9') || ('A' <= c <= 'F')
  }

  predicate IsHexDigit(c: char)
  {
    ('0' <= c <= '9') || ('A' <= c <= 'F') || ('a' <= c <= 'f')
  }

  function HexDigit(d: int): (c: char)
    requires 0 <= d < 16
    ensures IsUpperHexDigit(c)
  {
    if d < 10 then ('0' as int + d) as char else ('A' as int + d - 10) as char
  }

  function HexValue(c: char): (d: int)
    requires IsHexDigit(c)
    ensures 0 <= d < 16
  {
    if '0' <= c <= '9' then c as int - '0' as int
    else if 'A' <= c <= 'F' then c as int - 'A' as int + 10
    else c as int - 'a' as int + 10
  }

  /** The UTF-8 encoding of a Unicode scalar value. */
  function Utf8(c: char): (bs: seq<Byte>)
    ensures 1 <= |bs| <= 4
  {
    var n := c as int;
    if n < 0x80 then [n]
    else if n < 0x800 then [0xC0 + n / 64, 0x80 + n % 64]
    else if n < 0x10000 then [0xE0 + (n / 64) / 64, 0x80 + (n / 64) % 64, 0x80 + n % 64]
    else [0xF0 + ((n / 64) / 64) / 64, 0x80 + ((n / 64) / 64) % 64, 0x80 + (n / 64) % 64, 0x80 + n % 64]
  }

  /** `%XY` for one byte. */
  function Escape(b: Byte): (e: string)
    ensures |e| == 3 && e[0] == '%' && IsUpperHexDigit(e[1]) && IsUpperHexDigit(e[2])
  {
    ['%', HexDigit(b / 16), HexDigit(b % 16)]
  }

  function EscapeAll(bs: seq<Byte>): (e: string)
    ensures |e| == 3 * |bs|
    ensures forall k :: 0 <= k < |bs| ==> e[3 * k..3 * k + 3] == Escape(bs[k])
    ensures forall i :: 0 <= i < |e| ==> e[i] == '%' || IsUpperHexDigit(e[i])
  {
    if bs == [] then []
    else
      var head, rest := Escape(bs[0]), EscapeAll(bs[1..]);
      assert forall k :: 1 <= k < |bs| ==> (head + rest)[3 * k..3 * k + 3] == rest[3 * (k - 1)..3 * (k - 1) + 3];
      assert forall i :: 3 <= i < |head + rest| ==> (head + rest)[i] == rest[i - 3];
      head + rest
  }

  predicate IsEncodedChar(c: char)
  {
    IsUnescaped(c) || c == '%' || IsUpperHexDigit(c)
  }

  function EncodeChar(c: char): (e: string)
    ensures |e| >= 1
    ensures forall i :: 0 <= i < |e| ==> IsEncodedChar(e[i])
  {
    if IsUnescaped(c) then [c] else EscapeAll(Utf8(c))
  }

  /** `encodeURIComponent(s)`. The result holds only unescaped characters, `%` and
      upper-case hexadecimal digits, so it never contains a query-string delimiter
      such as `&`, `=`, `#` or `+`. */
  function Encode(s: string): (r: string)
    ensures forall i :: 0 <= i < |r| ==> IsEncodedChar(r[i])
  {
    if s == [] then []
    else
      var head, tail := EncodeChar(s[0]), Encode(s[1..]);
      assert forall i :: |head| <= i < |head| + |tail| ==> (head + tail)[i] == tail[i - |head|];
      head + tail
  }

  // ---------------------------------------------------------------------------
  // The inverse, decodeURIComponent

  /** The byte escaped as `%XY` at position `i` of `s`, if there is one. */
  function ByteAt(s: string, i: nat): Option<Byte>
  {
    if i + 3 <= |s| && s[i] == '%' && IsHexDigit(s[i + 1]) && IsHexDigit(s[i + 2])
    then Some(HexValue(s[i + 1]) * 16 + HexValue(s[i + 2]))
    else None
  }

  /** The low six bits of an escaped continuation byte at position `i`. */
  function ContinuationAt(s: string, i: nat): (r: Option<int>)
    ensures r.Some? ==> 0 <= r.value < 64
  {
    match ByteAt(s, i)
    case Some(b) => if 0x80 <= b < 0xC0 then Some(b - 0x80) else None
    case None => None
  }

  /** Decodes the escaped UTF-8 sequence at the start of `s`: the character and the number
      of characters of `s` it spans. Overlong forms, surrogates and code points above
      U+10FFFF are refused, as `decodeURIComponent` refuses them. */
  function DecodeEscape(s: string): (r: Option<(char, nat)>)
    ensures r.Some? ==> 3 <= r.value.1 <= |s|
  {
    match ByteAt(s, 0)
    case None => None
    case Some(b0) =>
      if b0 < 0x80 then Some((b0 as char, 3))
      else if 0xC2 <= b0 < 0xE0 then
        match ContinuationAt(s, 3)
        case None => None
        case Some(x1) => Some((((b0 - 0xC0) * 64 + x1) as char, 6))
      else if 0xE0 <= b0 < 0xF0 then
        match (ContinuationAt(s, 3), ContinuationAt(s, 6))
        case (Some(x1), Some(x2)) =>
          var cp := ((b0 - 0xE0) * 64 + x1) * 64 + x2;
          if cp < 0x800 || (0xD800 <= cp < 0xE000) then None else Some((cp as char, 9))
        case _ => None
      else if 0xF0 <= b0 < 0xF5 then
        match (ContinuationAt(s, 3), ContinuationAt(s, 6), ContinuationAt(s, 9))
        case (Some(x1), Some(x2), Some(x3)) =>
          var cp := (((b0 - 0xF0) * 64 + x1) * 64 + x2) * 64 + x3;
          if cp < 0x10000 || cp >= 0x110000 then None else Some((cp as char, 12))
        case _ => None
      else None
  }

  /** `decodeURIComponent(s)`, or None where it throws a URIError. */
  function Decode(s: string): Option<string>
    decreases |s|
  {
    if s == [] then Some([])
    else if s[0] != '%' then
      match Decode(s[1..])
      case Some(t) => Some([s[0]] + t)
      case None => None
    else
      match DecodeEscape(s)
      case None => None
      case Some((c, n)) =>
        match Decode(s[n..])
        case Some(t) => Some([c] + t)
        case None => None
  }

  // ---------------------------------------------------------------------------
  // Round trip

  lemma HexRoundTrip(d: int)
    requires 0 <= d < 16
    ensures IsHexDigit(HexDigit(d)) && HexValue(HexDigit(d)) == d
  {
  }

  /** An escape written by `Escape` is read back by `ByteAt`. */
  lemma ByteAtEscape(s: string, i: nat, b: Byte)
    requires i + 3 <= |s| && s[i..i + 3] == Escape(b)
    ensures ByteAt(s, i) == Some(b)
  {
    assert s[i] == Escape(b)[0] && s[i + 1] == Escape(b)[1] && s[i + 2] == Escape(b)[2];
    HexRoundTrip(b / 16);
    HexRoundTrip(b % 16);
  }

  /** The `k`-th escape of a byte sequence, followed by anything, is read back. */
  lemma ByteAtEscapeAll(bs: seq<Byte>, t: string, k: nat)
    requires k < |bs|
    ensures ByteAt(EscapeAll(bs) + t, 3 * k) == Some(bs[k])
  {
    var e := EscapeAll(bs);
    var i := 3 * k;
    assert i + 3 == 3 * (k + 1) <= 3 * |bs| == |e|;
    assert e[i..i + 3] == Escape(bs[k]);
    assert (e + t)[i..i + 3] == e[i..i + 3];
    ByteAtEscape(e + t, i, bs[k]);
  }

  /** Splitting a number into base-64 digits and joining them again gives it back. */
  lemma SixBitDigits(n: nat)
    ensures (n / 64) * 64 + n % 64 == n
    ensures (((n / 64) / 64) * 64 + (n / 64) % 64) * 64 + n % 64 == n
    ensures ((((n / 64) / 64) / 64 * 64 + ((n / 64) / 64) % 64) * 64 + (n / 64) % 64) * 64 + n % 64 == n
  {
    var q := n / 64;
    var q2 := q / 64;
    assert q == q2 * 64 + q % 64;
    assert q2 == (q2 / 64) * 64 + q2 % 64;
  }

  lemma DecodeEscapeTwo(c: char, t: string)
    requires !IsUnescaped(c) && 0x80 <= c as int < 0x800
    ensures DecodeEscape(EncodeChar(c) + t) == Some((c, 6))
  {
    var n := c as int;
    var bs := Utf8(c);
    var s := EncodeChar(c) + t;
    ByteAtEscapeAll(bs, t, 0);
    ByteAtEscapeAll(bs, t, 1);
    assert ByteAt(s, 0) == Some(0xC0 + n / 64);
    assert ContinuationAt(s, 3) == Some(n % 64);
    SixBitDigits(n);
  }

  lemma DecodeEscapeThree(c: char, t: string)
    requires !IsUnescaped(c) && 0x800 <= c as int < 0x10000
    ensures DecodeEscape(EncodeChar(c) + t) == Some((c, 9))
  {
    var n := c as int;
    var bs := Utf8(c);
    var s := EncodeChar(c) + t;
    ByteAtEscapeAll(bs, t, 0);
    ByteAtEscapeAll(bs, t, 1);
    ByteAtEscapeAll(bs, t, 2);
    assert ByteAt(s, 0) == Some(0xE0 + (n / 64) / 64);
    assert ContinuationAt(s, 3) == Some((n / 64) % 64);
    assert ContinuationAt(s, 6) == Some(n % 64);
    SixBitDigits(n);
  }

  lemma DecodeEscapeFour(c: char, t: string)
    requires !IsUnescaped(c) && 0x10000 <= c as int
    ensures DecodeEscape(EncodeChar(c) + t) == Some((c, 12))
  {
    var n := c as int;
    var bs := Utf8(c);
    var s := EncodeChar(c) + t;
    ByteAtEscapeAll(bs, t, 0);
    ByteAtEscapeAll(bs, t, 1);
    ByteAtEscapeAll(bs, t, 2);
    ByteAtEscapeAll(bs, t, 3);
    assert ByteAt(s, 0) == Some(0xF0 + ((n / 64) / 64) / 64);
    assert ContinuationAt(s, 3) == Some(((n / 64) / 64) % 64);
    assert ContinuationAt(s, 6) == Some((n / 64) % 64);
    assert ContinuationAt(s, 9) == Some(n % 64);
    SixBitDigits(n);
  }

  /** An escaped character is decoded back, and the decoder consumes exactly its escapes. */
  lemma DecodeEscapeChar(c: char, t: string)
    requires !IsUnescaped(c)
    ensures DecodeEscape(EncodeChar(c) + t) == Some((c, |EncodeChar(c)|))
  {
    var n := c as int;
    if n < 0x80 {
      ByteAtEscapeAll(Utf8(c), t, 0);
    } else if n < 0x800 {
      DecodeEscapeTwo(c, t);
    } else if n < 0x10000 {
      DecodeEscapeThree(c, t);
    } else {
      DecodeEscapeFour(c, t);
    }
  }

  /** Decoding the encoding of one character followed by `t` yields that character
      followed by the decoding of `t`. */
  lemma DecodeEncodeChar(c: char, t: string)
    ensures Decode(EncodeChar(c) + t) == match Decode(t) case Some(u) => Some([c] + u) case None => None
  {
    var s := EncodeChar(c) + t;
    if IsUnescaped(c) {
      assert s[0] == c && s[1..] == t;
    } else {
      DecodeEscapeChar(c, t);
      assert s[0] == '%';
      assert s[|EncodeChar(c)|..] == t;
    }
  }

  /** `decodeURIComponent(encodeURIComponent(s)) === s` for every string. */
  lemma {:induction false} DecodeEncode(s: string)
    ensures Decode(Encode(s)) == Some(s)
    decreases |s|
  {
    if s != [] {
      DecodeEncode(s[1..]);
      DecodeEncodeChar(s[0], Encode(s[1..]));
      assert [s[0]] + s[1..] == s;
    }
  }

  /** Characters outside the escaped set pass through unchanged. */
  lemma {:induction false} EncodeUnescapedIsIdentity(s: string)
    requires forall i :: 0 <= i < |s| ==> IsUnescaped(s[i])
    ensures Encode(s) == s
    decreases |s|
  {
    if s != [] {
      EncodeUnescapedIsIdentity(s[1..]);
      assert [s[0]] + s[1..] == s;
    }
  }
}
