/**
 * ECMAScript `encodeURIComponent` and `decodeURIComponent` (sections
 * 19.2.6.4 and 19.2.6.2 of ECMA-262) over strings of Unicode scalar values:
 * every character outside the unreserved set is written as the UTF-8 bytes
 * of its code point (section 3 of RFC 3629), each byte as `%` and two
 * upper-case hex digits (percent-encoding as in section 2.1 of RFC 3986).
 */
module UriComponent {
  import opened Wrappers

  type Byte = x: int | 0 <= x < 256

  /** The characters `encodeURIComponent` copies unchanged. */
  predicate Unreserved(c: char) {
    || ('A' <= c <= 'Z') || ('a' <= c <= 'z') || ('0' <= c <= '9')
    || c == '-' || c == '_' || c == '.' || c == '!' || c == '~'
    || c == '*' || c == '\'' || c == '(' || c == ')'
  }

  /** Upper-case hex digit of a value below 16. */
  function HexDigit(d: int): (c: char)
    requires 0 <= d < 16
    ensures ('0' <= c <= '9') || ('A' <= c <= 'F')
  {
    if d < 10 then ('0' as int + d) as char else ('A' as int + d - 10) as char
  }

  /** The value of a hex digit of either case; `None` for any other character. */
  function HexValue(c: char): (r: Option<int>)
    ensures r.Some? ==> 0 <= r.value < 16
    ensures r.Some? <==> ('0' <= c <= '9') || ('A' <= c <= 'F') || ('a' <= c <= 'f')
  {
    if '0' <= c <= '9' then Some(c as int - '0' as int)
    else if 'A' <= c <= 'F' then Some(c as int - 'A' as int + 10)
    else if 'a' <= c <= 'f' then Some(c as int - 'a' as int + 10)
    else None
  }

  /** Reading back a written hex digit gives its value. */
  lemma HexRoundTrip(d: int)
    requires 0 <= d < 16
    ensures HexValue(HexDigit(d)) == Some(d)
  {
  }

  /** Continuation bytes of UTF-8 have the form `10xxxxxx`. */
  predicate Continuation(b: Byte) {
    0x80 <= b < 0xC0
  }

  /**
   * The length of the sequence a lead byte starts: the number of its
   * leading one bits (one for ASCII); 0 when that number is 1 or above 4,
   * which `decodeURIComponent` rejects.
   */
  function LeadLength(b: Byte): (n: nat)
    ensures n <= 4
    ensures n == 0 <==> Continuation(b) || b >= 0xF8
  {
    if b < 0x80 then 1
    else if b < 0xC0 then 0
    else if b < 0xE0 then 2
    else if b < 0xF0 then 3
    else if b < 0xF8 then 4
    else 0
  }

  /** Code points that are Unicode scalar values, the characters a string holds. */
  predicate Scalar(cp: int) {
    (0 <= cp < 0xD800) || (0xE000 <= cp < 0x11_0000)
  }

  /** The smallest code point a sequence of `n` bytes may encode (shorter forms are overlong). */
  function MinForLength(n: nat): int {
    if n <= 1 then 0 else if n == 2 then 0x80 else if n == 3 then 0x800 else 0x1_0000
  }

  /** The UTF-8 encoding of a code point. */
  function Utf8(cp: int): (r: seq<Byte>)
    requires 0 <= cp < 0x11_0000
    ensures 1 <= |r| <= 4
    ensures LeadLength(r[0]) == |r|
    ensures forall i :: 1 <= i < |r| ==> Continuation(r[i])
    ensures MinForLength(|r|) <= cp
    ensures |r| < 4 ==> cp < MinForLength(|r| + 1)
  {
    if cp < 0x80 then [cp]
    else if cp < 0x800 then [0xC0 + cp / 64, 0x80 + cp % 64]
    else if cp < 0x1_0000 then [0xE0 + cp / 4096, 0x80 + cp / 64 % 64, 0x80 + cp % 64]
    else [0xF0 + cp / 262144, 0x80 + cp / 4096 % 64, 0x80 + cp / 64 % 64, 0x80 + cp % 64]
  }

  /** The code point the bits of a well-formed byte sequence of length 1 to 4 spell. */
  function Utf8Value(bs: seq<Byte>): int
    requires 1 <= |bs| <= 4
  {
    var b: seq<int> := bs;
    if |b| == 1 then b[0]
    else if |b| == 2 then (b[0] - 0xC0) * 64 + (b[1] - 0x80)
    else if |b| == 3 then (b[0] - 0xE0) * 4096 + (b[1] - 0x80) * 64 + (b[2] - 0x80)
    else (b[0] - 0xF0) * 262144 + (b[1] - 0x80) * 4096 + (b[2] - 0x80) * 64 + (b[3] - 0x80)
  }

  /**
   * The character a byte sequence encodes, when it is the valid UTF-8 form
   * of exactly one scalar value: the lead byte announces the length, the
   * rest are continuation bytes, the form is not overlong, and the value
   * is not a surrogate and not above U+10FFFF. `None` otherwise.
   */
  function Utf8Decode(bs: seq<Byte>): (r: Option<char>)
    ensures r.Some? ==> 1 <= |bs| <= 4 && LeadLength(bs[0]) == |bs|
    ensures r.Some? ==> forall i :: 1 <= i < |bs| ==> Continuation(bs[i])
  {
    if |bs| == 0 || LeadLength(bs[0]) != |bs| then None
    else if exists i :: 1 <= i < |bs| && !Continuation(bs[i]) then None
    else
      var cp := Utf8Value(bs);
      if MinForLength(|bs|) <= cp && Scalar(cp) then Some(cp as char) else None
  }

  /** Decoding the UTF-8 form of a character gives the character back. */
  lemma Utf8RoundTrip(c: char)
    ensures Utf8Decode(Utf8(c as int)) == Some(c)
  {
    var cp := c as int;
    var bs := Utf8(cp);
    if cp < 0x80 {
    } else if cp < 0x800 {
      assert Utf8Value(bs) == (cp / 64) * 64 + cp % 64;
    } else if cp < 0x1_0000 {
      assert cp / 64 == (cp / 4096) * 64 + cp / 64 % 64;
      assert Utf8Value(bs) == cp;
    } else {
      assert cp / 4096 == (cp / 262144) * 64 + cp / 4096 % 64;
      assert cp / 64 == (cp / 4096) * 64 + cp / 64 % 64;
      assert Utf8Value(bs) == cp;
    }
  }

  /** One byte written as `%` and two upper-case hex digits. */
  function Percent(b: Byte): (r: string)
    ensures |r| == 3 && r[0] == '%'
  {
    ['%', HexDigit(b / 16), HexDigit(b % 16)]
  }

  /** Every byte percent-encoded, in order. */
  function PercentAll(bs: seq<Byte>): (r: string)
    ensures |r| == 3 * |bs|
    ensures forall i :: 0 <= i < |r| ==> r[i] == '%' || Unreserved(r[i])
  {
    if bs == [] then [] else Percent(bs[0]) + PercentAll(bs[1..])
  }

  /** One character as `encodeURIComponent` writes it. */
  function EncodeChar(c: char): (r: string)
    ensures |r| >= 1
    ensures forall i :: 0 <= i < |r| ==> r[i] == '%' || Unreserved(r[i])
    ensures Unreserved(c) ==> r == [c]
    ensures !Unreserved(c) ==> r[0] == '%'
  {
    if Unreserved(c) then [c] else PercentAll(Utf8(c as int))
  }

  /**
   * `encodeURIComponent`: the output holds only unreserved characters and
   * `%`, and a string of unreserved characters is returned unchanged.
   */
  function EncodeUriComponent(s: string): (r: string)
    ensures forall i :: 0 <= i < |r| ==> r[i] == '%' || Unreserved(r[i])
    ensures |s| <= |r|
    ensures (forall i :: 0 <= i < |s| ==> Unreserved(s[i])) ==> r == s
  {
    if s == [] then [] else EncodeChar(s[0]) + EncodeUriComponent(s[1..])
  }

  /** A `%` followed by two hex digits, read as a byte; `None` for anything else. */
  function ReadByte(s: string): (r: Option<Byte>)
    ensures r.Some? ==> |s| >= 3 && s[0] == '%'
  {
    if |s| < 3 || s[0] != '%' then None
    else match (HexValue(s[1]), HexValue(s[2]))
      case (Some(hi), Some(lo)) => Some(hi * 16 + lo)
      case _ => None
  }

  /** `n` percent-encoded bytes in a row at the start of `s`. */
  function ReadBytes(s: string, n: nat): (r: Option<seq<Byte>>)
    ensures r.Some? ==> |r.value| == n && |s| >= 3 * n
  {
    if n == 0 then Some([])
    else match ReadByte(s)
      case None => None
      case Some(b) =>
        match ReadBytes(s[3..], n - 1)
        case None => None
        case Some(rest) => Some([b] + rest)
  }

  /** `c` in front of a decoded string; an error stays an error. */
  function Prepend(c: char, r: Option<string>): Option<string> {
    match r
    case None => None
    case Some(t) => Some([c] + t)
  }

  /**
   * `decodeURIComponent`: characters other than `%` are copied; each `%XX`
   * sequence starts a UTF-8 sequence whose length its lead byte announces,
   * made of that many `%XX` groups, and is replaced by the character it
   * encodes. A malformed escape or an invalid UTF-8 sequence is the
   * `URIError` it throws, here `None`.
   */
  function DecodeUriComponent(s: string): (r: Option<string>)
    decreases |s|
    ensures r.Some? ==> |r.value| <= |s|
    ensures (forall i :: 0 <= i < |s| ==> s[i] != '%') ==> r == Some(s)
  {
    if s == [] then Some([])
    else if s[0] != '%' then
      assert forall i :: 0 <= i < |s| - 1 ==> s[1..][i] == s[i + 1];
      assert [s[0]] + s[1..] == s;
      Prepend(s[0], DecodeUriComponent(s[1..]))
    else match ReadByte(s)
      case None => None
      case Some(b) =>
        var n := LeadLength(b);
        if n == 0 then None
        else match ReadBytes(s, n)
          case None => None
          case Some(bs) =>
            match Utf8Decode(bs)
            case None => None
            case Some(c) => Prepend(c, DecodeUriComponent(s[3 * n..]))
  }

  /** A percent-encoded byte reads back as that byte, whatever follows. */
  lemma ReadPercent(b: Byte, t: string)
    ensures ReadByte(Percent(b) + t) == Some(b)
  {
    HexRoundTrip(b / 16);
    HexRoundTrip(b % 16);
  }

  /** A run of percent-encoded bytes reads back as those bytes, whatever follows. */
  lemma {:induction false} ReadPercentAll(bs: seq<Byte>, t: string)
    ensures ReadBytes(PercentAll(bs) + t, |bs|) == Some(bs)
    decreases |bs|
  {
    if bs != [] {
      var s := PercentAll(bs) + t;
      assert s == Percent(bs[0]) + (PercentAll(bs[1..]) + t);
      ReadPercent(bs[0], PercentAll(bs[1..]) + t);
      assert s[3..] == PercentAll(bs[1..]) + t;
      ReadPercentAll(bs[1..], t);
      assert [bs[0]] + bs[1..] == bs;
    }
  }

  /** Decoding an encoded character followed by anything decodes the character, then the rest. */
  lemma DecodeEncodedChar(c: char, t: string)
    ensures DecodeUriComponent(EncodeChar(c) + t) == Prepend(c, DecodeUriComponent(t))
  {
    var s := EncodeChar(c) + t;
    if Unreserved(c) {
      assert s[1..] == t;
    } else {
      var bs := Utf8(c as int);
      assert s == PercentAll(bs) + t;
      ReadPercentAll(bs, t);
      assert PercentAll(bs) == Percent(bs[0]) + PercentAll(bs[1..]);
      ReadPercent(bs[0], PercentAll(bs[1..]) + t);
      assert ReadByte(s) == Some(bs[0]);
      Utf8RoundTrip(c);
      assert s[3 * |bs|..] == t;
    }
  }

  /** `decodeURIComponent(encodeURIComponent(s))` is `s`, for every string of scalar values. */
  lemma {:induction false} DecodeEncode(s: string)
    ensures DecodeUriComponent(EncodeUriComponent(s)) == Some(s)
    decreases |s|
  {
    if s != [] {
      DecodeEncodedChar(s[0], EncodeUriComponent(s[1..]));
      DecodeEncode(s[1..]);
      assert [s[0]] + s[1..] == s;
    }
  }
}
