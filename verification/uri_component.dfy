/**
 * `encodeURIComponent` (ECMA-262, section 19.2.6.5): characters outside the
 * unreserved set are written as the UTF-8 bytes of their code point, each
 * byte as `%` and two upper-case hex digits. Its partner is a decoder in the
 * manner of `decodeURIComponent`; the round trip is proved for every string.
 */
module UriComponent {
  import opened Wrappers

  /** Characters `encodeURIComponent` leaves as they are: letters, digits and `-_.!~*'()`. */
  predicate Unreserved(c: char) {
    || ('A' <= c <= 'Z') || ('a' <= c <= 'z') || ('0' <= c <= '9')
    || c == '-' || c == '_' || c == '.' || c == '!' || c == '~'
    || c == '*' || c == '\'' || c == '(' || c == ')'
  }

  predicate IsByte(b: int) { 0 <= b < 256 }

  predicate IsUpperHex(c: char) { ('0' <= c <= '9') || ('A' <= c <= 'F') }

  function HexDigit(n: int): (c: char)
    requires 0 <= n < 16
    ensures IsUpperHex(c)
  {
    if n < 10 then ('0' as int + n) as char else ('A' as int + n - 10) as char
  }

  /** The value of a hex digit of either case. */
  function HexValue(c: char): Option<int> {
    if '0' <= c <= '9' then Some(c as int - '0' as int)
    else if 'A' <= c <= 'F' then Some(c as int - 'A' as int + 10)
    else if 'a' <= c <= 'f' then Some(c as int - 'a' as int + 10)
    else None
  }

  /**
   * Code points below 0x80 take one byte, below 0x800 two, below 0x10000
   * three, the rest four; continuation bytes carry six bits each.
   */
  function Utf8(c: char): (bs: seq<int>)
    ensures 1 <= |bs| <= 4
    ensures forall k :: 0 <= k < |bs| ==> IsByte(bs[k])
  {
    var cp := c as int;
    var q1 := cp / 0x40;
    var q2 := q1 / 0x40;
    var q3 := q2 / 0x40;
    if cp < 0x80 then [cp]
    else if cp < 0x800 then [0xC0 + q1, 0x80 + cp % 0x40]
    else if cp < 0x1_0000 then [0xE0 + q2, 0x80 + q1 % 0x40, 0x80 + cp % 0x40]
    else [0xF0 + q3, 0x80 + q2 % 0x40, 0x80 + q1 % 0x40, 0x80 + cp % 0x40]
  }

  /** One byte as `%` and two upper-case hex digits. */
  function PercentByte(b: int): (r: string)
    requires IsByte(b)
    ensures |r| == 3 && r[0] == '%'
  {
    var hi := b / 16;
    var lo := b % 16;
    assert 0 <= hi < 16;
    ['%', HexDigit(hi), HexDigit(lo)]
  }

  function PercentBytes(bs: seq<int>): (r: string)
    requires forall k :: 0 <= k < |bs| ==> IsByte(bs[k])
    ensures |r| == 3 * |bs|
  {
    if bs == [] then []
    else PercentByte(bs[0]) + PercentBytes(bs[1..])
  }

  function EncodeChar(c: char): string {
    if Unreserved(c) then [c] else PercentBytes(Utf8(c))
  }

  /** Characters that may appear in `encodeURIComponent`'s output. */
  predicate UriSafe(c: char) { Unreserved(c) || c == '%' || IsUpperHex(c) }

  function EncodeUriComponent(s: string): (r: string)
    ensures forall k :: 0 <= k < |r| ==> UriSafe(r[k])
    ensures |s| <= |r| <= 12 * |s|
  {
    if s == [] then []
    else
      PercentBytesSafe(Utf8(s[0]));
      EncodeChar(s[0]) + EncodeUriComponent(s[1..])
  }

  lemma PercentBytesSafe(bs: seq<int>)
    requires forall k :: 0 <= k < |bs| ==> IsByte(bs[k])
    ensures forall k :: 0 <= k < |PercentBytes(bs)| ==> UriSafe(PercentBytes(bs)[k])
  {
  }

  /** Reads `n` consecutive `%XY` groups from the start of `s`. */
  function ReadBytes(s: string, n: nat): (r: Option<seq<int>>)
    ensures r.Some? ==> 3 * n <= |s| && |r.value| == n
    ensures r.Some? ==> forall k :: 0 <= k < n ==> IsByte(r.value[k])
  {
    if n == 0 then Some([])
    else if |s| < 3 || s[0] != '%' || HexValue(s[1]).None? || HexValue(s[2]).None? then None
    else
      match ReadBytes(s[3..], n - 1)
      case None => None
      case Some(rest) => Some([16 * HexValue(s[1]).value + HexValue(s[2]).value] + rest)
  }

  predicate IsContinuation(b: int) { 0x80 <= b < 0xC0 }

  /** The length of the UTF-8 sequence a lead byte announces; 0 when it cannot lead one. */
  function SequenceLength(b: int): nat {
    if 0 <= b < 0x80 then 1
    else if 0xC2 <= b < 0xE0 then 2
    else if 0xE0 <= b < 0xF0 then 3
    else if 0xF0 <= b < 0xF5 then 4
    else 0
  }

  predicate IsScalar(cp: int) { (0 <= cp < 0xD800) || (0xE000 <= cp < 0x11_0000) }

  /** Whether every byte after the first is a continuation byte. */
  predicate ContinuationsOk(bs: seq<int>) {
    forall k :: 1 <= k < |bs| ==> IsContinuation(bs[k])
  }

  /** The code point of a UTF-8 sequence of 1 to 4 bytes, six bits per continuation byte. */
  function CodePoint(bs: seq<int>): int
    requires 1 <= |bs| <= 4
  {
    if |bs| == 1 then bs[0]
    else if |bs| == 2 then (bs[0] - 0xC0) * 0x40 + (bs[1] - 0x80)
    else if |bs| == 3 then ((bs[0] - 0xE0) * 0x40 + (bs[1] - 0x80)) * 0x40 + (bs[2] - 0x80)
    else (((bs[0] - 0xF0) * 0x40 + (bs[1] - 0x80)) * 0x40 + (bs[2] - 0x80)) * 0x40 + (bs[3] - 0x80)
  }

  /** The least code point a sequence of `n` bytes may carry (anything lower is overlong). */
  function Least(n: int): int {
    if n <= 1 then 0 else if n == 2 then 0x80 else if n == 3 then 0x800 else 0x1_0000
  }

  /** Decodes one complete UTF-8 sequence, rejecting overlong forms, surrogates and values above U+10FFFF. */
  function Utf8Decode(bs: seq<int>): Option<char> {
    if |bs| == 0 || SequenceLength(bs[0]) != |bs| || !ContinuationsOk(bs) then None
    else
      var cp := CodePoint(bs);
      if Least(|bs|) <= cp && IsScalar(cp) then Some(cp as char) else None
  }

  /** `decodeURIComponent`: undoes every `%XY` escape; `None` where that throws a URIError. */
  function DecodeUriComponent(s: string): Option<string>
    decreases |s|
  {
    if s == [] then Some([])
    else if s[0] != '%' then
      match DecodeUriComponent(s[1..])
      case None => None
      case Some(t) => Some([s[0]] + t)
    else
      match ReadBytes(s, 1)
      case None => None
      case Some(lead) =>
        var n := SequenceLength(lead[0]);
        if n == 0 then None
        else
          match ReadBytes(s, n)
          case None => None
          case Some(bs) =>
            match Utf8Decode(bs)
            case None => None
            case Some(c) =>
              match DecodeUriComponent(s[3 * n..])
              case None => None
              case Some(t) => Some([c] + t)
  }

  lemma HexRoundTrip(n: int)
    requires 0 <= n < 16
    ensures HexValue(HexDigit(n)) == Some(n)
  {
  }

  lemma {:induction false} ReadPercentBytes(bs: seq<int>, rest: string)
    requires forall k :: 0 <= k < |bs| ==> IsByte(bs[k])
    ensures ReadBytes(PercentBytes(bs) + rest, |bs|) == Some(bs)
  {
    if bs != [] {
      var s := PercentBytes(bs) + rest;
      var b := bs[0];
      HexRoundTrip(b / 16);
      HexRoundTrip(b % 16);
      assert s[..3] == PercentByte(b);
      assert 16 * HexValue(s[1]).value + HexValue(s[2]).value == b;
      assert s[3..] == PercentBytes(bs[1..]) + rest;
      ReadPercentBytes(bs[1..], rest);
      assert [b] + bs[1..] == bs;
    }
  }

  /** The UTF-8 bytes of a character decode back to it. */
  lemma Utf8RoundTrip(c: char)
    ensures SequenceLength(Utf8(c)[0]) == |Utf8(c)|
    ensures Utf8Decode(Utf8(c)) == Some(c)
  {
    var cp := c as int;
    var q1 := cp / 0x40;
    var q2 := q1 / 0x40;
    var q3 := q2 / 0x40;
    var bs := Utf8(c);
    assert cp == q1 * 0x40 + cp % 0x40;
    assert q1 == q2 * 0x40 + q1 % 0x40;
    assert q2 == q3 * 0x40 + q2 % 0x40;
    if cp >= 0x1_0000 {
      assert bs == [0xF0 + q3, 0x80 + q2 % 0x40, 0x80 + q1 % 0x40, 0x80 + cp % 0x40];
      assert q3 <= 4;
      assert CodePoint(bs) == ((q3 * 0x40 + q2 % 0x40) * 0x40 + q1 % 0x40) * 0x40 + cp % 0x40;
    } else if cp >= 0x800 {
      assert bs == [0xE0 + q2, 0x80 + q1 % 0x40, 0x80 + cp % 0x40];
      assert CodePoint(bs) == (q2 * 0x40 + q1 % 0x40) * 0x40 + cp % 0x40;
    } else if cp >= 0x80 {
      assert bs == [0xC0 + q1, 0x80 + cp % 0x40];
    }
  }

  /** Unfolds the decoder once on a string that starts with a well-formed escaped character. */
  lemma DecodeEscaped(s: string, bs: seq<int>, c: char)
    requires |s| > 0 && s[0] == '%'
    requires 1 <= |bs| && ReadBytes(s, 1) == Some([bs[0]])
    requires SequenceLength(bs[0]) == |bs| && ReadBytes(s, |bs|) == Some(bs)
    requires Utf8Decode(bs) == Some(c)
    ensures DecodeUriComponent(s) ==
      match DecodeUriComponent(s[3 * |bs|..])
      case None => None
      case Some(t) => Some([c] + t)
  {
  }

  /** An unreserved character is copied through by the decoder. */
  lemma DecodePlain(c: char, rest: string)
    requires Unreserved(c)
    ensures DecodeUriComponent([c] + rest) ==
      match DecodeUriComponent(rest)
      case None => None
      case Some(t) => Some([c] + t)
  {
    assert ([c] + rest)[1..] == rest;
  }

  lemma PercentBytesSplit(bs: seq<int>)
    requires |bs| >= 1 && forall k :: 0 <= k < |bs| ==> IsByte(bs[k])
    ensures PercentBytes(bs) == PercentBytes([bs[0]]) + PercentBytes(bs[1..])
  {
    assert [bs[0]][1..] == [];
    assert PercentBytes([bs[0]]) == PercentByte(bs[0]);
  }

  /** The escapes of a well-formed UTF-8 sequence are decoded back to its character. */
  lemma DecodeSequence(bs: seq<int>, c: char, rest: string)
    requires 1 <= |bs| && forall k :: 0 <= k < |bs| ==> IsByte(bs[k])
    requires SequenceLength(bs[0]) == |bs| && Utf8Decode(bs) == Some(c)
    ensures DecodeUriComponent(PercentBytes(bs) + rest) ==
      match DecodeUriComponent(rest)
      case None => None
      case Some(t) => Some([c] + t)
  {
    var s := PercentBytes(bs) + rest;
    ReadPercentBytes(bs, rest);
    PercentBytesSplit(bs);
    assert s == PercentBytes([bs[0]]) + (PercentBytes(bs[1..]) + rest);
    ReadPercentBytes([bs[0]], PercentBytes(bs[1..]) + rest);
    assert s[3 * |bs|..] == rest;
    DecodeEscaped(s, bs, c);
  }

  /** The escapes of a reserved character are decoded back to that character. */
  lemma DecodePercentEncoded(c: char, rest: string)
    ensures DecodeUriComponent(PercentBytes(Utf8(c)) + rest) ==
      match DecodeUriComponent(rest)
      case None => None
      case Some(t) => Some([c] + t)
  {
    Utf8RoundTrip(c);
    DecodeSequence(Utf8(c), c, rest);
  }

  /** Decoding an encoded character followed by anything yields that character first. */
  lemma DecodeEncodedChar(c: char, rest: string)
    ensures DecodeUriComponent(EncodeChar(c) + rest) ==
      match DecodeUriComponent(rest)
      case None => None
      case Some(t) => Some([c] + t)
  {
    if Unreserved(c) {
      DecodePlain(c, rest);
    } else {
      DecodePercentEncoded(c, rest);
    }
  }

  /** `decodeURIComponent(encodeURIComponent(s)) == s` for every string. */
  lemma {:induction false} DecodeEncode(s: string)
    ensures DecodeUriComponent(EncodeUriComponent(s)) == Some(s)
  {
    if s != [] {
      DecodeEncode(s[1..]);
      DecodeEncodedChar(s[0], EncodeUriComponent(s[1..]));
      assert [s[0]] + s[1..] == s;
    }
  }

  /** A string made only of unreserved characters encodes to itself. */
  lemma {:induction false} EncodeUnreserved(s: string)
    requires forall k :: 0 <= k < |s| ==> Unreserved(s[k])
    ensures EncodeUriComponent(s) == s
  {
    if s != [] {
      EncodeUnreserved(s[1..]);
      assert [s[0]] + s[1..] == s;
    }
  }
}
