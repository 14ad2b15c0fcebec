/**
 * `encodeURIComponent` over Unicode scalar values (UTF-8 bytes, upper-case
 * hex), and a reference `decodeURIComponent` that undoes it.
 */
module Uri {
  import opened Wrappers

  /** The characters `encodeURIComponent` leaves as they are. */
  predicate Unreserved(c: char) {
    ('A' <= c <= 'Z') || ('a' <= c <= 'z') || ('0' <= c <= '9') ||
    c == '-' || c == '_' || c == '.' || c == '!' || c == '~' || c == '*' || c == '\'' || c == '(' || c == ')'
  }

  predicate IsUpperHex(c: char) { ('0' <= c <= '9') || ('A' <= c <= 'F') }

  function HexDigit(d: nat): (c: char)
    requires d < 16
    ensures IsUpperHex(c)
  {
    if d < 10 then ('0' as int + d) as char else ('A' as int + d - 10) as char
  }

  /** The value of a hex digit of either case. */
  function HexValue(c: char): Option<nat> {
    if '0' <= c <= '9' then Some(c as int - '0' as int)
    else if 'A' <= c <= 'F' then Some(c as int - 'A' as int + 10)
    else if 'a' <= c <= 'f' then Some(c as int - 'a' as int + 10)
    else None
  }

  lemma HexRoundTrip(d: nat)
    requires d < 16
    ensures HexValue(HexDigit(d)) == Some(d)
  {
  }

  /** The UTF-8 bytes of a code point. */
  function Utf8(n: nat): (bs: seq<nat>)
    requires n < 0x11_0000
    ensures 1 <= |bs| <= 4
    ensures forall i :: 0 <= i < |bs| ==> bs[i] < 256
  {
    if n < 0x80 then [n]
    else if n < 0x800 then [0xC0 + n / 64, 0x80 + n % 64]
    else if n < 0x1_0000 then [0xE0 + n / 64 / 64, 0x80 + n / 64 % 64, 0x80 + n % 64]
    else [0xF0 + n / 64 / 64 / 64, 0x80 + n / 64 / 64 % 64, 0x80 + n / 64 % 64, 0x80 + n % 64]
  }

  function PercentByte(b: nat): string
    requires b < 256
  {
    ['%', HexDigit(b / 16), HexDigit(b % 16)]
  }

  function PercentBytes(bs: seq<nat>): string
    requires forall i :: 0 <= i < |bs| ==> bs[i] < 256
  {
    if bs == [] then "" else PercentByte(bs[0]) + PercentBytes(bs[1..])
  }

  /** A character's encoding: itself when unreserved, otherwise its UTF-8 bytes as `%XX`. */
  function EncodeChar(c: char): (r: string)
    ensures forall i :: 0 <= i < |r| ==> Unreserved(r[i]) || r[i] == '%' || IsUpperHex(r[i])
  {
    if Unreserved(c) then [c]
    else
      PercentBytesAlphabet(Utf8(c as int));
      PercentBytes(Utf8(c as int))
  }

  /** `encodeURIComponent(s)`: the characters' encodings, one after another. */
  function Encode(s: string): (r: string)
    ensures forall i :: 0 <= i < |r| ==> Unreserved(r[i]) || r[i] == '%' || IsUpperHex(r[i])
  {
    if s == [] then "" else EncodeChar(s[0]) + Encode(s[1..])
  }

  lemma {:induction false} PercentBytesAlphabet(bs: seq<nat>)
    requires forall i :: 0 <= i < |bs| ==> bs[i] < 256
    ensures forall i :: 0 <= i < |PercentBytes(bs)| ==> PercentBytes(bs)[i] == '%' || IsUpperHex(PercentBytes(bs)[i])
  {
    if bs != [] {
      PercentBytesAlphabet(bs[1..]);
      var r := PercentBytes(bs);
      assert r == PercentByte(bs[0]) + PercentBytes(bs[1..]);
      assert IsUpperHex(r[1]) && IsUpperHex(r[2]);
      assert forall i :: 3 <= i < |r| ==> r[i] == PercentBytes(bs[1..])[i - 3];
    }
  }

  // ---------------------------------------------------------------------------
  // The reference decoder
  // ---------------------------------------------------------------------------

  /** The byte written as `%XX` at the start of `t`. */
  function DecodeByte(t: string): Option<nat> {
    if |t| < 3 || t[0] != '%' then None
    else match (HexValue(t[1]), HexValue(t[2]))
      case (Some(hi), Some(lo)) => Some(hi * 16 + lo)
      case _ => None
  }

  /** Reads `k` continuation bytes `%XX`, each adding six bits to `acc`. */
  function ReadContinuation(t: string, acc: int, k: nat): (r: Option<int>)
    ensures r.Some? ==> |t| >= 3 * k
    decreases k
  {
    if k == 0 then Some(acc)
    else match DecodeByte(t)
      case None => None
      case Some(b) =>
        if 0x80 <= b < 0xC0 then ReadContinuation(t[3..], acc * 64 + (b - 0x80), k - 1) else None
  }

  /** The number of bytes a lead byte announces; 0 when it announces none. */
  function SequenceLength(b: nat): nat {
    if b < 0x80 then 1
    else if 0xC0 <= b < 0xE0 then 2
    else if 0xE0 <= b < 0xF0 then 3
    else if 0xF0 <= b < 0xF8 then 4
    else 0
  }

  function LeadBits(b: nat, len: nat): int {
    if len == 1 then b else if len == 2 then b - 0xC0 else if len == 3 then b - 0xE0 else b - 0xF0
  }

  function MinCodePoint(len: nat): nat {
    if len == 1 then 0 else if len == 2 then 0x80 else if len == 3 then 0x800 else 0x1_0000
  }

  predicate IsScalar(n: int) { 0 <= n < 0xD800 || 0xE000 <= n < 0x11_0000 }

  /**
   * `decodeURIComponent(t)`; `None` where it throws a `URIError` (a bad
   * escape, a bad or overlong UTF-8 sequence, a surrogate).
   */
  function Decode(t: string): Option<string>
    decreases |t|
  {
    if t == [] then Some("")
    else if t[0] != '%' then
      match Decode(t[1..])
      case None => None
      case Some(rest) => Some([t[0]] + rest)
    else match DecodeByte(t)
      case None => None
      case Some(b) =>
        var len := SequenceLength(b);
        if len == 0 then None
        else match ReadContinuation(t[3..], LeadBits(b, len), len - 1)
          case None => None
          case Some(n) =>
            if n < MinCodePoint(len) || !IsScalar(n) then None
            else match Decode(t[3 * len..])
              case None => None
              case Some(rest) => Some([n as char] + rest)
  }

  lemma PercentByteDecodes(b: nat, t: string)
    requires b < 256
    ensures DecodeByte(PercentByte(b) + t) == Some(b)
  {
    HexRoundTrip(b / 16);
    HexRoundTrip(b % 16);
  }

  /** Six bits per continuation byte, most significant first. */
  function Accumulate(acc: int, bs: seq<nat>): int
    decreases |bs|
  {
    if bs == [] then acc else Accumulate(acc * 64 + (bs[0] as int - 0x80), bs[1..])
  }

  predicate AllContinuation(bs: seq<nat>) {
    forall i :: 0 <= i < |bs| ==> 0x80 <= bs[i] < 0xC0
  }

  lemma {:induction false} ReadsContinuation(bs: seq<nat>, acc: int, t: string)
    requires AllContinuation(bs)
    ensures ReadContinuation(PercentBytes(bs) + t, acc, |bs|) == Some(Accumulate(acc, bs))
    ensures |PercentBytes(bs)| == 3 * |bs|
  {
    if bs != [] {
      var u := PercentBytes(bs) + t;
      assert u == PercentByte(bs[0]) + (PercentBytes(bs[1..]) + t);
      PercentByteDecodes(bs[0], PercentBytes(bs[1..]) + t);
      assert u[3..] == PercentBytes(bs[1..]) + t;
      ReadsContinuation(bs[1..], acc * 64 + (bs[0] as int - 0x80), t);
    }
  }

  /** The lead byte announces the length, and the bytes add back up to the code point. */
  lemma Utf8Shape(n: nat)
    requires IsScalar(n)
    ensures var bs := Utf8(n);
            SequenceLength(bs[0]) == |bs| && AllContinuation(bs[1..]) &&
            Accumulate(LeadBits(bs[0], |bs|), bs[1..]) == n &&
            MinCodePoint(|bs|) <= n
  {
    var bs := Utf8(n);
    var q1, q2, q3 := n / 64, n / 64 / 64, n / 64 / 64 / 64;
    assert q1 * 64 + n % 64 == n;
    assert q2 * 64 + q1 % 64 == q1;
    assert q3 * 64 + q2 % 64 == q2;
    if |bs| == 2 {
      assert Accumulate(q1, bs[1..]) == Accumulate(q1 * 64 + bs[1] - 0x80, []);
    } else if |bs| == 3 {
      assert Accumulate(q2, bs[1..]) == Accumulate(q2 * 64 + bs[1] - 0x80, bs[2..]);
      assert Accumulate(q1, bs[2..]) == Accumulate(q1 * 64 + bs[2] - 0x80, []);
    } else if |bs| == 4 {
      assert Accumulate(q3, bs[1..]) == Accumulate(q3 * 64 + bs[1] - 0x80, bs[2..]);
      assert Accumulate(q2, bs[2..]) == Accumulate(q2 * 64 + bs[2] - 0x80, bs[3..]);
      assert Accumulate(q1, bs[3..]) == Accumulate(q1 * 64 + bs[3] - 0x80, []);
    }
  }

  /** Decoding an encoded character gives the character back, then goes on. */
  lemma DecodeEncodedChar(c: char, t: string)
    ensures Decode(EncodeChar(c) + t) ==
            match Decode(t) case None => None case Some(rest) => Some([c] + rest)
  {
    if Unreserved(c) {
      var u := EncodeChar(c) + t;
      assert u[0] == c && u[1..] == t;
    } else {
      var n := c as int;
      Utf8Shape(n);
      DecodeSequence(Utf8(n), n, t);
      assert n as char == c;
    }
  }

  /** A well-formed sequence of `%XX` bytes decodes to its code point, then decoding goes on. */
  lemma DecodeSequence(bs: seq<nat>, n: int, t: string)
    requires 1 <= |bs| && forall i :: 0 <= i < |bs| ==> bs[i] < 256
    requires SequenceLength(bs[0]) == |bs| && AllContinuation(bs[1..])
    requires Accumulate(LeadBits(bs[0], |bs|), bs[1..]) == n && MinCodePoint(|bs|) <= n && IsScalar(n)
    ensures Decode(PercentBytes(bs) + t) ==
            match Decode(t) case None => None case Some(rest) => Some([n as char] + rest)
  {
    var u := PercentBytes(bs) + t;
    assert u == PercentByte(bs[0]) + (PercentBytes(bs[1..]) + t);
    PercentByteDecodes(bs[0], PercentBytes(bs[1..]) + t);
    ReadsContinuation(bs[1..], LeadBits(bs[0], |bs|), t);
    assert u[3..] == PercentBytes(bs[1..]) + t;
    assert u[3 * |bs|..] == t;
  }

  /** `decodeURIComponent(encodeURIComponent(s)) == s`. */
  lemma {:induction false} DecodeEncode(s: string)
    ensures Decode(Encode(s)) == Some(s)
  {
    if s != [] {
      DecodeEncode(s[1..]);
      DecodeEncodedChar(s[0], Encode(s[1..]));
      assert [s[0]] + s[1..] == s;
    }
  }

  /** No encoding holds a query-string delimiter. */
  lemma EncodeHasNoDelimiters(s: string)
    ensures '&' !in Encode(s) && '=' !in Encode(s) && '?' !in Encode(s) && '#' !in Encode(s) &&
            '/' !in Encode(s) && '+' !in Encode(s) && ' ' !in Encode(s)
  {
    var r := Encode(s);
    forall i | 0 <= i < |r|
      ensures !IsDelimiter(r[i])
    {
      AlphabetHasNoDelimiter(r[i]);
    }
  }

  predicate IsDelimiter(c: char) {
    c == '&' || c == '=' || c == '?' || c == '#' || c == '/' || c == '+' || c == ' '
  }

  lemma AlphabetHasNoDelimiter(c: char)
    requires Unreserved(c) || c == '%' || IsUpperHex(c)
    ensures !IsDelimiter(c)
  {
  }
}
