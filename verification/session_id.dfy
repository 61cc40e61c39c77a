/**
 * The session identifier of an attendance QR code: eight random bytes, each
 * written as `b.toString(16).padStart(2, '0')` and joined
 * (src/components/dashboard/QRAttendance.tsx, `generateSessionId`).
 */
module SessionId {
  import opened Wrappers

  type byte = x: int | 0 <= x < 256

  /** The number of random bytes in a session id. */
  const IdBytes := 8

  predicate IsLowerHex(c: char) { '0' <= c <= '9' || 'a' <= c <= 'f' }

  /** The lower-case digit of `d` in base 16: `0`-`9`, then `a`-`f`. */
  function HexDigit(d: nat): (c: char)
    requires d < 16
    ensures IsLowerHex(c)
  {
    if d < 10 then ('0' as int + d) as char else ('a' as int + d - 10) as char
  }

  function HexValue(c: char): (d: nat)
    requires IsLowerHex(c)
    ensures d < 16 && HexDigit(d) == c
  {
    if c <= '9' then c as int - '0' as int else c as int - 'a' as int + 10
  }

  /** `n.toString(16)`: the shortest lower-case hexadecimal numeral of `n`. */
  function ToBase16(n: nat): (s: string)
    ensures |s| > 0 && forall i :: 0 <= i < |s| ==> IsLowerHex(s[i])
    decreases n
  {
    if n < 16 then [HexDigit(n)] else ToBase16(n / 16) + [HexDigit(n % 16)]
  }

  /** `s.padStart(width, pad)`: prefix copies of `pad` until `s` is `width` long. */
  function PadStart(s: string, width: nat, pad: char): (r: string)
    ensures |r| == if |s| < width then width else |s|
    ensures r[|r| - |s|..] == s
    ensures forall i :: 0 <= i < |r| - |s| ==> r[i] == pad
  {
    if |s| < width then seq(width - |s|, _ => pad) + s else s
  }

  /** One byte as the id writes it: exactly two hexadecimal digits, high nibble first. */
  function ByteHex(b: byte): (s: string)
    ensures s == [HexDigit(b / 16), HexDigit(b % 16)]
  {
    var s := PadStart(ToBase16(b), 2, '0');
    if b < 16 then
      assert HexDigit(0) == '0';
      assert s == ['0', HexDigit(b)];
      s
    else
      assert ToBase16(b) == [HexDigit(b / 16), HexDigit(b % 16)];
      s
  }

  /** `Array.from(buf, ByteHex).join('')`. */
  function EncodeHex(bytes: seq<byte>): (s: string)
    ensures |s| == 2 * |bytes|
    ensures forall i :: 0 <= i < |s| ==> IsLowerHex(s[i])
  {
    if bytes == [] then ""
    else
      var head, tail := ByteHex(bytes[0]), EncodeHex(bytes[1..]);
      assert forall i :: 0 <= i < |head + tail| ==> (head + tail)[i] == if i < 2 then head[i] else tail[i - 2];
      head + tail
  }

  /** Reads a string of lower-case hex digit pairs back into bytes; the inverse of `EncodeHex`. */
  function DecodeHex(s: string): (r: Option<seq<byte>>)
    ensures r.Some? ==> 2 * |r.value| == |s|
    decreases |s|
  {
    if s == [] then Some([])
    else if |s| < 2 || !IsLowerHex(s[0]) || !IsLowerHex(s[1]) then None
    else match DecodeHex(s[2..])
      case None => None
      case Some(rest) => Some([HexValue(s[0]) * 16 + HexValue(s[1])] + rest)
  }

  /** A well-formed session id: sixteen lower-case hexadecimal digits. */
  predicate IsSessionId(s: string)
  {
    |s| == 2 * IdBytes && forall i :: 0 <= i < |s| ==> IsLowerHex(s[i])
  }

  /** `generateSessionId`, with the bytes `crypto.getRandomValues` would supply as a parameter. */
  function GenerateSessionId(random: seq<byte>): (id: string)
    requires |random| == IdBytes
    ensures IsSessionId(id)
    ensures DecodeHex(id) == Some(random)
  {
    DecodeEncodeHex(random);
    EncodeHex(random)
  }

  /** Encoding loses nothing: every byte comes back from its two digits. */
  lemma {:induction false} DecodeEncodeHex(bytes: seq<byte>)
    ensures DecodeHex(EncodeHex(bytes)) == Some(bytes)
  {
    if bytes != [] {
      DecodeEncodeHex(bytes[1..]);
      DecodeByteThen(bytes[0], EncodeHex(bytes[1..]), bytes[1..]);
      assert EncodeHex(bytes) == ByteHex(bytes[0]) + EncodeHex(bytes[1..]);
      assert [bytes[0]] + bytes[1..] == bytes;
    }
  }

  /** The two digits of a byte in front of a decodable text decode to that byte in front. */
  lemma DecodeByteThen(b: byte, tail: string, rest: seq<byte>)
    requires DecodeHex(tail) == Some(rest)
    ensures DecodeHex(ByteHex(b) + tail) == Some([b] + rest)
  {
    var h, l := b / 16, b % 16;
    var hi, lo := HexDigit(h), HexDigit(l);
    HexValueOfDigit(h);
    HexValueOfDigit(l);
    DecodeHexCons(hi, lo, tail, b);
  }

  /** Decoding reads the first two digits as one byte, then the rest. */
  lemma DecodeHexCons(hi: char, lo: char, rest: string, b: byte)
    requires IsLowerHex(hi) && IsLowerHex(lo) && HexValue(hi) * 16 + HexValue(lo) == b
    requires DecodeHex(rest).Some?
    ensures DecodeHex([hi, lo] + rest) == Some([b] + DecodeHex(rest).value)
  {
    assert ([hi, lo] + rest)[2..] == rest;
  }

  lemma HexValueOfDigit(d: nat)
    requires d < 16
    ensures HexValue(HexDigit(d)) == d
  {
    HexDigitInjective(HexValue(HexDigit(d)), d);
  }

  /** Different digit values have different digit characters. */
  lemma HexDigitInjective(d: nat, e: nat)
    requires d < 16 && e < 16 && HexDigit(d) == HexDigit(e)
    ensures d == e
  {
  }

  /** Distinct random inputs give distinct ids. */
  lemma GenerateSessionIdInjective(r1: seq<byte>, r2: seq<byte>)
    requires |r1| == IdBytes && |r2| == IdBytes
    ensures GenerateSessionId(r1) == GenerateSessionId(r2) ==> r1 == r2
  {
  }
}
