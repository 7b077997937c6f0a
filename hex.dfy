/** Node's `'hex'` encoding: two lower-case hexadecimal digits per byte,
    most significant nibble first. */
module Hex {
  import opened Wire

  predicate IsHexDigit(c: char) {
    ('0' <= c <= '9') || ('a' <= c <= 'f')
  }

  /** Text made only of lower-case hexadecimal digits. */
  predicate IsHexText(s: string) {
    forall i | 0 <= i < |s| :: IsHexDigit(s[i])
  }

  function NibbleChar(v: nat): (c: char)
    requires v < 16
    ensures IsHexDigit(c)
  {
    if v < 10 then (('0' as int) + v) as char else (('a' as int) + v - 10) as char
  }

  /** The value of a hexadecimal digit; decoding accepts either case. */
  function NibbleValue(c: char): (r: Option<nat>)
    ensures r.Some? ==> r.value < 16
  {
    if '0' <= c <= '9' then Some((c as int) - ('0' as int))
    else if 'a' <= c <= 'f' then Some((c as int) - ('a' as int) + 10)
    else if 'A' <= c <= 'F' then Some((c as int) - ('A' as int) + 10)
    else None
  }

  lemma NibbleRoundTrip(v: nat)
    requires v < 16
    ensures NibbleValue(NibbleChar(v)) == Some(v)
  {
  }

  /** `buffer.toString('hex')`. */
  function Encode(b: seq<byte>): (s: string)
    ensures |s| == 2 * |b|
    ensures IsHexText(s)
  {
    if b == [] then "" else [NibbleChar(b[0] / 16), NibbleChar(b[0] % 16)] + Encode(b[1..])
  }

  /** `Buffer.from(s, 'hex')`, which is also how a decipher reads `'hex'`
      input: digit pairs are decoded up to the first pair that is not two
      hexadecimal digits, and the rest (and a lone final digit) is dropped. */
  function Decode(s: string): (r: seq<byte>)
    ensures 2 * |r| <= |s|
    decreases |s|
  {
    if |s| < 2 then []
    else
      match (NibbleValue(s[0]), NibbleValue(s[1]))
      case (Some(hi), Some(lo)) => [hi * 16 + lo] + Decode(s[2..])
      case _ => []
  }

  /** Decoding the encoding of bytes gives the bytes back. */
  lemma {:induction false} RoundTrip(b: seq<byte>)
    ensures Decode(Encode(b)) == b
  {
    if b != [] {
      var s := Encode(b);
      assert s[2..] == Encode(b[1..]);
      NibbleRoundTrip(b[0] / 16);
      NibbleRoundTrip(b[0] % 16);
      RoundTrip(b[1..]);
      assert [b[0]] + b[1..] == b;
    }
  }

  /** Hexadecimal text is ASCII, so `Buffer.from` of it is one byte per
      character. */
  lemma HexIsAscii(s: string)
    requires IsHexText(s)
    ensures IsAscii(s)
  {
  }
}
