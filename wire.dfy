/** Values that travel in datagrams: bytes, byte buffers and the
    JavaScript buffer/string operations the cache protocol uses on them. */
module Wire {

  datatype Option<T> = None | Some(value: T)

  /** An octet; Node's `Buffer` elements. */
  type byte = x: int | 0 <= x < 256

  /** `buffer[i]` in JavaScript, where reading past the end gives
      `undefined`, and `undefined & mask` is 0; so an absent byte reads as 0
      under every bit test. */
  function ByteAt(b: seq<byte>, i: nat): (r: byte)
    ensures i < |b| ==> r == b[i]
    ensures i >= |b| ==> r == 0
  {
    if i < |b| then b[i] else 0
  }

  function Min(a: nat, b: nat): nat { if a <= b then a else b }

  /** `buffer.slice(from, to)` and `string.slice(from, to)`: both bounds are
      clamped to the length, and an empty piece results when they cross. */
  function Slice<T>(s: seq<T>, from: nat, to: nat): (r: seq<T>)
    ensures from <= to <= |s| ==> r == s[from..to]
    ensures |r| <= |s|
  {
    var a := Min(from, |s|);
    var b := Min(to, |s|);
    if a <= b then s[a..b] else []
  }

  /** `buffer.slice(from)`: everything from `from` on, or nothing. */
  function Drop<T>(s: seq<T>, from: nat): (r: seq<T>)
    ensures from <= |s| ==> r == s[from..]
    ensures from > |s| ==> r == []
  {
    if from <= |s| then s[from..] else []
  }

  /** `string.slice(0, n)`: the first `n` elements, or all of them. */
  function Take<T>(s: seq<T>, n: nat): (r: seq<T>)
    ensures |r| == Min(n, |s|)
    ensures r == s[..Min(n, |s|)]
  {
    if n <= |s| then s[..n] else s
  }

  /** True of text whose characters are all 7-bit ASCII. */
  predicate IsAscii(s: string) {
    forall i | 0 <= i < |s| :: s[i] as int < 128
  }

  /** `Buffer.from(text)` for ASCII text: one byte per character. */
  function AsciiBytes(s: string): (b: seq<byte>)
    requires IsAscii(s)
    ensures |b| == |s|
    ensures forall i | 0 <= i < |s| :: b[i] == s[i] as int
  {
    seq(|s|, i requires 0 <= i < |s| => s[i] as int)
  }

  /** `buffer.toString()`, one character per byte (the code point equal to
      the byte). On ASCII bytes this is what UTF-8 decoding gives. */
  function BytesText(b: seq<byte>): (s: string)
    ensures |s| == |b|
    ensures forall i | 0 <= i < |b| :: s[i] as int == b[i]
  {
    seq(|b|, i requires 0 <= i < |b| => b[i] as char)
  }

  lemma AsciiRoundTrip(s: string)
    requires IsAscii(s)
    ensures BytesText(AsciiBytes(s)) == s
  {
    var t := BytesText(AsciiBytes(s));
    assert |t| == |s|;
    forall i | 0 <= i < |s| ensures t[i] == s[i] {
      assert t[i] as int == s[i] as int;
    }
  }
}
