/** Base64 as in section 4 of RFC 4648: every three bytes become four
    six-bit values, each written as one character of the alphabet
    `A-Z a-z 0-9 + /`; a final group of two or one byte gives three or two
    values and is padded with `=` to four characters. Node's
    `buffer.toString('base64')` produces it. */
module Base64 {
  import opened Wire

  predicate IsAlphabetChar(c: char) {
    ('A' <= c <= 'Z') || ('a' <= c <= 'z') || ('0' <= c <= '9') || c == '+' || c == '/'
  }

  /** Text made of alphabet characters and the padding character. */
  predicate IsBase64Text(s: string) {
    forall i | 0 <= i < |s| :: IsAlphabetChar(s[i]) || s[i] == '='
  }

  function SextetChar(v: nat): (c: char)
    requires v < 64
    ensures IsAlphabetChar(c)
  {
    if v < 26 then (('A' as int) + v) as char
    else if v < 52 then (('a' as int) + v - 26) as char
    else if v < 62 then (('0' as int) + v - 52) as char
    else if v == 62 then '+'
    else '/'
  }

  function SextetValue(c: char): (v: nat)
    requires IsAlphabetChar(c)
    ensures v < 64
  {
    if 'A' <= c <= 'Z' then (c as int) - ('A' as int)
    else if 'a' <= c <= 'z' then (c as int) - ('a' as int) + 26
    else if '0' <= c <= '9' then (c as int) - ('0' as int) + 52
    else if c == '+' then 62
    else 63
  }

  lemma SextetRoundTrip(v: nat)
    requires v < 64
    ensures SextetValue(SextetChar(v)) == v
  {
  }

  predicate AllSextets(v: seq<nat>) {
    forall i | 0 <= i < |v| :: v[i] < 64
  }

  /** The four six-bit values of three bytes, most significant first. */
  function Quad(b0: byte, b1: byte, b2: byte): (v: seq<nat>)
    ensures |v| == 4 && AllSextets(v)
  {
    [b0 / 4, (b0 % 4) * 16 + b1 / 16, (b1 % 16) * 4 + b2 / 64, b2 % 64]
  }

  /** The three bytes four six-bit values stand for. */
  function Group(v0: nat, v1: nat, v2: nat, v3: nat): (r: seq<byte>)
    requires v0 < 64 && v1 < 64 && v2 < 64 && v3 < 64
    ensures |r| == 3
  {
    [v0 * 4 + v1 / 16, (v1 % 16) * 16 + v2 / 4, (v2 % 4) * 64 + v3]
  }

  /** The six-bit values of a byte string, three bytes to four values; a
      final one or two bytes, padded with zero bits, give two or three. */
  function Sextets(b: seq<byte>): (v: seq<nat>)
    ensures AllSextets(v)
    decreases |b|
  {
    if |b| == 0 then []
    else if |b| < 3 then Quad(b[0], ByteAt(b, 1), 0)[..|b| + 1]
    else Quad(b[0], b[1], b[2]) + Sextets(b[3..])
  }

  /** The bytes that six-bit values stand for; a lone value left over at
      the end stands for nothing and is refused. */
  function FromSextets(v: seq<nat>): (r: Option<seq<byte>>)
    requires AllSextets(v)
    decreases |v|
  {
    if |v| == 0 then Some([])
    else if |v| == 1 then None
    else if |v| < 4 then Some(Group(v[0], v[1], if |v| == 3 then v[2] else 0, 0)[..|v| - 1])
    else
      match FromSextets(v[4..])
      case None => None
      case Some(rest) => Some(Group(v[0], v[1], v[2], v[3]) + rest)
  }

  lemma {:induction false} SextetsLength(b: seq<byte>)
    ensures |Sextets(b)| == 4 * (|b| / 3) + (if |b| % 3 == 0 then 0 else |b| % 3 + 1)
    decreases |b|
  {
    if |b| >= 3 {
      SextetsLength(b[3..]);
    }
  }

  function Chars(v: seq<nat>): (s: string)
    requires AllSextets(v)
    ensures |s| == |v|
  {
    seq(|v|, i requires 0 <= i < |v| => SextetChar(v[i]))
  }

  function Values(s: string): (r: Option<seq<nat>>)
    ensures r.Some? ==> AllSextets(r.value)
  {
    if forall i | 0 <= i < |s| :: IsAlphabetChar(s[i]) then
      Some(seq(|s|, i requires 0 <= i < |s| => SextetValue(s[i])))
    else None
  }

  function Padding(n: nat): string {
    if n % 3 == 1 then "==" else if n % 3 == 2 then "=" else ""
  }

  /** The values and the padding of `n` bytes fill whole groups of four. */
  lemma PaddedLength(n: nat)
    ensures (4 * (n / 3) + (if n % 3 == 0 then 0 else n % 3 + 1) + |Padding(n)|) % 4 == 0
  {
    var q := n / 3;
    if n % 3 == 0 {
      assert 4 * q + 0 + |Padding(n)| == 4 * q;
    } else if n % 3 == 1 {
      assert 4 * q + 2 + |Padding(n)| == 4 * (q + 1);
    } else {
      assert 4 * q + 3 + |Padding(n)| == 4 * (q + 1);
    }
  }

  /** The encoding. */
  function Encode(b: seq<byte>): (s: string)
    ensures |s| % 4 == 0
  {
    SextetsLength(b);
    PaddedLength(|b|);
    Chars(Sextets(b)) + Padding(|b|)
  }

  /** The characters before the padding. */
  function Unpadded(s: string): string {
    if |s| >= 2 && s[|s| - 2] == '=' && s[|s| - 1] == '=' then s[..|s| - 2]
    else if |s| >= 1 && s[|s| - 1] == '=' then s[..|s| - 1]
    else s
  }

  /** Decoding of well-formed text; anything else is refused. */
  function Decode(s: string): (r: Option<seq<byte>>) {
    if |s| % 4 != 0 then None
    else
      match Values(Unpadded(s))
      case None => None
      case Some(v) => FromSextets(v)
  }

  /** Three bytes give four values that give the three bytes back. */
  lemma GroupRoundTrip(b0: byte, b1: byte, b2: byte, q: seq<nat>)
    requires q == Quad(b0, b1, b2)
    ensures Group(q[0], q[1], q[2], q[3]) == [b0, b1, b2]
  {
  }

  lemma PrefixOfGroup(b: seq<byte>, g: seq<byte>)
    requires 1 <= |b| <= 2 && |g| == 3
    requires g[0] == b[0] && (|b| == 2 ==> g[1] == b[1])
    ensures g[..|b|] == b
  {
  }

  lemma LastGroupsRoundTrip(b: seq<byte>)
    requires 1 <= |b| <= 2
    ensures FromSextets(Sextets(b)) == Some(b)
  {
    var q := Quad(b[0], ByteAt(b, 1), 0);
    var v := Sextets(b);
    assert v == q[..|b| + 1];
    GroupRoundTrip(b[0], ByteAt(b, 1), 0, q);
    assert v[0] == q[0] && v[1] == q[1];
    if |b| == 1 {
      assert q[2] == 0;
      var g := Group(q[0], q[1], 0, 0);
      assert g == [b[0], 0, 0];
      assert FromSextets(v) == Some(g[..1]);
      PrefixOfGroup(b, g);
    } else {
      assert v[2] == q[2];
      var g := Group(q[0], q[1], q[2], 0);
      assert g == [b[0], b[1], 0];
      assert FromSextets(v) == Some(g[..2]);
      PrefixOfGroup(b, g);
    }
  }

  lemma SplitThree(b: seq<byte>)
    requires |b| >= 3
    ensures [b[0], b[1], b[2]] + b[3..] == b
  {
  }

  lemma FullGroupRoundTrip(b: seq<byte>)
    requires |b| >= 3
    requires FromSextets(Sextets(b[3..])) == Some(b[3..])
    ensures FromSextets(Sextets(b)) == Some(b)
  {
    var q := Quad(b[0], b[1], b[2]);
    var v := Sextets(b);
    assert v == q + Sextets(b[3..]);
    assert v[4..] == Sextets(b[3..]);
    assert v[0] == q[0] && v[1] == q[1] && v[2] == q[2] && v[3] == q[3];
    GroupRoundTrip(b[0], b[1], b[2], q);
    var g := Group(q[0], q[1], q[2], q[3]);
    assert FromSextets(v) == Some(g + b[3..]);
    assert g == [b[0], b[1], b[2]];
    SplitThree(b);
  }

  lemma {:induction false} SextetsRoundTrip(b: seq<byte>)
    ensures FromSextets(Sextets(b)) == Some(b)
    decreases |b|
  {
    if |b| == 0 {
    } else if |b| <= 2 {
      LastGroupsRoundTrip(b);
    } else {
      SextetsRoundTrip(b[3..]);
      FullGroupRoundTrip(b);
    }
  }

  lemma CharsRoundTrip(v: seq<nat>)
    requires AllSextets(v)
    ensures Values(Chars(v)) == Some(v)
  {
    var s := Chars(v);
    assert forall i | 0 <= i < |s| :: IsAlphabetChar(s[i]);
    var w := seq(|s|, i requires 0 <= i < |s| => SextetValue(s[i]));
    forall i | 0 <= i < |v| ensures w[i] == v[i] {
      SextetRoundTrip(v[i]);
    }
    assert w == v;
  }

  lemma UnpaddedEncode(b: seq<byte>)
    ensures Unpadded(Encode(b)) == Chars(Sextets(b))
  {
    var c := Chars(Sextets(b));
    var s := Encode(b);
    if |b| % 3 == 1 {
      assert s[..|s| - 2] == c;
    } else if |b| % 3 == 2 {
      assert s[..|s| - 1] == c;
      assert s[|s| - 2] == c[|c| - 1];
    } else {
      assert s == c;
    }
  }

  /** Decoding the encoding of bytes gives the bytes back. */
  lemma RoundTrip(b: seq<byte>)
    ensures Decode(Encode(b)) == Some(b)
  {
    UnpaddedEncode(b);
    CharsRoundTrip(Sextets(b));
    SextetsRoundTrip(b);
  }

  /** The encoding uses only the alphabet and `=`. */
  lemma EncodeAlphabet(b: seq<byte>)
    ensures IsBase64Text(Encode(b))
  {
    var c := Chars(Sextets(b));
    var s := Encode(b);
    forall i | 0 <= i < |s| ensures IsAlphabetChar(s[i]) || s[i] == '=' {
      if i < |c| { assert s[i] == c[i]; }
    }
  }
}
