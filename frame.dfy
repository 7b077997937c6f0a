/** The binary datagram layouts client and server exchange, each with the
    reader on the other side: the encrypted request frame, the server's
    phase-1 hello, and the client's phase-2 key exchange. The header byte
    classifies a datagram: bit 7 set is a command, clear is a handshake
    step whose low two bits select the phases. */
module Frame {
  import opened Wire
  import Hex

  /** `(buffer[0] & 0x80) > 0`; an empty datagram reads its header as 0. */
  predicate IsCommand(buffer: seq<byte>) {
    ByteAt(buffer, 0) >= 128
  }

  /** `buffer[0] & 0x3`. */
  function PhaseBits(buffer: seq<byte>): (p: nat)
    ensures p < 4
  {
    ByteAt(buffer, 0) % 4
  }

  /** `phase & 1`: the header asks for the hello. */
  predicate AsksHello(p: nat) { p % 2 == 1 }

  /** `phase & 2`: the header carries the client's key. */
  predicate CarriesKey(p: nat) { (p / 2) % 2 == 1 }

  // ---- the encrypted request ------------------------------------------

  /** `Buffer.concat([Buffer.from([0x82]), iv, tag, Buffer.from(encrypted)])`,
      the request every client call sends; the ciphertext travels as its
      hexadecimal text. */
  function RequestFrame(iv: seq<byte>, tag: seq<byte>, ct: seq<byte>): (f: seq<byte>)
    ensures |f| == 1 + |iv| + |tag| + 2 * |ct|
  {
    Hex.HexIsAscii(Hex.Encode(ct));
    [0x82] + iv + tag + AsciiBytes(Hex.Encode(ct))
  }

  /** What the server takes from a command datagram. */
  datatype CommandFrame = CommandFrame(iv: seq<byte>, tag: seq<byte>, encrypted: string)

  /** `buffer.slice(1, 17)`, `buffer.slice(17, 33)` and
      `buffer.slice(33).toString()`. */
  function ParseCommandFrame(buffer: seq<byte>): (c: CommandFrame)
    ensures |c.iv| <= 16 && |c.tag| <= 16
  {
    CommandFrame(Slice(buffer, 1, 17), Slice(buffer, 17, 33), BytesText(Drop(buffer, 33)))
  }

  /** A request frame with a 16-byte IV and tag is a command, and the
      server's slices recover the IV, the tag and the ciphertext. */
  lemma RequestFrameParses(iv: seq<byte>, tag: seq<byte>, ct: seq<byte>)
    requires |iv| == 16 && |tag| == 16
    ensures IsCommand(RequestFrame(iv, tag, ct))
    ensures ParseCommandFrame(RequestFrame(iv, tag, ct)) == CommandFrame(iv, tag, Hex.Encode(ct))
    ensures Hex.Decode(ParseCommandFrame(RequestFrame(iv, tag, ct)).encrypted) == ct
  {
    var h := Hex.Encode(ct);
    Hex.HexIsAscii(h);
    var f := RequestFrame(iv, tag, ct);
    assert f[1..17] == iv;
    assert f[17..33] == tag;
    assert f[33..] == AsciiBytes(h);
    AsciiRoundTrip(h);
    Hex.RoundTrip(ct);
  }

  // ---- the server hello -------------------------------------------------

  /** `Buffer.concat([Buffer.from([0x1, 0x85]), publicKey, signature, ca])`. */
  function HelloReply(serverKey: seq<byte>, signature: seq<byte>, cert: seq<byte>): (r: seq<byte>)
    ensures |r| == 2 + |serverKey| + |signature| + |cert|
  {
    [0x01, 0x85] + serverKey + signature + cert
  }

  /** What the client reads from a hello: the status bit, the length byte,
      and the pieces at the fixed offsets 2, 135 and 391. */
  datatype Hello = Hello(status: nat, len: nat, serverKey: seq<byte>, signature: seq<byte>, cert: seq<byte>)

  /** `buffer[0] & 0x1`, `buffer[1] & 0xff`, `buffer.slice(2, 135)`,
      `buffer.slice(135, 391)` and `buffer.slice(391)`. */
  function ParseHello(buffer: seq<byte>): (h: Hello)
    ensures h.status < 2 && h.len < 256
  {
    Hello(ByteAt(buffer, 0) % 2, ByteAt(buffer, 1), Slice(buffer, 2, 135), Slice(buffer, 135, 391), Drop(buffer, 391))
  }

  /** A secp521r1 public key in uncompressed form. */
  const ServerKeyLength := 133
  /** An RSA-2048 signature. */
  const SignatureLength := 256

  /** The client's fixed offsets invert the server's layout when the key
      is 133 bytes and the signature 256. */
  lemma HelloRoundTrip(serverKey: seq<byte>, signature: seq<byte>, cert: seq<byte>)
    requires |serverKey| == ServerKeyLength && |signature| == SignatureLength
    ensures ParseHello(HelloReply(serverKey, signature, cert)) == Hello(1, 0x85, serverKey, signature, cert)
  {
    var r := HelloReply(serverKey, signature, cert);
    assert r[2..135] == serverKey;
    assert r[135..391] == signature;
    assert r[391..] == cert;
  }

  // ---- the client key exchange -----------------------------------------

  /** `Buffer.concat([Buffer.from([0x02]), Buffer.from([0x0]), encrypted])`. */
  function KeyExchange(encrypted: seq<byte>): seq<byte> {
    [0x02, 0x00] + encrypted
  }

  /** The server reads a key exchange as a handshake step carrying a key
      and not asking for the hello, and `buffer.slice(2)` is the payload. */
  lemma KeyExchangeParses(encrypted: seq<byte>)
    ensures !IsCommand(KeyExchange(encrypted))
    ensures CarriesKey(PhaseBits(KeyExchange(encrypted)))
    ensures !AsksHello(PhaseBits(KeyExchange(encrypted)))
    ensures Drop(KeyExchange(encrypted), 2) == encrypted
  {
  }
}
