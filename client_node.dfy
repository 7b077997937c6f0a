/** The published client (client/node.js). It starts in phase 1, sends
    the byte 0x01, and on the server's binary hello checks the signature
    over the server key and certificate and the certificate against its CA
    list; then it derives the session secret, sends its own key encrypted
    to the certificate's key, and moves to phase 2. Requests are sealed
    under the first 32 characters of the hexadecimal HMAC-SHA256 of the
    secret, keyed with 32 zero bytes, and carry only the operation line:
    the key and value arguments never reach the cipher. */
module ClientNode {
  import opened Wire
  import opened Text
  import Hex
  import opened Crypto
  import opened Frame
  import Server
  import ServerProps
  import opened Response

  /** `Buffer.alloc(32).fill(0x0)`. */
  const MACSalt: seq<byte> := seq(32, _ => 0)

  /** `hmac_sha256(MACSalt, secret).slice(0, 32)`: the AES key of both
      directions, hexadecimal text of at most 32 characters. */
  function HmacKey(s: Suite, secret: string): (k: string)
    ensures |k| == Min(32, 2 * |s.hmacSha256(MACSalt, secret)|)
    ensures Hex.IsHexText(k)
  {
    Take(Hex.Encode(s.hmacSha256(MACSalt, secret)), 32)
  }

  /** The key `handleResponse` opens replies under: computing it throws
      while there is no secret. */
  function ReplyKey(s: Suite, secret: Option<string>): (k: Option<string>)
    ensures k.Some? <==> secret.Some?
    ensures secret.Some? ==> k == Some(HmacKey(s, secret.value))
  {
    match secret
    case None => None
    case Some(t) => Some(HmacKey(s, t))
  }

  /** What `encryptPlainText(secret, value)` returns: the ciphertext in
      hexadecimal, the IV (passed in for `randomBytes(16)`) and the tag. */
  datatype Ciphered = Ciphered(encrypted: string, iv: seq<byte>, tag: seq<byte>)

  function EncryptPlainText(s: Suite, secret: string, value: string, iv: seq<byte>): (r: Ciphered)
    ensures r.iv == iv && Hex.IsHexText(r.encrypted)
    ensures Hex.Decode(r.encrypted) == s.seal(HmacKey(s, secret), iv, value).ct
    ensures r.tag == s.seal(HmacKey(s, secret), iv, value).tag
  {
    var c := s.seal(HmacKey(s, secret), iv, value);
    Hex.RoundTrip(c.ct);
    Ciphered(Hex.Encode(c.ct), iv, c.tag)
  }

  /** The second argument of each call's `encryptPlainText`: the function
      takes two parameters, so the key and value the call passes after it
      are dropped. */
  function OpText(op: Op): string {
    match op
    case Get(_) => "GET\r\n"
    case Set(_, _) => "SET\r\n"
    case Del(_) => "DEL\r\n"
    case Ping => "PING"
    case Close => "CLOSE"
  }

  /** The datagram a call sends, `0x82 ++ iv ++ tag ++ encrypted`; with no
      secret yet, the HMAC of `null` throws. */
  function Request(s: Suite, secret: Option<string>, op: Op, iv: seq<byte>): (d: Option<seq<byte>>)
    ensures d.Some? <==> secret.Some?
  {
    match secret
    case None => None
    case Some(t) =>
      var c := s.seal(HmacKey(s, t), iv, OpText(op));
      Some(RequestFrame(iv, c.tag, c.ct))
  }

  /** Every request a client with a secret sends is a command datagram:
      the header 0x82, the 16-byte IV at offset 1, the 16-byte tag at
      offset 17 and the hexadecimal ciphertext from offset 33; the pieces
      the server slices out open, under the client's HMAC key, to the
      operation line. */
  lemma RequestIsCommandFrame(s: Suite, secret: string, op: Op, iv: seq<byte>)
    requires Lawful(s) && |iv| == 16
    ensures var d := Request(s, Some(secret), op, iv);
      && d.Some? && IsCommand(d.value) && d.value[0] == 0x82
      && ParseCommandFrame(d.value).iv == iv && |ParseCommandFrame(d.value).tag| == 16
      && s.open(HmacKey(s, secret), ParseCommandFrame(d.value).iv, ParseCommandFrame(d.value).tag,
                Hex.Decode(ParseCommandFrame(d.value).encrypted)) == Some(OpText(op))
  {
    var c := s.seal(HmacKey(s, secret), iv, OpText(op));
    assert |c.tag| == 16;
    RequestFrameParses(iv, c.tag, c.ct);
  }

  /** The encrypted request opens, under the same key, to the text that
      was sealed. */
  lemma EncryptRoundTrip(s: Suite, secret: string, value: string, iv: seq<byte>)
    requires Lawful(s)
    ensures var r := EncryptPlainText(s, secret, value, iv);
      s.open(HmacKey(s, secret), r.iv, r.tag, Hex.Decode(r.encrypted)) == Some(value)
  {
  }

  /** What the server reads from a request: the operation, an empty key
      field for `GET`, `SET` and `DEL`, and never a value; so whatever key
      and value a call is given, the server sees the same command. */
  lemma ServerReadsNoArguments(op: Op)
    ensures Server.ParseCommand(OpText(op)) == (
      match op
      case Get(_) => Server.Command("GET", Some(""), None)
      case Set(_, _) => Server.Command("SET", Some(""), None)
      case Del(_) => Server.Command("DEL", Some(""), None)
      case Ping => Server.Command("PING", None, None)
      case Close => Server.Command("CLOSE", None, None))
  {
    match op
    case Get(_) =>
      assert OpText(op) == "GET" + CRLF + "";
      KeyLine("GET", "");
    case Set(_, _) =>
      assert OpText(op) == "SET" + CRLF + "";
      KeyLine("SET", "");
    case Del(_) =>
      assert OpText(op) == "DEL" + CRLF + "";
      KeyLine("DEL", "");
    case Ping => BareLine("PING");
    case Close => BareLine("CLOSE");
  }

  /** Consequently a `set` makes the handler throw on the missing value,
      and a `get` reads the entry under the empty key. */
  lemma SetThrowsGetReadsEmptyKey(cfg: Server.Config, s: Suite, st: Server.State, k: string, secret: string, key: string, value: string, buffer: seq<byte>, iv: seq<byte>)
    requires k in st.connections
    ensures Server.Dispatch(cfg, s, st, k, secret, Server.ParseCommand(OpText(Set(key, value))), buffer, iv)
      == Server.StepResult(st, Server.Thrown(Server.NoValue))
    ensures Server.Dispatch(cfg, s, st, k, secret, Server.ParseCommand(OpText(Get(key))), buffer, iv).emit
      == Server.Emit(st.connections[k].rInfo, Server.Text(Aes.EncryptPlainText(s, secret, Server.GetReply(st.cache, ""), iv)))
  {
    ServerReadsNoArguments(Set(key, value));
    ServerReadsNoArguments(Get(key));
    ServerProps.SetStores(cfg, s, st, k, secret, Some(""), None, buffer, iv);
    ServerProps.GetAnswers(cfg, s, st, k, secret, Some(""), None, buffer, iv);
  }

  // ---- the certificate check ------------------------------------------------

  /** `verifiyFromCACerts` from index `i` on: `None` when a certificate it
      reaches does not parse (the constructor throws). An answer `true`
      names a CA certificate that issued `cert`, an answer `false` means
      every remaining one parsed and none did. */
  function IssuedFrom(s: Suite, certs: seq<string>, cert: string, i: nat): (r: Option<bool>)
    requires i <= |certs|
    ensures r == Some(true) ==> exists j | i <= j < |certs| :: s.checkIssued(cert, certs[j])
    ensures r == Some(false) ==> forall j | i <= j < |certs| :: s.x509Parses(certs[j]) && !s.checkIssued(cert, certs[j])
    ensures r.None? ==> exists j | i <= j < |certs| :: !s.x509Parses(certs[j])
    decreases |certs| - i
  {
    if i == |certs| then Some(false)
    else if !s.x509Parses(certs[i]) then None
    else if s.checkIssued(cert, certs[i]) then Some(true)
    else IssuedFrom(s, certs, cert, i + 1)
  }

  /** `verifiyFromCACerts(certsContext, verifyCert)`: is the certificate
      issued by one of the CA certificates? A certificate that does not
      parse throws. */
  function IssuedBy(s: Suite, certs: seq<string>, cert: string): (r: Option<bool>)
    ensures !s.x509Parses(cert) ==> r.None?
    ensures r.None? ==> !s.x509Parses(cert) || exists j | 0 <= j < |certs| :: !s.x509Parses(certs[j])
    ensures r == Some(true) ==> exists j | 0 <= j < |certs| :: s.checkIssued(cert, certs[j])
    ensures r == Some(false) ==> forall j | 0 <= j < |certs| :: s.x509Parses(certs[j]) && !s.checkIssued(cert, certs[j])
  {
    if !s.x509Parses(cert) then None else IssuedFrom(s, certs, cert, 0)
  }

  /** When every certificate parses, the check accepts exactly a
      certificate issued by some CA certificate; an empty CA list accepts
      none. */
  lemma IssuedByMeaning(s: Suite, certs: seq<string>, cert: string)
    requires s.x509Parses(cert)
    requires forall j | 0 <= j < |certs| :: s.x509Parses(certs[j])
    ensures IssuedBy(s, certs, cert) == Some(exists j | 0 <= j < |certs| :: s.checkIssued(cert, certs[j]))
  {
    var found := exists j | 0 <= j < |certs| :: s.checkIssued(cert, certs[j]);
    match IssuedBy(s, certs, cert)
    case None =>
    case Some(b) =>
      if b {
        assert found;
      } else {
        assert !found;
      }
  }

  /** The loop of `verifiyFromCACerts`, with its early return. */
  method VerifyFromCACerts(s: Suite, certs: seq<string>, cert: string) returns (r: Option<bool>)
    ensures r == IssuedBy(s, certs, cert)
  {
    if !s.x509Parses(cert) {
      return None;
    }
    var i := 0;
    while i < |certs|
      invariant 0 <= i <= |certs|
      invariant IssuedFrom(s, certs, cert, i) == IssuedBy(s, certs, cert)
    {
      if !s.x509Parses(certs[i]) {
        return None;
      }
      if s.checkIssued(cert, certs[i]) {
        return Some(true);
      }
      i := i + 1;
    }
    return Some(false);
  }

  // ---- the handshake ---------------------------------------------------------

  /** The client's handshake state: `dhPhase`, `publicKey` and `secret`. */
  datatype Session = Session(dhPhase: int, publicKey: Option<seq<byte>>, secret: Option<string>)

  const Initial: Session := Session(1, None, None)

  /** `handShakeInit`: the datagram asking for the hello. */
  const InitDatagram: seq<byte> := [0x01]

  /** The exceptions `handleHandShake` can raise. */
  datatype Failure =
    | HandShakeError    // `status` or `len` is zero: `'server handshake error'`
    | BadCertificate    // node-forge or `X509Certificate` refuses a PEM
    | BadServerKey      // `computeSecret` refuses the server's key

  datatype HandShakeOutcome =
    | Advanced(packet: seq<byte>)  // the key exchange is sent and the promise resolves
    | Rejected                     // the signature or the CA check fails: a warning, nothing else
    | Idle                         // not in phase 1
    | Thrown(failure: Failure)

  datatype HandShakeResult = HandShakeResult(session: Session, outcome: HandShakeOutcome)

  /** `handleHandShake(resolve, buffer)`, with `dh` the freshly generated
      ECDH key pair. */
  function HandShakeStep(s: Suite, certs: seq<string>, st: Session, buffer: seq<byte>, dh: KeyPair): HandShakeResult {
    if st.dhPhase != 1 then HandShakeResult(st, Idle)
    else
      var h := ParseHello(buffer);
      if h.status == 0 || h.len == 0 then HandShakeResult(st, Thrown(HandShakeError))
      else
        match s.certPublicKey(BytesText(h.cert))
        case None => HandShakeResult(st, Thrown(BadCertificate))
        case Some(pem) =>
          var isVerify := s.verify(pem, h.serverKey + h.cert, h.signature);
          match IssuedBy(s, certs, BytesText(h.cert))
          case None => HandShakeResult(st, Thrown(BadCertificate))
          case Some(isVerifyCACert) =>
            if !isVerify || !isVerifyCACert then HandShakeResult(st, Rejected)
            else
              var st1 := st.(publicKey := Some(dh.pub));
              match s.computeSecret(dh, h.serverKey)
              case None => HandShakeResult(st1, Thrown(BadServerKey))
              case Some(shared) =>
                HandShakeResult(st1.(secret := Some(Hex.Encode(s.sha256(shared))), dhPhase := 2),
                                Advanced(KeyExchange(s.publicEncrypt(pem, dh.pub))))
  }

  /** Only phase 1 reacts; a rejected or refused hello changes nothing but
      possibly the recorded public key; and the client reaches phase 2
      exactly when it sends the key exchange. */
  lemma HandShakeProgress(s: Suite, certs: seq<string>, st: Session, buffer: seq<byte>, dh: KeyPair)
    ensures var r := HandShakeStep(s, certs, st, buffer, dh);
      && (st.dhPhase != 1 ==> r == HandShakeResult(st, Idle))
      && (r.outcome.Rejected? ==> r.session == st)
      && (r.session.dhPhase == 2 && st.dhPhase != 2 <==> r.outcome.Advanced?)
      && (r.outcome.Advanced? ==> r.session.secret.Some? && r.session.publicKey == Some(dh.pub))
      && (!r.outcome.Advanced? ==> r.session.secret == st.secret && r.session.dhPhase == st.dhPhase)
    // a zero status bit or length byte is `'server handshake error'`
    ensures var r := HandShakeStep(s, certs, st, buffer, dh); var h := ParseHello(buffer);
      (r.outcome == Thrown(HandShakeError) <==> st.dhPhase == 1 && (h.status == 0 || h.len == 0))
      && (r.outcome == Thrown(HandShakeError) ==> r.session == st)
    // an unreadable certificate, or one the CA scan cannot parse, throws
    ensures var r := HandShakeStep(s, certs, st, buffer, dh); var h := ParseHello(buffer);
      var pem := s.certPublicKey(BytesText(h.cert)); var ca := IssuedBy(s, certs, BytesText(h.cert));
      r.outcome == Thrown(BadCertificate) <==>
        st.dhPhase == 1 && h.status != 0 && h.len != 0 && (pem.None? || ca.None?)
    // the hello is rejected exactly when the signature or the CA check fails
    ensures var r := HandShakeStep(s, certs, st, buffer, dh); var h := ParseHello(buffer);
      var pem := s.certPublicKey(BytesText(h.cert)); var ca := IssuedBy(s, certs, BytesText(h.cert));
      r.outcome.Rejected? <==>
        && st.dhPhase == 1 && h.status != 0 && h.len != 0 && pem.Some? && ca.Some?
        && !(s.verify(pem.value, h.serverKey + h.cert, h.signature) && ca == Some(true))
    // and it goes on only when both pass
    ensures var r := HandShakeStep(s, certs, st, buffer, dh); var h := ParseHello(buffer);
      var pem := s.certPublicKey(BytesText(h.cert));
      r.outcome.Advanced? ==>
        && st.dhPhase == 1 && h.status != 0 && h.len != 0 && pem.Some?
        && s.verify(pem.value, h.serverKey + h.cert, h.signature)
        && IssuedBy(s, certs, BytesText(h.cert)) == Some(true)
        && s.computeSecret(dh, h.serverKey).Some?
        && r.outcome.packet == KeyExchange(s.publicEncrypt(pem.value, dh.pub))
  {
  }

  /** The hello the server builds, with a 133-byte key and a 256-byte
      signature, is accepted when its signature verifies over the key and
      the certificate and the certificate passes the CA check: the client
      then holds the hexadecimal SHA-256 of the shared secret and answers
      with its public key encrypted to the certificate's key. */
  lemma HelloAccepted(s: Suite, certs: seq<string>, st: Session, serverKey: seq<byte>, signature: seq<byte>, ca: seq<byte>, dh: KeyPair, pem: string, shared: seq<byte>)
    requires st.dhPhase == 1
    requires |serverKey| == ServerKeyLength && |signature| == SignatureLength
    requires s.certPublicKey(BytesText(ca)) == Some(pem)
    requires s.verify(pem, serverKey + ca, signature)
    requires IssuedBy(s, certs, BytesText(ca)) == Some(true)
    requires s.computeSecret(dh, serverKey) == Some(shared)
    ensures HandShakeStep(s, certs, st, HelloReply(serverKey, signature, ca), dh)
      == HandShakeResult(Session(2, Some(dh.pub), Some(Hex.Encode(s.sha256(shared)))),
                         Advanced(KeyExchange(s.publicEncrypt(pem, dh.pub))))
  {
    HelloRoundTrip(serverKey, signature, ca);
  }

  /** A hello whose signature does not verify over the key and the
      certificate is rejected, and the client stays in phase 1. */
  lemma ForgedHelloRejected(s: Suite, certs: seq<string>, st: Session, serverKey: seq<byte>, signature: seq<byte>, ca: seq<byte>, dh: KeyPair, pem: string)
    requires st.dhPhase == 1
    requires |serverKey| == ServerKeyLength && |signature| == SignatureLength
    requires s.certPublicKey(BytesText(ca)) == Some(pem)
    requires !s.verify(pem, serverKey + ca, signature)
    requires IssuedBy(s, certs, BytesText(ca)).Some?
    ensures HandShakeStep(s, certs, st, HelloReply(serverKey, signature, ca), dh) == HandShakeResult(st, Rejected)
  {
    HelloRoundTrip(serverKey, signature, ca);
  }

  /** The whole handshake with the server: the client's `0x01` gets the
      hello from a session in phase 1 (or a new one), the client accepts
      it, and the key exchange it sends back gives the server's session the
      same secret the client now holds, in phase 2. The hypotheses are the
      facts about the primitives the exchange relies on: the server's key
      and signature sizes, a signature that verifies, a certificate the CA
      list accepts, RSA decryption undoing encryption, and ECDH agreeing on
      one shared secret from either side. */
  lemma KeyAgreement(cfg: Server.Config, s: Suite, certs: seq<string>, st: Server.State, remote: Server.RemoteInfo,
                     iv1: seq<byte>, iv2: seq<byte>, dh: KeyPair, pem: string, shared: seq<byte>,
                     r1: Server.StepResult, c: HandShakeResult, r2: Server.StepResult)
    requires ServerProps.SessionAfterLookup(st, remote).sInfo.phase == 1
    requires |cfg.ecdh.pub| == ServerKeyLength && |s.sign(cfg.key, cfg.ecdh.pub + cfg.ca)| == SignatureLength
    requires s.certPublicKey(BytesText(cfg.ca)) == Some(pem)
    requires s.verify(pem, cfg.ecdh.pub + cfg.ca, s.sign(cfg.key, cfg.ecdh.pub + cfg.ca))
    requires IssuedBy(s, certs, BytesText(cfg.ca)) == Some(true)
    requires s.computeSecret(dh, cfg.ecdh.pub) == Some(shared)
    requires s.privateDecrypt(cfg.key, s.publicEncrypt(pem, dh.pub)) == Some(dh.pub)
    requires s.computeSecret(cfg.ecdh, dh.pub) == Some(shared)
    requires r1 == Server.Step(cfg, s, st, InitDatagram, remote, iv1)
    requires c == HandShakeStep(s, certs, Initial, HelloReply(cfg.ecdh.pub, s.sign(cfg.key, cfg.ecdh.pub + cfg.ca), cfg.ca), dh)
    requires r2 == Server.Step(cfg, s, r1.state, KeyExchange(s.publicEncrypt(pem, dh.pub)), remote, iv2)
    ensures r1.emit.Emit? && r1.emit.packet == Server.Binary(HelloReply(cfg.ecdh.pub, s.sign(cfg.key, cfg.ecdh.pub + cfg.ca), cfg.ca))
    ensures c.session.dhPhase == 2 && c.session.secret.Some?
    ensures c.outcome == Advanced(KeyExchange(s.publicEncrypt(pem, dh.pub)))
    ensures Server.KeyOf(remote) in r2.state.connections
    ensures r2.state.connections[Server.KeyOf(remote)].sInfo == Server.HandShakeInfo(c.session.secret, 2)
    ensures r2.emit == Server.NoPacket
  {
    assert PhaseBits(InitDatagram) == 1;
    ServerProps.HelloStep(cfg, s, st, InitDatagram, remote, iv1);
    HelloAccepted(s, certs, Initial, cfg.ecdh.pub, s.sign(cfg.key, cfg.ecdh.pub + cfg.ca), cfg.ca, dh, pem, shared);
    var packet := KeyExchange(s.publicEncrypt(pem, dh.pub));
    KeyExchangeParses(s.publicEncrypt(pem, dh.pub));
    ServerProps.KeyExchangeStep(cfg, s, r1.state, packet, remote, iv2, dh.pub, shared);
  }

  // ---- the client object -----------------------------------------------------

  class NodeCacheClient {
    var dhPhase: int
    var publicKey: Option<seq<byte>>
    var secret: Option<string>
    /** Whether `client.close()` has been called. */
    var closed: bool
    const certsContext: seq<string>
    const suite: Suite

    constructor(certs: seq<string>, suite: Suite)
      ensures Snapshot() == Initial && !closed
      ensures certsContext == certs && this.suite == suite
    {
      certsContext := certs;
      this.suite := suite;
      dhPhase := 1;
      publicKey := None;
      secret := None;
      closed := false;
    }

    function Snapshot(): Session
      reads this
    {
      Session(dhPhase, publicKey, secret)
    }

    /** `handleHandShake(resolve, buffer)`; `dh` stands for the key pair
        `createECDH('secp521r1')` generates. */
    method HandleHandShake(buffer: seq<byte>, dh: KeyPair) returns (o: HandShakeOutcome)
      modifies this
      ensures Snapshot() == HandShakeStep(suite, certsContext, old(Snapshot()), buffer, dh).session
      ensures o == HandShakeStep(suite, certsContext, old(Snapshot()), buffer, dh).outcome
      ensures closed == old(closed)
    {
      if dhPhase != 1 {
        return Idle;
      }
      var h := ParseHello(buffer);
      if h.status == 0 || h.len == 0 {
        return Thrown(HandShakeError);
      }
      var certText := BytesText(h.cert);
      var pem := suite.certPublicKey(certText);
      if pem.None? {
        return Thrown(BadCertificate);
      }
      var isVerify := suite.verify(pem.value, h.serverKey + h.cert, h.signature);
      var isVerifyCACert := VerifyFromCACerts(suite, certsContext, certText);
      if isVerifyCACert.None? {
        return Thrown(BadCertificate);
      }
      if !isVerify || !isVerifyCACert.value {
        return Rejected;
      }
      publicKey := Some(dh.pub);
      var shared := suite.computeSecret(dh, h.serverKey);
      if shared.None? {
        return Thrown(BadServerKey);
      }
      secret := Some(Hex.Encode(suite.sha256(shared.value)));
      var encrypted := suite.publicEncrypt(pem.value, dh.pub);
      dhPhase := dhPhase + 1;
      return Advanced(KeyExchange(encrypted));
    }

    /** `handShakeTimeout`'s callback: the socket is closed unless the
        handshake reached phase 2. */
    method HandShakeTimeout()
      modifies this
      ensures closed == (old(closed) || dhPhase != 2)
      ensures Snapshot() == old(Snapshot())
    {
      if dhPhase != 2 {
        closed := true;
      }
    }

    /** `get`, `set`, `del`, `ping` and `close`: the datagram each sends;
        `iv` stands for `randomBytes(16)`. */
    method Send(op: Op, iv: seq<byte>) returns (d: Option<seq<byte>>)
      ensures d == Request(suite, secret, op, iv)
    {
      if secret.None? {
        return None;
      }
      var r := EncryptPlainText(suite, secret.value, OpText(op), iv);
      d := Some([0x82] + r.iv + r.tag + AsciiBytes(r.encrypted));
      Hex.HexIsAscii(r.encrypted);
    }

    /** `handleResponse(resolve, buffer)`. */
    method HandleResponse(buffer: seq<byte>) returns (r: Reply)
      ensures r == Response.HandleResponse(suite, ReplyKey(suite, secret), dhPhase, buffer)
    {
      r := Response.HandleResponse(suite, ReplyKey(suite, secret), dhPhase, buffer);
    }
  }
}
