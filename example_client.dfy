/** The example client (examples/nodeclient.js). It starts in phase 0 and
    sends the byte 0x01. It reads the first reply as CRLF-separated text
    whose third field is the server key in base64, derives the secret,
    sends `0x02` followed by its own public key, and moves to phase 1; the
    next datagram moves it to phase 2. Requests carry the operation, the
    key and the value, sealed under the first 32 characters of the secret,
    which is the key the server opens them with. */
module ExampleClient {
  import opened Wire
  import opened Text
  import Hex
  import Base64
  import opened Crypto
  import opened Frame
  import Aes
  import Server
  import ServerProps
  import opened Response

  // ---- requests ----------------------------------------------------------

  /** `op + key + value` as each call passes them to `encryptPlainText`. */
  function PlainText(op: Op): string {
    match op
    case Get(k) => "GET\r\n" + k
    case Set(k, v) => "SET\r\n" + k + "\r\n" + v
    case Del(k) => "DEL\r\n" + k
    case Ping => "PING"
    case Close => "CLOSE"
  }

  /** The command each call means the server to run. */
  function CommandOf(op: Op): Server.Command {
    match op
    case Get(k) => Server.Command("GET", Some(k), None)
    case Set(k, v) => Server.Command("SET", Some(k), Some(v))
    case Del(k) => Server.Command("DEL", Some(k), None)
    case Ping => Server.Command("PING", None, None)
    case Close => Server.Command("CLOSE", None, None)
  }

  /** Keys and values without CRLF, the only ones the line format can
      carry. */
  predicate Sendable(op: Op) {
    match op
    case Get(k) => !Contains(k, CRLF)
    case Set(k, v) => !Contains(k, CRLF) && !Contains(v, CRLF)
    case Del(k) => !Contains(k, CRLF)
    case Ping => true
    case Close => true
  }

  /** The server reads each request text as the call's command exactly
      when its key and value hold no CRLF. */
  lemma RequestParses(op: Op)
    requires Sendable(op)
    ensures Server.ParseCommand(PlainText(op)) == CommandOf(op)
  {
    match op
    case Get(k) =>
      assert PlainText(op) == "GET" + CRLF + k;
      KeyLine("GET", k);
    case Set(k, v) =>
      assert PlainText(op) == "SET" + CRLF + k + CRLF + v;
      KeyValueLine("SET", k, v);
    case Del(k) =>
      assert PlainText(op) == "DEL" + CRLF + k;
      KeyLine("DEL", k);
    case Ping => BareLine("PING");
    case Close => BareLine("CLOSE");
  }

  /** A value holding CRLF is cut at its first CRLF: the server stores only
      what comes before, whatever follows. */
  lemma ValueCutAtCrlf(k: string, v1: string, v2: string)
    requires !Contains(k, CRLF) && !Contains(v1, CRLF)
    ensures Server.ParseCommand(PlainText(Set(k, v1 + CRLF + v2))).value == Some(v1)
  {
    assert PlainText(Set(k, v1 + CRLF + v2)) == "SET" + CRLF + (k + CRLF + (v1 + CRLF + v2));
    NoCrlf("SET");
    SplitCons("SET", CRLF, k + CRLF + (v1 + CRLF + v2));
    SplitCons(k, CRLF, v1 + CRLF + v2);
    SplitCons(v1, CRLF, v2);
  }

  /** `secretKey.slice(0, 32)`, the key of both directions; computing it
      throws while there is no secret. */
  function KeyFor(secretKey: Option<string>): (k: Option<string>)
    ensures k.Some? <==> secretKey.Some?
    ensures secretKey.Some? ==> k == Some(Aes.Key(secretKey.value))
  {
    match secretKey
    case None => None
    case Some(t) => Some(Aes.Key(t))
  }

  /** The datagram a call sends, `0x82 ++ iv ++ tag ++ encrypted`; `iv`
      stands for `randomBytes(16)`. */
  function Datagram(s: Suite, secretKey: Option<string>, op: Op, iv: seq<byte>): (d: Option<seq<byte>>)
    ensures d.Some? <==> secretKey.Some?
  {
    match KeyFor(secretKey)
    case None => None
    case Some(key) =>
      var c := s.seal(key, iv, PlainText(op));
      Some(RequestFrame(iv, c.tag, c.ct))
  }

  /** A request the client sends with the secret the server's session
      holds reaches the server as the call's command: the frame is a
      command, it opens under the session's key, and the server runs the
      command the call names. */
  lemma RequestReachesServer(cfg: Server.Config, s: Suite, st: Server.State, remote: Server.RemoteInfo, secretKey: string, op: Op, iv: seq<byte>, replyIv: seq<byte>)
    requires Lawful(s) && |iv| == 16 && Sendable(op)
    requires Server.KeyOf(remote) in st.connections
    requires st.connections[Server.KeyOf(remote)].sInfo.secret == Some(secretKey)
    ensures var d := Datagram(s, Some(secretKey), op, iv);
      && d.Some?
      && Server.Step(cfg, s, st, d.value, remote, replyIv)
         == Server.Dispatch(cfg, s, st, Server.KeyOf(remote), secretKey, CommandOf(op), d.value, replyIv)
  {
    var c := s.seal(Aes.Key(secretKey), iv, PlainText(op));
    var d := RequestFrame(iv, c.tag, c.ct);
    RequestFrameParses(iv, c.tag, c.ct);
    assert s.open(Aes.Key(secretKey), iv, c.tag, c.ct) == Some(PlainText(op));
    ServerProps.CommandStep(cfg, s, st, d, remote, replyIv, secretKey, PlainText(op));
    RequestParses(op);
  }

  /** What a client that shares the session's secret makes of the server's
      answer to each call: `ping` resolves with `"PONG"` (in phase 2),
      `get`, `set` and `del` are answered with text the client ignores, so
      their promises never resolve, and `close` gets no answer. */
  lemma CallOutcome(cfg: Server.Config, s: Suite, st: Server.State, remote: Server.RemoteInfo, secretKey: string, op: Op, iv: seq<byte>, replyIv: seq<byte>, dhPhase: int, r: Server.StepResult)
    requires Lawful(s) && |iv| == 16 && Sendable(op)
    requires Server.KeyOf(remote) in st.connections
    requires st.connections[Server.KeyOf(remote)].sInfo.secret == Some(secretKey)
    requires Datagram(s, Some(secretKey), op, iv).Some?
    requires r == Server.Step(cfg, s, st, Datagram(s, Some(secretKey), op, iv).value, remote, replyIv)
    ensures op.Close? <==> r.emit.NoPacket?
    ensures !op.Close? ==>
      && r.emit.Emit? && r.emit.packet.Text? && IsAscii(r.emit.packet.text)
      && Response.HandleResponse(s, KeyFor(Some(secretKey)), dhPhase, AsciiBytes(r.emit.packet.text))
         == (if op.Ping? && dhPhase == 2 then Resolved(Some("PONG")) else Ignored)
  {
    RequestReachesServer(cfg, s, st, remote, secretKey, op, iv, replyIv);
    AnswerOutcome(cfg, s, st, Server.KeyOf(remote), secretKey, op, Datagram(s, Some(secretKey), op, iv).value, replyIv, dhPhase, r);
  }

  lemma AnswerOutcome(cfg: Server.Config, s: Suite, st: Server.State, k: string, secretKey: string, op: Op, buffer: seq<byte>, replyIv: seq<byte>, dhPhase: int, r: Server.StepResult)
    requires Lawful(s) && k in st.connections
    requires r == Server.Dispatch(cfg, s, st, k, secretKey, CommandOf(op), buffer, replyIv)
    ensures op.Close? <==> r.emit.NoPacket?
    ensures !op.Close? ==>
      && r.emit.Emit? && r.emit.packet.Text? && IsAscii(r.emit.packet.text)
      && Response.HandleResponse(s, KeyFor(Some(secretKey)), dhPhase, AsciiBytes(r.emit.packet.text))
         == (if op.Ping? && dhPhase == 2 then Resolved(Some("PONG")) else Ignored)
  {
    match op
    case Get(key) =>
      ServerProps.GetAnswers(cfg, s, st, k, secretKey, Some(key), None, buffer, replyIv);
      ReplyRoundTrip(s, secretKey, Server.GetReply(st.cache, key), replyIv, dhPhase);
      CacheRepliesIgnored(dhPhase, st.cache, key);
    case Set(key, v) =>
      ServerProps.SetStores(cfg, s, st, k, secretKey, Some(key), Some(v), buffer, replyIv);
      ReplyRoundTrip(s, secretKey, Server.NullReply, replyIv, dhPhase);
      CacheRepliesIgnored(dhPhase, st.cache, key);
    case Del(key) =>
      ServerProps.DelRemovesOnly(cfg, s, st, k, secretKey, Some(key), None, buffer, replyIv, key + "x");
      ReplyRoundTrip(s, secretKey, Server.NullReply, replyIv, dhPhase);
      CacheRepliesIgnored(dhPhase, st.cache, key);
    case Ping =>
      ServerProps.PingIgnoresCache(cfg, s, st, k, secretKey, None, None, buffer, replyIv, st.cache);
      ReplyRoundTrip(s, secretKey, Server.PongReply, replyIv, dhPhase);
      PongResolves(dhPhase);
    case Close =>
      ServerProps.CloseRemovesSession(cfg, s, st, k, secretKey, None, None, buffer, replyIv);
  }

  // ---- the handshake -------------------------------------------------------

  /** The client's handshake state: `dhPhase`, `cKey`, `sKey` and
      `secretKey`. */
  datatype Session = Session(dhPhase: int, cKey: Option<seq<byte>>, sKey: Option<string>, secretKey: Option<string>)

  const Initial: Session := Session(0, None, None, None)

  /** `handShakeInit`: the datagram asking for the hello. */
  const InitDatagram: seq<byte> := [0x01]

  /** The exceptions `handleHandShake` can raise. */
  datatype Failure =
    | NoServerKey    // the reply has no third line: `Buffer.from(undefined, 'base64')` throws
    | BadServerKey   // the third line is not base64, or `computeSecret` refuses the key

  datatype HandShakeOutcome =
    | SentKey(packet: seq<byte>)  // `handShakeLast` sent `0x02 ++ cKey`
    | Ready                       // the promise resolves with the client
    | Idle                        // phase 2 or beyond: nothing happens
    | Thrown(failure: Failure)

  datatype HandShakeResult = HandShakeResult(session: Session, outcome: HandShakeOutcome)

  /** `handShakeLast`: `0x02` followed by the client's public key. */
  function KeyDatagram(cKey: seq<byte>): seq<byte> {
    [0x02] + cKey
  }

  /** `handleHandShake(resolve, buffer)`, with `dh` the key pair that
      `createECDH('secp521r1')` and `generateKeys()` produce. `sKey` and
      `cKey` are recorded before the secret is computed, so they stay set
      when that throws. */
  function HandShakeStep(s: Suite, st: Session, buffer: seq<byte>, dh: KeyPair): HandShakeResult {
    var msg := Field(Split(BytesText(buffer), CRLF), 2);
    if st.dhPhase == 0 then
      var st1 := st.(sKey := msg, cKey := Some(dh.pub));
      match msg
      case None => HandShakeResult(st1, Thrown(NoServerKey))
      case Some(sKey) =>
        match Base64.Decode(sKey)
        case None => HandShakeResult(st1, Thrown(BadServerKey))
        case Some(serverKey) =>
          match s.computeSecret(dh, serverKey)
          case None => HandShakeResult(st1, Thrown(BadServerKey))
          case Some(shared) =>
            HandShakeResult(st1.(secretKey := Some(Hex.Encode(s.sha256(shared))), dhPhase := 1),
                            SentKey(KeyDatagram(dh.pub)))
    else if st.dhPhase == 1 then HandShakeResult(st.(dhPhase := 2), Ready)
    else HandShakeResult(st, Idle)
  }

  /** Each datagram moves the phase on by at most one: from 0 only by
      sending the key, which also sets the secret, from 1 always, by
      resolving; every other phase ignores the datagram. */
  lemma HandShakeProgress(s: Suite, st: Session, buffer: seq<byte>, dh: KeyPair)
    ensures var r := HandShakeStep(s, st, buffer, dh);
      && (r.outcome.SentKey? <==> st.dhPhase == 0 && r.session.dhPhase == 1)
      && (r.outcome.SentKey? ==> r.outcome.packet == KeyDatagram(dh.pub) && r.session.secretKey.Some?)
      && (r.outcome.Ready? <==> st.dhPhase == 1)
      && (r.outcome.Ready? ==> r.session == st.(dhPhase := 2))
      && (r.outcome.Thrown? ==> st.dhPhase == 0 && r.session.dhPhase == 0 && r.session.secretKey == st.secretKey)
      && (st.dhPhase !in {0, 1} <==> r == HandShakeResult(st, Idle))
  {
  }

  /** A first reply whose third line is the base64 of a key `computeSecret`
      accepts leaves the client in phase 1 with the hexadecimal SHA-256 of
      the shared secret, after sending its public key. */
  lemma ServerKeyAccepted(s: Suite, st: Session, buffer: seq<byte>, status: string, length: string, serverKey: seq<byte>, dh: KeyPair, shared: seq<byte>)
    requires st.dhPhase == 0
    requires !Contains(status, CRLF) && !Contains(length, CRLF)
    requires BytesText(buffer) == status + CRLF + length + CRLF + Base64.Encode(serverKey)
    requires s.computeSecret(dh, serverKey) == Some(shared)
    ensures HandShakeStep(s, st, buffer, dh)
      == HandShakeResult(Session(1, Some(dh.pub), Some(Base64.Encode(serverKey)), Some(Hex.Encode(s.sha256(shared)))),
                         SentKey(KeyDatagram(dh.pub)))
  {
    var b := Base64.Encode(serverKey);
    Base64.EncodeAlphabet(serverKey);
    Aes.Base64Avoids(b, CRLF);
    SplitThree(status, length, b, CRLF);
    Base64.RoundTrip(serverKey);
  }

  /** The server's binary hello does not match this client: read as text
      with no CRLF, it has no third line, so the client throws in phase 0
      with its own key recorded and no secret. */
  lemma BinaryHelloThrows(s: Suite, st: Session, buffer: seq<byte>, dh: KeyPair)
    requires st.dhPhase == 0 && !Contains(BytesText(buffer), CRLF)
    ensures HandShakeStep(s, st, buffer, dh)
      == HandShakeResult(st.(sKey := None, cKey := Some(dh.pub)), Thrown(NoServerKey))
  {
    SplitOne(BytesText(buffer), CRLF);
  }

  /** The key datagram reaches the server as a key exchange whose payload,
      read from offset 2, is the client's key without its first byte. */
  lemma KeyDatagramAtServer(cKey: seq<byte>)
    requires |cKey| >= 1
    ensures !IsCommand(KeyDatagram(cKey)) && CarriesKey(PhaseBits(KeyDatagram(cKey))) && !AsksHello(PhaseBits(KeyDatagram(cKey)))
    ensures Drop(KeyDatagram(cKey), 2) == cKey[1..]
  {
  }

  // ---- the client object -----------------------------------------------------

  class NodeCacheClient {
    var dhPhase: int
    var cKey: Option<seq<byte>>
    var sKey: Option<string>
    var secretKey: Option<string>
    /** Whether the socket has been closed. */
    var closed: bool
    const suite: Suite

    constructor(suite: Suite)
      ensures Snapshot() == Initial && !closed && this.suite == suite
    {
      this.suite := suite;
      dhPhase := 0;
      cKey := None;
      sKey := None;
      secretKey := None;
      closed := false;
    }

    function Snapshot(): Session
      reads this
    {
      Session(dhPhase, cKey, sKey, secretKey)
    }

    /** `handleHandShake(resolve, buffer)`. */
    method HandleHandShake(buffer: seq<byte>, dh: KeyPair) returns (o: HandShakeOutcome)
      modifies this
      ensures Snapshot() == HandShakeStep(suite, old(Snapshot()), buffer, dh).session
      ensures o == HandShakeStep(suite, old(Snapshot()), buffer, dh).outcome
      ensures closed == old(closed)
    {
      var msg := Field(Split(BytesText(buffer), CRLF), 2);
      if dhPhase == 0 {
        sKey := msg;
        cKey := Some(dh.pub);
        if msg.None? {
          return Thrown(NoServerKey);
        }
        var serverKey := Base64.Decode(msg.value);
        if serverKey.None? {
          return Thrown(BadServerKey);
        }
        var shared := suite.computeSecret(dh, serverKey.value);
        if shared.None? {
          return Thrown(BadServerKey);
        }
        secretKey := Some(Hex.Encode(suite.sha256(shared.value)));
        o := SentKey(KeyDatagram(dh.pub));
        dhPhase := dhPhase + 1;
      } else if dhPhase == 1 {
        dhPhase := dhPhase + 1;
        o := Ready;
      } else {
        o := Idle;
      }
    }

    /** `handShakeTimeout`'s callback: the socket is closed unless the
        handshake reached phase 2. */
    method HandShakeTimeout()
      modifies this
      ensures closed == (old(closed) || dhPhase != 2)
      ensures Snapshot() == old(Snapshot())
    {
      if dhPhase != 2 {
        closed := true;
      }
    }

    /** `get`, `set`, `del`, `ping` and `close`: the datagram each sends. */
    method Send(op: Op, iv: seq<byte>) returns (d: Option<seq<byte>>)
      ensures d == Datagram(suite, secretKey, op, iv)
    {
      if secretKey.None? {
        return None;
      }
      var key := Aes.Key(secretKey.value);
      var c := suite.seal(key, iv, PlainText(op));
      d := Some(RequestFrame(iv, c.tag, c.ct));
    }

    /** `handleResponse(resolve, buffer)`. */
    method HandleResponse(buffer: seq<byte>) returns (r: Reply)
      ensures r == Response.HandleResponse(suite, KeyFor(secretKey), dhPhase, buffer)
    {
      r := Response.HandleResponse(suite, KeyFor(secretKey), dhPhase, buffer);
    }
  }
}
