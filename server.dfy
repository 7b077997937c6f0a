/** The cache server (src/index.ts): one handler per datagram, over two
    dictionaries. `connections` maps `"address:port"` to the session of
    that endpoint; `cache` maps keys to stored values. A datagram whose
    header has bit 7 clear is a handshake step; one with bit 7 set is an
    encrypted command line `op CRLF key CRLF value`. Replies are gated:
    they go only to IPv4 endpoints that still have a session. */
module Server {
  import opened Wire
  import opened Text
  import Hex
  import opened Crypto
  import Aes
  import opened Frame

  /** `dgram.RemoteInfo`, the sender of a datagram. */
  datatype RemoteInfo = RemoteInfo(address: string, family: string, port: nat)

  /** `HandShakeInfo`: the session secret (`null` until the key exchange)
      and the handshake phase. */
  datatype HandShakeInfo = HandShakeInfo(secret: Option<string>, phase: nat)

  /** `Connection`: where the session's replies go, and its handshake. */
  datatype Connection = Connection(rInfo: RemoteInfo, sInfo: HandShakeInfo)

  datatype CacheEntry = CacheEntry(value: string, length: nat)

  /** What `initServer` prepares: the PEM private key, the bytes of the PEM
      certificate (`Buffer.from(ca)`) and the one long-term ECDH key pair
      every session shares. */
  datatype Config = Config(key: string, ca: seq<byte>, ecdh: KeyPair)

  /** What the handler hands to `emit('response', ...)`: text, or the
      binary hello. */
  datatype Packet = Text(text: string) | Binary(bytes: seq<byte>)

  /** The exceptions the handler can raise. */
  datatype Failure =
    | NoSession         // a command from an endpoint without a session: `connect.sInfo` on `undefined`
    | NoSecret          // a command before the key exchange: `null.slice`
    | DecryptFailed     // the decipher refuses the IV, tag or ciphertext
    | NoValue           // `SET` without a value field: `undefined.length`
    | KeyDecryptFailed  // `privateDecrypt` refuses the key exchange payload
    | BadPeerKey        // `computeSecret` refuses the decrypted client key

  /** What one datagram leads to: a response handed to the reply gate, no
      reply (`noPacket`), or an exception. */
  datatype Emit = Emit(rInfo: RemoteInfo, packet: Packet) | NoPacket | Thrown(failure: Failure)

  /** What leaves the server: a datagram to an address and port, nothing,
      or an exception. */
  datatype Outcome = Sent(address: string, port: nat, packet: Packet) | Silent | Failed(failure: Failure)

  datatype State = State(connections: map<string, Connection>, cache: map<string, CacheEntry>)

  datatype StepResult = StepResult(state: State, emit: Emit)

  // ---- constants --------------------------------------------------------

  const HandShakeOp: string := "HandShake"
  /** `OK` is `Buffer.from([0x1])`; concatenated into a string it becomes
      the one character U+0001. */
  const Ok: string := [1 as char]
  /** `ZERO`. */
  const Zero: string := "0" + CRLF
  /** The reply text to `SET`, to `DEL` and to `GET` on a missing key. */
  const NullReply: string := Ok + Zero + "NULL"
  const PongReply: string := "OK\r\n4\r\nPONG"

  /** `address + ':' + port`, the key of a session. */
  function EndpointKey(address: string, port: nat): (k: string)
    ensures |k| == |address| + 1 + |Decimal(port)|
  {
    address + ":" + Decimal(port)
  }

  function KeyOf(r: RemoteInfo): string {
    EndpointKey(r.address, r.port)
  }

  /** A fresh session, as the handler records it. */
  function NewConnection(remote: RemoteInfo): (c: Connection)
    ensures c.rInfo == remote && c.sInfo.secret.None? && c.sInfo.phase == 1
  {
    Connection(remote, HandShakeInfo(None, 1))
  }

  // ---- the command line -------------------------------------------------

  datatype Command = Command(op: string, key: Option<string>, value: Option<string>)

  /** `decrypted.split(DELIMITER)`, fields 0, 1 and 2. */
  function ParseCommand(decrypted: string): (c: Command)
    ensures c.op == Split(decrypted, CRLF)[0]
    ensures c.key == Field(Split(decrypted, CRLF), 1)
    ensures c.value == Field(Split(decrypted, CRLF), 2)
  {
    var s := Split(decrypted, CRLF);
    Command(s[0], Field(s, 1), Field(s, 2))
  }

  /** A missing key field is `undefined`, which names the property
      `"undefined"` when used as a dictionary key. */
  function KeyName(key: Option<string>): (name: string)
    ensures key.Some? ==> name == key.value
    ensures key.None? ==> name == "undefined"
  {
    match key
    case None => "undefined"
    case Some(k) => k
  }

  /** The reply text to `GET`. */
  function GetReply(cache: map<string, CacheEntry>, name: string): (r: string)
    ensures name in cache ==> r == Ok + Decimal(cache[name].length) + CRLF + cache[name].value
    ensures name !in cache ==> r == NullReply
  {
    Ok + (if name in cache then Decimal(cache[name].length) + CRLF + cache[name].value else Zero + "NULL")
  }

  /** The message of the error reply. */
  function NotFound(op: string): (m: string)
    ensures |m| == 21 + |op|
  {
    "`" + op + "` command not found."
  }

  /** The reply text to an unknown operation: `ERR`, the length of the
      message and the message, one per line. */
  function ErrReply(op: string): (r: string)
    ensures r == "ERR" + CRLF + Decimal(|NotFound(op)|) + CRLF + NotFound(op)
  {
    "ERR\r\n" + Decimal(21 + |op|) + CRLF + NotFound(op)
  }

  // ---- one datagram -----------------------------------------------------

  /** The handshake case: `phase = buffer[0] & 0x3`, then two separate
      tests. Phase 1 answers the hello and moves to phase 2; phase 2 with
      a key exchange sets the secret and sends nothing. The session must
      exist (it was found or just recorded). */
  function HandShake(cfg: Config, s: Suite, st: State, k: string, buffer: seq<byte>): StepResult
    requires k in st.connections
  {
    var c := st.connections[k];
    var p := PhaseBits(buffer);
    var hello := AsksHello(p) && c.sInfo.phase == 1;
    var packet :=
      if hello then Binary(HelloReply(cfg.ecdh.pub, s.sign(cfg.key, cfg.ecdh.pub + cfg.ca), cfg.ca))
      else Text("");
    var c1 := if hello then c.(sInfo := c.sInfo.(phase := c.sInfo.phase + 1)) else c;
    var st1 := st.(connections := st.connections[k := c1]);
    if CarriesKey(p) && c1.sInfo.phase == 2 then
      match s.privateDecrypt(cfg.key, Drop(buffer, 2))
      case None => StepResult(st1, Thrown(KeyDecryptFailed))
      case Some(clientKey) =>
        match s.computeSecret(cfg.ecdh, clientKey)
        case None => StepResult(st1, Thrown(BadPeerKey))
        case Some(shared) =>
          var c2 := c1.(sInfo := c1.sInfo.(secret := Some(Hex.Encode(s.sha256(shared)))));
          StepResult(st1.(connections := st1.connections[k := c2]), NoPacket)
    else StepResult(st1, Emit(c1.rInfo, packet))
  }

  /** The switch on the decrypted operation, for the session under `k`
      whose secret is `secret`; `iv` is the random IV of the reply. */
  function Dispatch(cfg: Config, s: Suite, st: State, k: string, secret: string, cmd: Command, buffer: seq<byte>, iv: seq<byte>): StepResult
    requires k in st.connections
  {
    var to := st.connections[k].rInfo;
    var name := KeyName(cmd.key);
    if cmd.op == HandShakeOp then HandShake(cfg, s, st, k, buffer)
    else if cmd.op == "SET" then
      match cmd.value
      case None => StepResult(st, Thrown(NoValue))
      case Some(v) =>
        StepResult(st.(cache := st.cache[name := CacheEntry(v, |v|)]),
                   Emit(to, Text(Aes.EncryptPlainText(s, secret, NullReply, iv))))
    else if cmd.op == "DEL" then
      StepResult(st.(cache := st.cache - {name}), Emit(to, Text(Aes.EncryptPlainText(s, secret, NullReply, iv))))
    else if cmd.op == "GET" then
      StepResult(st, Emit(to, Text(Aes.EncryptPlainText(s, secret, GetReply(st.cache, name), iv))))
    else if cmd.op == "PING" then
      StepResult(st, Emit(to, Text(Aes.EncryptPlainText(s, secret, PongReply, iv))))
    else if cmd.op == "CLOSE" then
      StepResult(st.(connections := st.connections - {k}), NoPacket)
    else
      StepResult(st, Emit(to, Text(Aes.EncryptPlainText(s, secret, ErrReply(cmd.op), iv))))
  }

  /** The `'message'` handler on a datagram `buffer` from `remote`. */
  function Step(cfg: Config, s: Suite, st: State, buffer: seq<byte>, remote: RemoteInfo, iv: seq<byte>): StepResult {
    var k := KeyOf(remote);
    if IsCommand(buffer) then
      if k !in st.connections then StepResult(st, Thrown(NoSession))
      else
        var c := st.connections[k];
        var f := ParseCommandFrame(buffer);
        match c.sInfo.secret
        case None => StepResult(st, Thrown(NoSecret))
        case Some(secret) =>
          match Aes.DecryptData(s, c.sInfo.secret, f.iv, f.tag, f.encrypted)
          case None => StepResult(st, Thrown(DecryptFailed))
          case Some(decrypted) => Dispatch(cfg, s, st, k, secret, ParseCommand(decrypted), buffer, iv)
    else
      var st1 := if k in st.connections then st else st.(connections := st.connections[k := NewConnection(remote)]);
      HandShake(cfg, s, st1, k, buffer)
  }

  /** `handleServerResponse`: a response goes out only to an IPv4 endpoint
      that still has a session. */
  function Gate(st: State, e: Emit): (o: Outcome)
    ensures e.Thrown? ==> o == Failed(e.failure)
    ensures e.NoPacket? ==> o == Silent
    ensures e.Emit? ==> (o.Sent? <==> e.rInfo.family == "IPv4" && KeyOf(e.rInfo) in st.connections)
    ensures o.Sent? ==> e.Emit? && o == Sent(e.rInfo.address, e.rInfo.port, e.packet)
  {
    match e
    case Thrown(f) => Failed(f)
    case NoPacket => Silent
    case Emit(r, packet) =>
      if r.family == "IPv4" && KeyOf(r) in st.connections then Sent(r.address, r.port, packet) else Silent
  }

  /** The server object: its two dictionaries, updated in place by each
      datagram, and what `initServer` prepared. */
  class NodeCacheUdp {
    var connections: map<string, Connection>
    var cache: map<string, CacheEntry>
    const config: Config
    const suite: Suite

    constructor(config: Config, suite: Suite)
      ensures connections == map[] && cache == map[]
      ensures this.config == config && this.suite == suite
    {
      this.config := config;
      this.suite := suite;
      connections := map[];
      cache := map[];
    }

    function Snapshot(): State
      reads this
    {
      State(connections, cache)
    }

    /** The handshake case on the session under `k`, updating the session
        in place. */
    method HandShakeCase(k: string, buffer: seq<byte>) returns (e: Emit)
      requires k in connections
      modifies this
      ensures Snapshot() == HandShake(config, suite, old(Snapshot()), k, buffer).state
      ensures e == HandShake(config, suite, old(Snapshot()), k, buffer).emit
    {
      var connect := connections[k];
      var phase := PhaseBits(buffer);
      var packet := Text("");
      if AsksHello(phase) && connect.sInfo.phase == 1 {
        var signature := suite.sign(config.key, config.ecdh.pub + config.ca);
        packet := Binary(HelloReply(config.ecdh.pub, signature, config.ca));
        connect := connect.(sInfo := connect.sInfo.(phase := connect.sInfo.phase + 1));
      }
      connections := connections[k := connect];
      if CarriesKey(phase) && connect.sInfo.phase == 2 {
        var decrypted := suite.privateDecrypt(config.key, Drop(buffer, 2));
        if decrypted.None? {
          return Thrown(KeyDecryptFailed);
        }
        var shared := suite.computeSecret(config.ecdh, decrypted.value);
        if shared.None? {
          return Thrown(BadPeerKey);
        }
        connect := connect.(sInfo := connect.sInfo.(secret := Some(Hex.Encode(suite.sha256(shared.value)))));
        connections := connections[k := connect];
        return NoPacket;
      }
      return Emit(connect.rInfo, packet);
    }

    /** The `'message'` handler: one datagram `buffer` from `remote`; `iv`
        is the random IV an encrypted reply uses. */
    method OnMessage(buffer: seq<byte>, remote: RemoteInfo, iv: seq<byte>) returns (out: Outcome)
      modifies this
      ensures Snapshot() == Step(config, suite, old(Snapshot()), buffer, remote, iv).state
      ensures out == Gate(Snapshot(), Step(config, suite, old(Snapshot()), buffer, remote, iv).emit)
    {
      var k := KeyOf(remote);
      var isHandShaked := IsCommand(buffer);
      var e: Emit;
      if isHandShaked {
        if k !in connections {
          // `op` stays undefined and the default case reads `connect.sInfo`.
          return Failed(NoSession);
        }
        var connect := connections[k];
        var f := ParseCommandFrame(buffer);
        if connect.sInfo.secret.None? {
          return Failed(NoSecret);
        }
        var secret := connect.sInfo.secret.value;
        var decrypted := Aes.DecryptData(suite, connect.sInfo.secret, f.iv, f.tag, f.encrypted);
        if decrypted.None? {
          return Failed(DecryptFailed);
        }
        var cmd := ParseCommand(decrypted.value);
        var name := KeyName(cmd.key);
        if cmd.op == HandShakeOp {
          e := HandShakeCase(k, buffer);
        } else if cmd.op == "SET" {
          if cmd.value.None? {
            return Failed(NoValue);
          }
          var v := cmd.value.value;
          cache := cache[name := CacheEntry(v, |v|)];
          e := Emit(connect.rInfo, Text(Aes.EncryptPlainText(suite, secret, NullReply, iv)));
        } else if cmd.op == "DEL" {
          cache := cache - {name};
          e := Emit(connect.rInfo, Text(Aes.EncryptPlainText(suite, secret, NullReply, iv)));
        } else if cmd.op == "GET" {
          e := Emit(connect.rInfo, Text(Aes.EncryptPlainText(suite, secret, GetReply(cache, name), iv)));
        } else if cmd.op == "PING" {
          e := Emit(connect.rInfo, Text(Aes.EncryptPlainText(suite, secret, PongReply, iv)));
        } else if cmd.op == "CLOSE" {
          connections := connections - {k};
          e := NoPacket;
        } else {
          e := Emit(connect.rInfo, Text(Aes.EncryptPlainText(suite, secret, ErrReply(cmd.op), iv)));
        }
      } else {
        if k !in connections {
          connections := connections[k := NewConnection(remote)];
        }
        e := HandShakeCase(k, buffer);
      }
      out := HandleServerResponse(e);
    }

    /** `handleServerResponse`, applied to what the handler emitted. */
    method HandleServerResponse(e: Emit) returns (out: Outcome)
      ensures out == Gate(Snapshot(), e)
    {
      match e {
        case Thrown(f) => out := Failed(f);
        case NoPacket => out := Silent;
        case Emit(rInfo, packet) =>
          if rInfo.family == "IPv4" {
            var client := KeyOf(rInfo) in connections;
            if client {
              return Sent(rInfo.address, rInfo.port, packet);
            }
          }
          out := Silent;
      }
    }
  }
}
