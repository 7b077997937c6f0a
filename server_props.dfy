/** What one datagram does to the server's two dictionaries and what it
    answers, stated against `Server.Step`. */
module ServerProps {
  import opened Wire
  import opened Text
  import Hex
  import opened Crypto
  import Aes
  import opened Frame
  import opened Server

  // ---- the invariant ------------------------------------------------------

  /** A session is in phase 1 or 2, holds a secret only in phase 2, and
      is filed under its own endpoint's key. */
  predicate SessionValid(k: string, c: Connection) {
    && 1 <= c.sInfo.phase <= 2
    && (c.sInfo.secret.Some? ==> c.sInfo.phase == 2)
    && KeyOf(c.rInfo) == k
  }

  /** A cache entry records its value's length, and the value holds no
      CRLF. */
  predicate EntryValid(e: CacheEntry) {
    e.length == |e.value| && !Contains(e.value, CRLF)
  }

  predicate Valid(st: State) {
    && (forall k | k in st.connections :: SessionValid(k, st.connections[k]))
    && (forall k | k in st.cache :: EntryValid(st.cache[k]))
  }

  lemma EmptyValid()
    ensures Valid(State(map[], map[]))
  {
  }

  /** The handshake case rewrites only the session under `k`: it keeps
      its destination, its phase goes from 1 to 2 at most, its secret
      changes only in phase 2, and what it emits goes to that destination
      (the empty text, when it is text). The cache is untouched. */
  lemma HandShakeShape(cfg: Config, s: Suite, st: State, k: string, buffer: seq<byte>)
    requires k in st.connections
    ensures var r := HandShake(cfg, s, st, k, buffer);
      var c := st.connections[k];
      && r.state.cache == st.cache
      && k in r.state.connections
      && r.state.connections == st.connections[k := r.state.connections[k]]
      && r.state.connections[k].rInfo == c.rInfo
      && (r.state.connections[k].sInfo.phase == c.sInfo.phase || (c.sInfo.phase == 1 && r.state.connections[k].sInfo.phase == 2))
      && (r.state.connections[k].sInfo.secret == c.sInfo.secret || r.state.connections[k].sInfo.phase == 2)
      && (r.emit.Emit? ==> r.emit.rInfo == c.rInfo && (r.emit.packet.Text? ==> r.emit.packet.text == ""))
  {
  }

  /** Every operation but the handshake keeps the sessions, except that
      `CLOSE` drops the sender's; only `SET` and `DEL` touch the cache; and
      whatever is emitted goes to the sender as an encrypted reply. */
  lemma DispatchShape(cfg: Config, s: Suite, st: State, k: string, secret: string, cmd: Command, buffer: seq<byte>, iv: seq<byte>)
    requires k in st.connections && cmd.op != HandShakeOp
    ensures var r := Dispatch(cfg, s, st, k, secret, cmd, buffer, iv);
      && (r.state.connections == st.connections || (cmd.op == "CLOSE" && r.state.connections == st.connections - {k}))
      && (cmd.op != "SET" && cmd.op != "DEL" ==> r.state.cache == st.cache)
      && (r.emit.Emit? ==>
            && r.emit.rInfo == st.connections[k].rInfo
            && r.state.connections == st.connections
            && exists m :: r.emit.packet == Text(Aes.EncryptPlainText(s, secret, m, iv)))
  {
    var r := Dispatch(cfg, s, st, k, secret, cmd, buffer, iv);
    var name := KeyName(cmd.key);
    if cmd.op == "SET" || cmd.op == "DEL" {
      assert r.emit.Emit? ==> r.emit.packet == Text(Aes.EncryptPlainText(s, secret, NullReply, iv));
    } else if cmd.op == "GET" {
      assert r.emit.packet == Text(Aes.EncryptPlainText(s, secret, GetReply(st.cache, name), iv));
    } else if cmd.op == "PING" {
      assert r.emit.packet == Text(Aes.EncryptPlainText(s, secret, PongReply, iv));
    } else if cmd.op != "CLOSE" {
      assert r.emit.packet == Text(Aes.EncryptPlainText(s, secret, ErrReply(cmd.op), iv));
    }
  }

  lemma HandShakeValid(cfg: Config, s: Suite, st: State, k: string, buffer: seq<byte>)
    requires Valid(st) && k in st.connections
    ensures Valid(HandShake(cfg, s, st, k, buffer).state)
    ensures HandShake(cfg, s, st, k, buffer).state.cache == st.cache
  {
    HandShakeShape(cfg, s, st, k, buffer);
  }

  lemma DispatchValid(cfg: Config, s: Suite, st: State, k: string, secret: string, decrypted: string, buffer: seq<byte>, iv: seq<byte>, r: StepResult)
    requires Valid(st) && k in st.connections
    requires r == Dispatch(cfg, s, st, k, secret, ParseCommand(decrypted), buffer, iv)
    ensures Valid(r.state)
  {
    var cmd := ParseCommand(decrypted);
    if cmd.op == HandShakeOp {
      HandShakeValid(cfg, s, st, k, buffer);
    } else {
      DispatchShape(cfg, s, st, k, secret, cmd, buffer, iv);
      if cmd.op == "SET" {
        SetStores(cfg, s, st, k, secret, cmd.key, cmd.value, buffer, iv);
        if cmd.value.Some? {
          var pieces := Split(decrypted, CRLF);
          assert cmd.value.value == pieces[2];
          assert EntryValid(CacheEntry(cmd.value.value, |cmd.value.value|));
        }
      } else if cmd.op == "DEL" {
        assert r.state.cache == st.cache - {KeyName(cmd.key)};
      }
    }
  }

  /** Every datagram keeps the invariant. */
  lemma StepValid(cfg: Config, s: Suite, st: State, buffer: seq<byte>, remote: RemoteInfo, iv: seq<byte>)
    requires Valid(st)
    ensures Valid(Step(cfg, s, st, buffer, remote, iv).state)
  {
    var k := KeyOf(remote);
    if IsCommand(buffer) {
      if k in st.connections && st.connections[k].sInfo.secret.Some? {
        var c := st.connections[k];
        var f := ParseCommandFrame(buffer);
        var d := Aes.DecryptData(s, c.sInfo.secret, f.iv, f.tag, f.encrypted);
        if d.Some? {
          DispatchValid(cfg, s, st, k, c.sInfo.secret.value, d.value, buffer, iv, Step(cfg, s, st, buffer, remote, iv));
        }
      }
    } else {
      var st1 := if k in st.connections then st else st.(connections := st.connections[k := NewConnection(remote)]);
      assert Valid(st1);
      HandShakeValid(cfg, s, st1, k, buffer);
    }
  }

  // ---- sessions -----------------------------------------------------------

  /** The text after the last `:`, or all of it when there is none. */
  function AfterLastColon(t: string): (r: string)
    ensures |r| <= |t|
  {
    if |t| == 0 then t
    else if t[|t| - 1] == ':' then []
    else AfterLastColon(t[..|t| - 1]) + [t[|t| - 1]]
  }

  lemma {:induction false} AfterLastColonOf(a: string, d: string)
    requires forall i | 0 <= i < |d| :: d[i] != ':'
    ensures AfterLastColon(a + ":" + d) == d
    decreases |d|
  {
    var t := a + ":" + d;
    if |d| == 0 {
      assert t[|t| - 1] == ':';
    } else {
      assert t[..|t| - 1] == a + ":" + d[..|d| - 1];
      assert t[|t| - 1] == d[|d| - 1];
      AfterLastColonOf(a, d[..|d| - 1]);
      assert d[..|d| - 1] + [d[|d| - 1]] == d;
    }
  }

  /** The endpoint key determines the endpoint: the port is what follows
      the last `:`. */
  lemma EndpointKeyInjective(a1: string, p1: nat, a2: string, p2: nat)
    requires EndpointKey(a1, p1) == EndpointKey(a2, p2)
    ensures a1 == a2 && p1 == p2
  {
    var d1, d2 := Decimal(p1), Decimal(p2);
    var key := EndpointKey(a1, p1);
    assert key == a1 + ":" + d1 && key == a2 + ":" + d2;
    AfterLastColonOf(a1, d1);
    AfterLastColonOf(a2, d2);
    assert d1 == d2;
    assert a1 == key[..|a1|] && a2 == key[..|a2|];
    DecimalInjective(p1, p2);
  }

  /** A handshake datagram from an endpoint without a session records one
      for it, with the sender as destination of its replies; only a
      header asking for the hello moves it on to phase 2, and only a
      key exchange in that same datagram can give it a secret. */
  lemma SessionCreated(cfg: Config, s: Suite, st: State, buffer: seq<byte>, remote: RemoteInfo, iv: seq<byte>)
    requires !IsCommand(buffer) && KeyOf(remote) !in st.connections
    ensures var r := Step(cfg, s, st, buffer, remote, iv);
      && KeyOf(remote) in r.state.connections
      && r.state.connections[KeyOf(remote)].rInfo == remote
      && r.state.connections[KeyOf(remote)].sInfo.phase == (if AsksHello(PhaseBits(buffer)) then 2 else 1)
      && (!(AsksHello(PhaseBits(buffer)) && CarriesKey(PhaseBits(buffer))) ==> r.state.connections[KeyOf(remote)].sInfo.secret.None?)
  {
  }

  /** A command datagram from an endpoint without a session records
      nothing and throws. */
  lemma CommandNeedsSession(cfg: Config, s: Suite, st: State, buffer: seq<byte>, remote: RemoteInfo, iv: seq<byte>)
    requires IsCommand(buffer) && KeyOf(remote) !in st.connections
    ensures Step(cfg, s, st, buffer, remote, iv) == StepResult(st, Thrown(NoSession))
  {
  }

  /** A session appears only through a handshake datagram from its own
      endpoint, and an existing session is never replaced: it keeps its
      destination, and its phase never goes down. */
  lemma SessionsKeepIdentity(cfg: Config, s: Suite, st: State, buffer: seq<byte>, remote: RemoteInfo, iv: seq<byte>, j: string)
    ensures var r := Step(cfg, s, st, buffer, remote, iv);
      && (j in r.state.connections && j !in st.connections ==> j == KeyOf(remote) && !IsCommand(buffer) && r.state.connections[j].rInfo == remote)
      && (j in r.state.connections && j in st.connections ==>
            r.state.connections[j].rInfo == st.connections[j].rInfo
            && r.state.connections[j].sInfo.phase >= st.connections[j].sInfo.phase)
  {
    var k := KeyOf(remote);
    if IsCommand(buffer) {
      if k in st.connections && st.connections[k].sInfo.secret.Some? {
        var c := st.connections[k];
        var f := ParseCommandFrame(buffer);
        var d := Aes.DecryptData(s, c.sInfo.secret, f.iv, f.tag, f.encrypted);
        if d.Some? {
          var cmd := ParseCommand(d.value);
          assert Step(cfg, s, st, buffer, remote, iv) == Dispatch(cfg, s, st, k, c.sInfo.secret.value, cmd, buffer, iv);
          if cmd.op == HandShakeOp {
            HandShakeShape(cfg, s, st, k, buffer);
          } else {
            DispatchShape(cfg, s, st, k, c.sInfo.secret.value, cmd, buffer, iv);
          }
        }
      }
    } else {
      var st1 := if k in st.connections then st else st.(connections := st.connections[k := NewConnection(remote)]);
      HandShakeShape(cfg, s, st1, k, buffer);
    }
  }

  /** A datagram touches no session but its sender's. */
  lemma OtherSessionsUnchanged(cfg: Config, s: Suite, st: State, buffer: seq<byte>, remote: RemoteInfo, iv: seq<byte>, j: string)
    requires j != KeyOf(remote)
    ensures var r := Step(cfg, s, st, buffer, remote, iv);
      && (j in r.state.connections <==> j in st.connections)
      && (j in st.connections ==> r.state.connections[j] == st.connections[j])
  {
    var k := KeyOf(remote);
    if IsCommand(buffer) {
      if k in st.connections && st.connections[k].sInfo.secret.Some? {
        var c := st.connections[k];
        var f := ParseCommandFrame(buffer);
        var d := Aes.DecryptData(s, c.sInfo.secret, f.iv, f.tag, f.encrypted);
        if d.Some? {
          var cmd := ParseCommand(d.value);
          assert Step(cfg, s, st, buffer, remote, iv) == Dispatch(cfg, s, st, k, c.sInfo.secret.value, cmd, buffer, iv);
          if cmd.op == HandShakeOp {
            HandShakeShape(cfg, s, st, k, buffer);
          } else {
            DispatchShape(cfg, s, st, k, c.sInfo.secret.value, cmd, buffer, iv);
          }
        }
      }
    } else {
      var st1 := if k in st.connections then st else st.(connections := st.connections[k := NewConnection(remote)]);
      HandShakeShape(cfg, s, st1, k, buffer);
    }
  }

  // ---- the handshake ------------------------------------------------------

  /** The session under `k` as the handshake case sees it. */
  function SessionAfterLookup(st: State, remote: RemoteInfo): Connection {
    var k := KeyOf(remote);
    if k in st.connections then st.connections[k] else NewConnection(remote)
  }

  /** Phase 1: a header asking for the hello (and not carrying a key) from
      a session in phase 1, or a new one, is answered with
      `[0x01, 0x85] ++ serverPub ++ signature ++ cert`, where the signature
      covers the server key followed by the certificate, and the session
      moves to phase 2. */
  lemma HelloStep(cfg: Config, s: Suite, st: State, buffer: seq<byte>, remote: RemoteInfo, iv: seq<byte>)
    requires !IsCommand(buffer) && AsksHello(PhaseBits(buffer)) && !CarriesKey(PhaseBits(buffer))
    requires SessionAfterLookup(st, remote).sInfo.phase == 1
    ensures var c := SessionAfterLookup(st, remote);
      var r := Step(cfg, s, st, buffer, remote, iv);
      && r.emit == Emit(c.rInfo, Binary(HelloReply(cfg.ecdh.pub, s.sign(cfg.key, cfg.ecdh.pub + cfg.ca), cfg.ca)))
      && r.state.connections == st.connections[KeyOf(remote) := c.(sInfo := c.sInfo.(phase := 2))]
      && r.state.cache == st.cache
  {
  }

  /** Phase 2: a key exchange to a session in phase 2 sets the secret to
      the hexadecimal SHA-256 of the shared secret computed from the
      decrypted payload at offset 2; nothing is sent and the phase stays
      2. A repeated key exchange sets the secret again. */
  lemma KeyExchangeStep(cfg: Config, s: Suite, st: State, buffer: seq<byte>, remote: RemoteInfo, iv: seq<byte>, clientKey: seq<byte>, shared: seq<byte>)
    requires !IsCommand(buffer) && CarriesKey(PhaseBits(buffer))
    requires KeyOf(remote) in st.connections && st.connections[KeyOf(remote)].sInfo.phase == 2
    requires s.privateDecrypt(cfg.key, Drop(buffer, 2)) == Some(clientKey)
    requires s.computeSecret(cfg.ecdh, clientKey) == Some(shared)
    ensures var c := st.connections[KeyOf(remote)];
      var r := Step(cfg, s, st, buffer, remote, iv);
      && r.emit == NoPacket
      && r.state.connections == st.connections[KeyOf(remote) := c.(sInfo := HandShakeInfo(Some(Hex.Encode(s.sha256(shared))), 2))]
      && r.state.cache == st.cache
  {
  }

  /** The two phase tests are separate: a header with both bits, from a
      session in phase 1, moves it to phase 2 and performs the key
      exchange in the same datagram, and then no hello is sent. */
  lemma BothPhasesInOneDatagram(cfg: Config, s: Suite, st: State, buffer: seq<byte>, remote: RemoteInfo, iv: seq<byte>, clientKey: seq<byte>, shared: seq<byte>)
    requires !IsCommand(buffer) && PhaseBits(buffer) == 3
    requires SessionAfterLookup(st, remote).sInfo.phase == 1
    requires s.privateDecrypt(cfg.key, Drop(buffer, 2)) == Some(clientKey)
    requires s.computeSecret(cfg.ecdh, clientKey) == Some(shared)
    ensures var c := SessionAfterLookup(st, remote);
      var r := Step(cfg, s, st, buffer, remote, iv);
      && r.emit == NoPacket
      && r.state.connections == st.connections[KeyOf(remote) := c.(sInfo := HandShakeInfo(Some(Hex.Encode(s.sha256(shared))), 2))]
  {
  }

  /** When the key exchange payload does not decrypt, the handler throws
      after the phase has already moved on. */
  lemma KeyExchangeFailureKeepsPhase(cfg: Config, s: Suite, st: State, buffer: seq<byte>, remote: RemoteInfo, iv: seq<byte>)
    requires !IsCommand(buffer) && PhaseBits(buffer) == 3
    requires SessionAfterLookup(st, remote).sInfo.phase == 1
    requires s.privateDecrypt(cfg.key, Drop(buffer, 2)).None?
    ensures var c := SessionAfterLookup(st, remote);
      var r := Step(cfg, s, st, buffer, remote, iv);
      && r.emit == Thrown(KeyDecryptFailed)
      && r.state.connections == st.connections[KeyOf(remote) := c.(sInfo := c.sInfo.(phase := 2))]
  {
  }

  /** A handshake byte that matches neither test changes nothing but the
      recording of a new session, and is answered with the empty text. */
  lemma IdleHandShake(cfg: Config, s: Suite, st: State, buffer: seq<byte>, remote: RemoteInfo, iv: seq<byte>)
    requires !IsCommand(buffer)
    requires var c := SessionAfterLookup(st, remote);
      !(AsksHello(PhaseBits(buffer)) && c.sInfo.phase == 1) && !(CarriesKey(PhaseBits(buffer)) && c.sInfo.phase == 2)
    ensures var c := SessionAfterLookup(st, remote);
      var r := Step(cfg, s, st, buffer, remote, iv);
      && r.emit == Emit(c.rInfo, Text(""))
      && r.state == st.(connections := st.connections[KeyOf(remote) := c])
  {
  }

  // ---- commands -----------------------------------------------------------

  /** A command datagram from a session with a secret is decrypted from
      the IV at 1, the tag at 17 and the hexadecimal ciphertext from 33 on,
      and the decrypted line, split on CRLF, selects the operation. */
  lemma CommandStep(cfg: Config, s: Suite, st: State, buffer: seq<byte>, remote: RemoteInfo, iv: seq<byte>, secret: string, decrypted: string)
    requires IsCommand(buffer) && KeyOf(remote) in st.connections
    requires st.connections[KeyOf(remote)].sInfo.secret == Some(secret)
    requires s.open(Aes.Key(secret), Slice(buffer, 1, 17), Slice(buffer, 17, 33), Hex.Decode(BytesText(Drop(buffer, 33)))) == Some(decrypted)
    ensures Step(cfg, s, st, buffer, remote, iv) == Dispatch(cfg, s, st, KeyOf(remote), secret, ParseCommand(decrypted), buffer, iv)
  {
  }

  /** A command that does not decrypt throws and changes nothing. */
  lemma CommandRefused(cfg: Config, s: Suite, st: State, buffer: seq<byte>, remote: RemoteInfo, iv: seq<byte>)
    requires IsCommand(buffer) && KeyOf(remote) in st.connections
    requires var f := ParseCommandFrame(buffer);
      Aes.DecryptData(s, st.connections[KeyOf(remote)].sInfo.secret, f.iv, f.tag, f.encrypted).None?
    ensures Step(cfg, s, st, buffer, remote, iv).state == st
    ensures Step(cfg, s, st, buffer, remote, iv).emit.Thrown?
  {
  }

  /** `SET k v` stores the value with its length and answers `NullReply`;
      nothing else changes. Without a value field it throws. */
  lemma SetStores(cfg: Config, s: Suite, st: State, k: string, secret: string, key: Option<string>, value: Option<string>, buffer: seq<byte>, iv: seq<byte>)
    requires k in st.connections
    ensures var r := Dispatch(cfg, s, st, k, secret, Command("SET", key, value), buffer, iv);
      && (value.None? ==> r == StepResult(st, Thrown(NoValue)))
      && (value.Some? ==>
            && r.state.cache == st.cache[KeyName(key) := CacheEntry(value.value, |value.value|)]
            && r.state.connections == st.connections
            && r.emit == Emit(st.connections[k].rInfo, Text(Aes.EncryptPlainText(s, secret, NullReply, iv))))
  {
  }

  /** `DEL k` removes only that key, leaves the sessions alone, and
      answers `NullReply`. */
  lemma DelRemovesOnly(cfg: Config, s: Suite, st: State, k: string, secret: string, key: Option<string>, value: Option<string>, buffer: seq<byte>, iv: seq<byte>, other: string)
    requires k in st.connections && other != KeyName(key)
    ensures var r := Dispatch(cfg, s, st, k, secret, Command("DEL", key, value), buffer, iv);
      && KeyName(key) !in r.state.cache
      && (other in r.state.cache <==> other in st.cache)
      && (other in st.cache ==> r.state.cache[other] == st.cache[other])
      && r.state.connections == st.connections
      && r.emit == Emit(st.connections[k].rInfo, Text(Aes.EncryptPlainText(s, secret, NullReply, iv)))
  {
  }

  /** `GET k` changes nothing and answers the stored length and value, or
      `NullReply` for a missing key. */
  lemma GetAnswers(cfg: Config, s: Suite, st: State, k: string, secret: string, key: Option<string>, value: Option<string>, buffer: seq<byte>, iv: seq<byte>)
    requires k in st.connections
    ensures var r := Dispatch(cfg, s, st, k, secret, Command("GET", key, value), buffer, iv);
      && r.state == st
      && r.emit == Emit(st.connections[k].rInfo, Text(Aes.EncryptPlainText(s, secret, GetReply(st.cache, KeyName(key)), iv)))
  {
  }

  /** A `GET` after `SET k v` answers `Ok + |v| + CRLF + v`. */
  lemma SetThenGet(cfg: Config, s: Suite, st: State, k: string, secret: string, key: string, v: string, buffer: seq<byte>, iv1: seq<byte>, iv2: seq<byte>, r1: StepResult)
    requires k in st.connections
    requires r1 == Dispatch(cfg, s, st, k, secret, Command("SET", Some(key), Some(v)), buffer, iv1)
    ensures k in r1.state.connections
    ensures Dispatch(cfg, s, r1.state, k, secret, Command("GET", Some(key), None), buffer, iv2).emit
      == Emit(st.connections[k].rInfo, Text(Aes.EncryptPlainText(s, secret, Ok + Decimal(|v|) + CRLF + v, iv2)))
  {
    SetStores(cfg, s, st, k, secret, Some(key), Some(v), buffer, iv1);
    GetAnswers(cfg, s, r1.state, k, secret, Some(key), None, buffer, iv2);
    StoredReply(st.cache, key, v);
  }

  lemma StoredReply(cache: map<string, CacheEntry>, key: string, v: string)
    ensures GetReply(cache[key := CacheEntry(v, |v|)], key) == Ok + Decimal(|v|) + CRLF + v
  {
  }

  /** The reply to `GET` splits on CRLF into two fields, not three: no
      CRLF follows the status character, so the first field is the status
      character followed by the decimal length, and the second is the
      value (`"NULL"` for a missing key). */
  lemma GetReplyFields(st: State, name: string)
    requires Valid(st)
    ensures name in st.cache ==> Split(GetReply(st.cache, name), CRLF) == [Ok + Decimal(|st.cache[name].value|), st.cache[name].value]
    ensures name !in st.cache ==> Split(GetReply(st.cache, name), CRLF) == [Ok + "0", "NULL"]
  {
    assert Avoids(Ok, CRLF);
    if name in st.cache {
      var v := st.cache[name].value;
      DecimalAvoids(|v|, CRLF);
      AvoidsConcat(Ok, Decimal(|v|), CRLF);
      AvoidsNotContains(Ok + Decimal(|v|), CRLF);
      SplitTwo(Ok + Decimal(|v|), v, CRLF);
    } else {
      assert Avoids("0", CRLF);
      AvoidsConcat(Ok, "0", CRLF);
      AvoidsNotContains(Ok + "0", CRLF);
      assert Avoids("NULL", CRLF);
      AvoidsNotContains("NULL", CRLF);
      assert GetReply(st.cache, name) == Ok + "0" + CRLF + "NULL";
      SplitTwo(Ok + "0", "NULL", CRLF);
    }
  }

  lemma DecimalNoCrlf(n: nat)
    ensures !Contains(Decimal(n), CRLF)
  {
    DecimalAvoids(n, CRLF);
    AvoidsNotContains(Decimal(n), CRLF);
  }

  /** `PING` answers `'OK\r\n4\r\nPONG'` whatever the cache holds, and
      changes nothing. */
  lemma PingIgnoresCache(cfg: Config, s: Suite, st: State, k: string, secret: string, key: Option<string>, value: Option<string>, buffer: seq<byte>, iv: seq<byte>, cache: map<string, CacheEntry>)
    requires k in st.connections
    ensures var r := Dispatch(cfg, s, st, k, secret, Command("PING", key, value), buffer, iv);
      var r' := Dispatch(cfg, s, st.(cache := cache), k, secret, Command("PING", key, value), buffer, iv);
      && r.state == st
      && r.emit == r'.emit
      && r.emit == Emit(st.connections[k].rInfo, Text(Aes.EncryptPlainText(s, secret, PongReply, iv)))
  {
  }

  /** `CLOSE` removes only the sender's session, leaves the cache alone and
      sends nothing. */
  lemma CloseRemovesSession(cfg: Config, s: Suite, st: State, k: string, secret: string, key: Option<string>, value: Option<string>, buffer: seq<byte>, iv: seq<byte>)
    requires k in st.connections
    ensures Dispatch(cfg, s, st, k, secret, Command("CLOSE", key, value), buffer, iv)
      == StepResult(st.(connections := st.connections - {k}), NoPacket)
  {
  }

  /** An unknown operation is answered with `ERR`, the message length and
      the message, and the length announced is the message's own. */
  lemma UnknownOpAnswersErr(cfg: Config, s: Suite, st: State, k: string, secret: string, cmd: Command, buffer: seq<byte>, iv: seq<byte>)
    requires k in st.connections
    requires cmd.op !in {HandShakeOp, "SET", "DEL", "GET", "PING", "CLOSE"}
    ensures var r := Dispatch(cfg, s, st, k, secret, cmd, buffer, iv);
      && r.state == st
      && r.emit == Emit(st.connections[k].rInfo, Text(Aes.EncryptPlainText(s, secret, ErrReply(cmd.op), iv)))
      && ErrReply(cmd.op) == "ERR\r\n" + Decimal(|NotFound(cmd.op)|) + CRLF + NotFound(cmd.op)
  {
  }

  // ---- the reply gate -------------------------------------------------------

  /** Whatever the handler emits goes to the sender's session, which
      still exists, so the gate sends it exactly when that sender is an
      IPv4 endpoint. */
  lemma EmittedToLiveSession(cfg: Config, s: Suite, st: State, buffer: seq<byte>, remote: RemoteInfo, iv: seq<byte>)
    requires Valid(st)
    ensures var r := Step(cfg, s, st, buffer, remote, iv);
      r.emit.Emit? ==> r.emit.rInfo == SessionAfterLookup(st, remote).rInfo && KeyOf(r.emit.rInfo) in r.state.connections
    ensures var r := Step(cfg, s, st, buffer, remote, iv);
      r.emit.Emit? ==> (Gate(r.state, r.emit).Sent? <==> SessionAfterLookup(st, remote).rInfo.family == "IPv4")
  {
    var k := KeyOf(remote);
    if IsCommand(buffer) {
      if k in st.connections && st.connections[k].sInfo.secret.Some? {
        var c := st.connections[k];
        var f := ParseCommandFrame(buffer);
        var d := Aes.DecryptData(s, c.sInfo.secret, f.iv, f.tag, f.encrypted);
        if d.Some? {
          var cmd := ParseCommand(d.value);
          assert Step(cfg, s, st, buffer, remote, iv) == Dispatch(cfg, s, st, k, c.sInfo.secret.value, cmd, buffer, iv);
          if cmd.op == HandShakeOp {
            HandShakeShape(cfg, s, st, k, buffer);
          } else {
            DispatchShape(cfg, s, st, k, c.sInfo.secret.value, cmd, buffer, iv);
          }
        }
      }
    } else {
      var st1 := if k in st.connections then st else st.(connections := st.connections[k := NewConnection(remote)]);
      HandShakeShape(cfg, s, st1, k, buffer);
    }
  }

  /** Every text the server sends is ASCII, so `Buffer.from(msg)` puts one
      byte per character on the wire. */
  lemma SentTextIsAscii(cfg: Config, s: Suite, st: State, buffer: seq<byte>, remote: RemoteInfo, iv: seq<byte>)
    ensures var r := Step(cfg, s, st, buffer, remote, iv);
      r.emit.Emit? && r.emit.packet.Text? ==> IsAscii(r.emit.packet.text)
  {
    var k := KeyOf(remote);
    if IsCommand(buffer) {
      if k in st.connections && st.connections[k].sInfo.secret.Some? {
        var c := st.connections[k];
        var f := ParseCommandFrame(buffer);
        var d := Aes.DecryptData(s, c.sInfo.secret, f.iv, f.tag, f.encrypted);
        if d.Some? {
          var cmd := ParseCommand(d.value);
          var secret := c.sInfo.secret.value;
          var r := Dispatch(cfg, s, st, k, secret, cmd, buffer, iv);
          assert Step(cfg, s, st, buffer, remote, iv) == r;
          if cmd.op == HandShakeOp {
            HandShakeShape(cfg, s, st, k, buffer);
          } else {
            DispatchShape(cfg, s, st, k, secret, cmd, buffer, iv);
            if r.emit.Emit? {
              var m :| r.emit.packet == Text(Aes.EncryptPlainText(s, secret, m, iv));
              Aes.EncryptIsAscii(s, secret, m, iv);
            }
          }
        }
      }
    } else {
      var st1 := if k in st.connections then st else st.(connections := st.connections[k := NewConnection(remote)]);
      HandShakeShape(cfg, s, st1, k, buffer);
    }
  }
}
