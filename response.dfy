/** What both clients do with a reply datagram (`handleResponse` in
    client/node.js and in examples/nodeclient.js, which differ only in the
    AES key): the text is split on CRLF; a line with no length and no
    message fields is an encrypted reply, opened and split again; then
    `OK` in phase 2 resolves the pending call with the message field and
    `ERR` is logged. The requests both clients can send are listed here
    too. */
module Response {
  import opened Wire
  import opened Text
  import Hex
  import Base64
  import opened Crypto
  import Aes
  import Server

  /** The calls a client offers: `get`, `set`, `del`, `ping` and `close`. */
  datatype Op = Get(key: string) | Set(key: string, value: string) | Del(key: string) | Ping | Close

  /** What one reply leads to. */
  datatype Reply =
    | Resolved(msg: Option<string>)                        // `resolve(msg)`; `msg` may be `undefined`
    | Logged(length: Option<string>, msg: Option<string>)  // the `ERR` branch logs the two fields
    | Ignored                                              // any other status, or `OK` outside phase 2
    | Failed                                               // the handler throws

  /** JavaScript falsiness of a split field: `undefined` or `""`. */
  predicate Falsy(f: Option<string>) {
    f.None? || f.value == ""
  }

  /** The status test on the lines of a reply. */
  function Classify(dhPhase: int, lines: seq<string>): (r: Reply)
    requires |lines| >= 1
    ensures r.Resolved? <==> lines[0] == "OK" && dhPhase == 2
    ensures r.Resolved? ==> r.msg == Field(lines, 2)
    ensures r.Logged? <==> lines[0] == "ERR"
    ensures r.Logged? ==> r.length == Field(lines, 1) && r.msg == Field(lines, 2)
    ensures r.Ignored? <==> !(lines[0] == "OK" && dhPhase == 2) && lines[0] != "ERR"
  {
    if lines[0] == "OK" && dhPhase == 2 then Resolved(Field(lines, 2))
    else if lines[0] == "ERR" then Logged(Field(lines, 1), Field(lines, 2))
    else Ignored
  }

  /** The encrypted branch on the one line `line`: split on `' '` into the
      hexadecimal ciphertext, the IV and the tag; a missing IV or tag makes
      `Buffer.from` throw, and the decipher's refusal throws too. */
  function Decrypt(s: Suite, key: string, line: string): (r: Option<string>)
    ensures r.Some? ==> |Split(line, Space)| >= 3
  {
    var parts := Split(line, Space);
    if |parts| < 3 then None
    else
      match Base64.Decode(parts[1])
      case None => None
      case Some(iv) =>
        match Base64.Decode(parts[2])
        case None => None
        case Some(tag) => s.open(key, iv, tag, Hex.Decode(parts[0]))
  }

  /** `handleResponse(resolve, buffer)` under the AES key `key` (`None`
      when the client has no secret yet, so computing the key throws). */
  function HandleResponse(s: Suite, key: Option<string>, dhPhase: int, buffer: seq<byte>): (r: Reply)
    ensures var lines := Split(BytesText(buffer), CRLF);
      !(Falsy(Field(lines, 1)) && Falsy(Field(lines, 2))) ==> r == Classify(dhPhase, lines)
    ensures var lines := Split(BytesText(buffer), CRLF);
      Falsy(Field(lines, 1)) && Falsy(Field(lines, 2)) && key.None? ==> r == Failed
  {
    var lines := Split(BytesText(buffer), CRLF);
    if Falsy(Field(lines, 1)) && Falsy(Field(lines, 2)) then
      match key
      case None => Failed
      case Some(k) =>
        match Decrypt(s, k, lines[0])
        case None => Failed
        case Some(decrypted) => Classify(dhPhase, Split(decrypted, CRLF))
    else Classify(dhPhase, lines)
  }

  /** A reply the server encrypted under `secret`, as it arrives (one byte
      per character), is handled under the key `secret.slice(0, 32)` as
      the lines of the plain reply: the frame is one line, its three
      fields decode to the ciphertext, IV and tag, and they open to the
      message. */
  lemma ReplyRoundTrip(s: Suite, secret: string, msg: string, iv: seq<byte>, dhPhase: int)
    requires Lawful(s)
    ensures var t := Aes.EncryptPlainText(s, secret, msg, iv);
      && IsAscii(t)
      && HandleResponse(s, Some(Aes.Key(secret)), dhPhase, AsciiBytes(t)) == Classify(dhPhase, Split(msg, CRLF))
  {
    Aes.EncryptIsAscii(s, secret, msg, iv);
    var sealed := s.seal(Aes.Key(secret), iv, msg);
    var t := Aes.EncryptPlainText(s, secret, msg, iv);
    AsciiRoundTrip(t);
    Aes.FrameIsOneLine(sealed.ct, iv, sealed.tag);
    var lines := Split(t, CRLF);
    assert lines == [t];
    Aes.SplitFrame(sealed.ct, iv, sealed.tag);
    var parts := Split(t, Space);
    assert parts == [Hex.Encode(sealed.ct), Base64.Encode(iv), Base64.Encode(sealed.tag)];
    Base64.RoundTrip(iv);
    Base64.RoundTrip(sealed.tag);
    Hex.RoundTrip(sealed.ct);
    assert Decrypt(s, Aes.Key(secret), t) == Some(msg);
  }

  // ---- the request lines the server reads ----------------------------------

  /** An operation name alone reads as that operation with no key and no
      value. */
  lemma BareLine(name: string)
    requires Avoids(name, CRLF)
    ensures Server.ParseCommand(name) == Server.Command(name, None, None)
  {
    NoCrlf(name);
  }

  /** An operation name, CRLF and a key without CRLF read as that
      operation on that key, with no value. */
  lemma KeyLine(name: string, key: string)
    requires Avoids(name, CRLF) && !Contains(key, CRLF)
    ensures Server.ParseCommand(name + CRLF + key) == Server.Command(name, Some(key), None)
  {
    NoCrlf(name);
    SplitTwo(name, key, CRLF);
  }

  /** The same with a value after a second CRLF. */
  lemma KeyValueLine(name: string, key: string, value: string)
    requires Avoids(name, CRLF) && !Contains(key, CRLF) && !Contains(value, CRLF)
    ensures Server.ParseCommand(name + CRLF + key + CRLF + value) == Server.Command(name, Some(key), Some(value))
  {
    NoCrlf(name);
    SplitThree(name, key, value, CRLF);
  }

  // ---- what the server's replies mean to a client ---------------------------

  /** Text made of characters other than CR and LF holds no CRLF. */
  lemma NoCrlf(t: string)
    requires Avoids(t, CRLF)
    ensures !Contains(t, CRLF)
  {
    AvoidsNotContains(t, CRLF);
  }

  lemma PongLines()
    ensures Split(Server.PongReply, CRLF) == ["OK", "4", "PONG"]
  {
    assert !Contains("OK", CRLF) by { NoCrlf("OK"); }
    assert !Contains("4", CRLF) by { NoCrlf("4"); }
    assert !Contains("PONG", CRLF) by { NoCrlf("PONG"); }
    assert Server.PongReply == "OK" + CRLF + "4" + CRLF + "PONG";
    SplitThree("OK", "4", "PONG", CRLF);
  }

  /** The `PING` reply resolves the call with `"PONG"` in phase 2. */
  lemma PongResolves(dhPhase: int)
    ensures Classify(dhPhase, Split(Server.PongReply, CRLF)) == (if dhPhase == 2 then Resolved(Some("PONG")) else Ignored)
  {
    PongLines();
    var lines := Split(Server.PongReply, CRLF);
    assert lines[0] == "OK" && Field(lines, 2) == Some("PONG");
  }

  /** Text starting with the status character U+0001 is neither `OK` nor
      `ERR`. */
  lemma OkStatusIgnored(dhPhase: int, lines: seq<string>, rest: string)
    requires |lines| >= 1 && lines[0] == Server.Ok + rest
    ensures Classify(dhPhase, lines) == Ignored
  {
    assert lines[0][0] == 1 as char;
  }

  /** The replies to `GET`, `SET` and `DEL` never resolve a client's call
      and are not logged: the server's `OK` is the byte 0x01 and no CRLF
      follows it, so the first line is U+0001 followed by the length. */
  lemma CacheRepliesIgnored(dhPhase: int, cache: map<string, Server.CacheEntry>, name: string)
    ensures Classify(dhPhase, Split(Server.GetReply(cache, name), CRLF)) == Ignored
    ensures Classify(dhPhase, Split(Server.NullReply, CRLF)) == Ignored
  {
    assert Avoids(Server.Ok, CRLF) && Avoids("0", CRLF);
    AvoidsConcat(Server.Ok, "0", CRLF);
    AvoidsNotContains(Server.Ok + "0", CRLF);
    assert Server.NullReply == Server.Ok + "0" + CRLF + "NULL";
    FirstField(Server.Ok + "0", CRLF, "NULL");
    OkStatusIgnored(dhPhase, Split(Server.NullReply, CRLF), "0");
    if name in cache {
      var e := cache[name];
      DecimalAvoids(e.length, CRLF);
      AvoidsConcat(Server.Ok, Decimal(e.length), CRLF);
      AvoidsNotContains(Server.Ok + Decimal(e.length), CRLF);
      FirstField(Server.Ok + Decimal(e.length), CRLF, e.value);
      OkStatusIgnored(dhPhase, Split(Server.GetReply(cache, name), CRLF), Decimal(e.length));
    }
  }

  /** The error message holds no CRLF when the operation holds none. */
  lemma NotFoundNoCrlf(op: string)
    requires !Contains(op, CRLF)
    ensures !Contains(Server.NotFound(op), CRLF)
  {
    assert !Contains("`", CRLF) by { NoCrlf("`"); }
    assert !Contains("` command not found.", CRLF) by { NoCrlf("` command not found."); }
    ConcatNoCrlf("`", op);
    ConcatNoCrlf("`" + op, "` command not found.");
  }

  lemma ErrStatus()
    ensures !Contains("ERR", CRLF)
    ensures "ERR\r\n" == "ERR" + CRLF
  {
    NoCrlf("ERR");
  }

  lemma ErrReplyShape(op: string)
    ensures Server.ErrReply(op) == "ERR" + CRLF + Decimal(21 + |op|) + CRLF + Server.NotFound(op)
  {
    ErrStatus();
  }

  /** A status line, a decimal length and a message without CRLF split
      back into the three. */
  lemma LengthLines(status: string, n: nat, m: string)
    requires !Contains(status, CRLF) && !Contains(m, CRLF)
    ensures Split(status + CRLF + Decimal(n) + CRLF + m, CRLF) == [status, Decimal(n), m]
  {
    DecimalAvoids(n, CRLF);
    NoCrlf(Decimal(n));
    SplitThree(status, Decimal(n), m, CRLF);
  }

  /** The error reply to an operation without CRLF (every operation the
      server reads is one) is logged with the announced length and the
      message. */
  lemma ErrLogged(dhPhase: int, op: string)
    requires !Contains(op, CRLF)
    ensures Classify(dhPhase, Split(Server.ErrReply(op), CRLF))
      == Logged(Some(Decimal(21 + |op|)), Some(Server.NotFound(op)))
  {
    ErrReplyShape(op);
    NotFoundNoCrlf(op);
    LoggedLines(dhPhase, 21 + |op|, Server.NotFound(op));
  }

  lemma LoggedLines(dhPhase: int, n: nat, m: string)
    requires !Contains(m, CRLF)
    ensures Classify(dhPhase, Split("ERR" + CRLF + Decimal(n) + CRLF + m, CRLF)) == Logged(Some(Decimal(n)), Some(m))
  {
    ErrStatus();
    LengthLines("ERR", n, m);
  }
}
