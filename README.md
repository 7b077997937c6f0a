# node-cache-udp in Dafny

A model of the in-memory key/value cache server that speaks an encrypted
UDP protocol (`src/index.ts`, `src/crypto/AES.ts`), and of its two
clients: the published one (`client/node.js`) and the earlier example
client (`examples/nodeclient.js`).

- Handshake on the server. A datagram whose header byte has bit 7 clear
  is a handshake step. The sender's session, keyed `address:port`, is
  recorded in phase 1 when it does not exist yet.
- The server's hello. Header bit 0 in phase 1 is answered with
  `[0x01, 0x85] ++ serverKey ++ signature ++ certificate`, and the session
  moves to phase 2.
- The key exchange. Header bit 1 in phase 2 decrypts the client key from
  offset 2 and sets the session secret to the hexadecimal SHA-256 of the
  ECDH shared secret. This step sends nothing.
- Commands on the server. A datagram with bit 7 set is a command. Its IV
  is bytes 1–17, its tag bytes 17–33, and hexadecimal ciphertext follows.
- Decryption. The command is decrypted with AES-256-GCM under the first 32
  characters of the secret. The decrypted text is split on CRLF into the
  operation, the key and the value.
- The cache. `SET`, `DEL`, `GET`, `PING`, `CLOSE` and unknown operations
  act on the cache and the session table. Each answer is encrypted as
  `hex(ct) ' ' base64(iv) ' ' base64(tag)`.
- The reply gate. A reply goes out only to an IPv4 endpoint that still has
  a session.
- The published client.
  - It checks the hello's signature and its certificate against a CA list.
  - It sends `[0x02, 0x00] ++ publicEncrypt(certKey, clientKey)`.
  - It seals requests under the first 32 hexadecimal characters of
    HMAC-SHA256 of the secret, keyed with 32 zero bytes.
  - Its `encryptPlainText` takes two parameters, so the key and value of
    `get`, `set` and `del` are dropped. The server then sees `SET` without
    a value, which throws, and `GET` and `DEL` on the key `""`.
- The example client.
  - It moves through phases 0, 1 and 2.
  - It reads the server key from the third CRLF line of the first reply.
  - It sends `0x02 ++ clientKey`.
  - It seals `op + key + value` under the first 32 characters of the
    secret, which is the server's own key.

The cryptographic primitives are the fields of a `Crypto.Suite`. Nothing is
assumed about them except, in the lemmas that need it, that AES-GCM opens
what it sealed (`Crypto.Lawful`). JavaScript exceptions become explicit
`Thrown`/`Failed` outcomes. Each outcome keeps the state the handler had
already changed before it threw.

Behaviour of the code that its names and constants do not suggest:

- Reply status. The constant `OK` is `Buffer.from([0x1])`
  (`src/index.ts:43`). The `SET`, `DEL` and `GET` replies concatenate it
  into a string (`src/index.ts:195`, `201`, `208`), so their status is the
  character U+0001, and no CRLF follows it.
- Reply text. These replies are therefore `"\u0001" + len + CRLF + value`
  and `"\u0001" + "0\r\nNULL"`. They split into two lines whose status is
  neither `OK` nor `ERR`, so both clients ignore them. Only `PING` resolves
  a call; its reply is the text `OK\r\n4\r\nPONG`. `ERR` replies are logged.
- Server keys. Each session record has a `dh: null` field
  (`src/index.ts:143`) that is never set. The key exchange uses the one
  ECDH key pair created at start-up (`src/index.ts:96-97`), so every
  session shares it.
- AES key. The server keys AES on `secret.slice(0, 32)`
  (`src/crypto/AES.ts:10`, `27`). `client/node.js:26` keys it on the first
  32 characters of the hexadecimal HMAC-SHA256 of the secret instead.
- Exceptions. Nothing in the `'message'` listener catches an exception. A
  datagram that fails (no session, no secret, a bad tag, a missing `SET`
  value) throws out of the listener after whatever it already changed.

## Model

| member | source | states |
|---|---|---|
| Server.EndpointKey | src/index.ts:122 | the session key is the address, `:` and the decimal port, so its length is theirs plus one |
| ServerProps.EndpointKeyInjective | src/index.ts:122 | two endpoints with the same session key have the same address and port |
| Server.NewConnection | src/index.ts:139-146 | a new record keeps the sender's remote info, has no secret and is in phase 1 |
| Server.ParseCommand | src/index.ts:132-135 | the operation, key and value are fields 0, 1 and 2 of the decrypted text split on CRLF; missing fields are absent |
| Server.KeyName | src/index.ts:191 | a missing key field names the dictionary entry `"undefined"`; a present one names itself |
| Server.GetReply | src/index.ts:205-214 | a stored key is answered U+0001, its length, CRLF and its value; a missing one `NullReply` |
| Server.NotFound | src/index.ts:235 | the error message is 21 characters longer than the operation |
| Server.ErrReply | src/index.ts:229-236 | the error reply is `ERR`, the decimal length of the message and the message, separated by CRLF, so the announced length is the message's own |
| Server.HandShake | src/index.ts:152-189 | the handshake case on the sender's session; `HandShakeShape`, `HelloStep`, `KeyExchangeStep`, `BothPhasesInOneDatagram` and `IdleHandShake` state what it does |
| Server.Dispatch | src/index.ts:190-239 | the switch on the decrypted operation; `DispatchShape`, `SetStores`, `DelRemovesOnly`, `GetAnswers`, `PingIgnoresCache`, `CloseRemovesSession` and `UnknownOpAnswersErr` state each branch |
| Server.Step | src/index.ts:119-243 | the `'message'` handler on one datagram; `StepValid`, `SessionCreated`, `CommandNeedsSession`, `CommandStep` and `OtherSessionsUnchanged` state what it keeps and changes |
| Server.Gate | src/index.ts:254-262 | a reply is sent, unchanged, exactly when it is addressed to an IPv4 endpoint that has a session; a thrown handler fails and no packet keeps silent |
| Server.NodeCacheUdp.constructor | src/index.ts:77-91 | the server starts with no sessions and an empty cache |
| Server.NodeCacheUdp.HandShakeCase | src/index.ts:155-189 | the in-place handshake updates give the state and reply of the functional handshake step |
| Server.NodeCacheUdp.OnMessage | src/index.ts:119-243 | one `'message'` event updates the session table and the cache as `Step` does, and what goes out is the gated reply |
| Server.NodeCacheUdp.HandleServerResponse | src/index.ts:254-263 | the response listener sends exactly what the gate lets through |
| ServerProps.EmptyValid | src/index.ts:85-86 | the empty tables satisfy the invariant (phase 1 or 2, secret only in phase 2, records under their own key, lengths equal to the stored value's) |
| ServerProps.HandShakeShape | src/index.ts:155-189 | a handshake touches only the sender's record, keeps its remote info, moves the phase only from 1 to 2, sets a secret only in phase 2, and leaves the cache alone |
| ServerProps.DispatchShape | src/index.ts:190-240 | a command keeps the sessions (CLOSE removes only the sender's), changes the cache only on SET and DEL, and any reply is an encrypted text to the sender |
| ServerProps.HandShakeValid | src/index.ts:157-187 | the handshake preserves the invariant and the cache |
| ServerProps.DispatchValid | src/index.ts:190-239 | every command preserves the invariant |
| ServerProps.StepValid | src/index.ts:119-243 | every datagram preserves the invariant, so a phase is always 1 or 2 and a secret exists only in phase 2 |
| ServerProps.SessionCreated | src/index.ts:137-147 | a handshake byte from an unknown endpoint records it in phase 1 without a secret, and the record survives the step |
| ServerProps.CommandNeedsSession | src/index.ts:127 | a command from an unknown endpoint throws and changes nothing |
| ServerProps.SessionsKeepIdentity | src/index.ts:122-147 | an existing record is never replaced: after any step it is gone (CLOSE) or has the same remote info |
| ServerProps.OtherSessionsUnchanged | src/index.ts:119-243 | a datagram never changes another endpoint's record |
| ServerProps.HelloStep | src/index.ts:157-175 | bit 0 in phase 1 answers the hello layout signed over key and certificate, and moves the phase to 2 |
| ServerProps.KeyExchangeStep | src/index.ts:176-187 | bit 1 in phase 2 sets the secret from the payload at offset 2, sends nothing, and keeps phase 2 |
| ServerProps.BothPhasesInOneDatagram | src/index.ts:157-187 | header 3 in phase 1 performs both steps in one datagram and sends nothing |
| ServerProps.KeyExchangeFailureKeepsPhase | src/index.ts:174-181 | when the payload does not decrypt the handler throws after the phase moved to 2 |
| ServerProps.IdleHandShake | src/index.ts:152-189 | a handshake byte matching neither test changes nothing but the recording of a new session, and is answered with `''` |
| ServerProps.CommandStep | src/index.ts:125-136 | a command is decrypted from the IV at 1, the tag at 17 and the ciphertext from 33, and the CRLF fields select the operation |
| ServerProps.CommandRefused | src/index.ts:127-131 | a command that does not decrypt throws and changes nothing |
| ServerProps.SetStores | src/index.ts:190-197 | SET stores the value with its length and answers `NullReply`; with no value it throws and changes nothing |
| ServerProps.DelRemovesOnly | src/index.ts:199-203 | DEL removes that key only, keeps every other entry and all sessions, and answers `NullReply` |
| ServerProps.GetAnswers | src/index.ts:205-216 | GET changes nothing and answers the stored entry or `NullReply` |
| ServerProps.SetThenGet | src/index.ts:190-216 | a GET after `SET k v` answers U+0001, the decimal length of v, CRLF and v |
| ServerProps.StoredReply | src/index.ts:191-213 | a freshly stored value is answered with its own length and text |
| ServerProps.GetReplyFields | src/index.ts:205-214 | in a valid state a GET reply splits on CRLF into exactly two lines, status-and-length then value (or `NULL`) |
| ServerProps.PingIgnoresCache | src/index.ts:218-222 | PING answers `'OK\r\n4\r\nPONG'` whatever the cache holds and changes nothing |
| ServerProps.CloseRemovesSession | src/index.ts:223-228 | CLOSE removes only the sender's record, keeps the cache and sends nothing |
| ServerProps.UnknownOpAnswersErr | src/index.ts:229-239 | an unknown operation changes nothing and is answered `ERR`, a length equal to the message's, and the message |
| ServerProps.EmittedToLiveSession | src/index.ts:241-242 | in a valid state every reply is addressed to the remote info of a recorded session, the sender's |
| ServerProps.SentTextIsAscii | src/index.ts:242 | every text reply is ASCII, so `Buffer.from(msg)` sends one byte per character |
| Aes.Key | src/crypto/AES.ts:10 | the key is the first 32 characters of the secret, or all of a shorter one |
| Aes.DecryptData | src/crypto/AES.ts:19-34 | without a secret decryption throws; `DecryptRoundTrip` and `DecryptRefusesForgedTag` state that it gives back exactly what was encrypted under the same secret and refuses any other tag |
| Aes.EncryptPlainText | src/crypto/AES.ts:5-18 | the reply is the frame of what sealing under the secret's first 32 characters produced; `SplitFrame`, `EncryptIsAscii` and `DecryptRoundTrip` state that it splits back into its fields, is ASCII and decrypts to the message |
| Aes.Frame | src/crypto/AES.ts:17 | the text layout of an encrypted reply; `SplitFrame` and `FrameIsOneLine` state that it splits on `' '` into its three fields and holds no CRLF |
| Aes.FieldsAvoidSpace | src/crypto/AES.ts:17 | none of the three fields contains a space |
| Aes.SplitFrame | src/crypto/AES.ts:17 | the encrypted reply splits on `' '` into exactly the hexadecimal ciphertext, the base64 IV and the base64 tag |
| Aes.FrameIsOneLine | src/crypto/AES.ts:17 | the encrypted reply holds no CRLF, so a client's CRLF split gives one line |
| Aes.FrameIsAscii | src/crypto/AES.ts:17 | the encrypted reply is ASCII text |
| Aes.EncryptIsAscii | src/crypto/AES.ts:5-18 | every `encryptPlainText` output is ASCII text |
| Aes.DecryptRoundTrip | src/crypto/AES.ts:5-34 | decrypting the hex field with the IV and tag of an encryption under the same secret gives the message back |
| Aes.DecryptRefusesForgedTag | src/crypto/AES.ts:30-32 | a tag other than the one sealing produced makes decryption fail |
| Crypto.ForgedTagRefused | src/crypto/AES.ts:30-32 | opening a ciphertext under any tag but its own is refused |
| Crypto.OpenIffSealed | src/crypto/AES.ts:25-32 | opening succeeds with a message exactly when sealing that message gives the ciphertext and tag |
| Hex.Encode | src/crypto/AES.ts:13-14 | the hexadecimal text has two digits per byte and only hexadecimal digits |
| Hex.Decode | src/crypto/AES.ts:31 | the decoded bytes are at most half as many as the characters; `RoundTrip` states that it inverts `Encode` |
| Hex.RoundTrip | src/crypto/AES.ts:13 | decoding the hexadecimal text of bytes gives the bytes back |
| Base64.Encode | src/crypto/AES.ts:17 | the base64 text is padded to a multiple of four characters; `RoundTrip` states that `Decode` inverts it |
| Base64.Decode | client/node.js:148-150 | reads the IV and tag fields of a reply; `RoundTrip` states that it inverts `Encode` |
| Base64.RoundTrip | src/crypto/AES.ts:17 | decoding the base64 text of bytes gives the bytes back |
| Text.SplitJoin | src/index.ts:132 | splitting pieces joined by a separator without self-overlap gives the pieces back when none contains it |
| Text.JoinSplit | src/index.ts:132 | joining the pieces of a split with the separator gives the text back |
| Text.DecimalRoundTrip | src/index.ts:233 | the decimal text of a length parses back to the length |
| Frame.IsCommand | src/index.ts:125 | a datagram is a command when bit 7 of its header is set; `RequestFrameParses` and `KeyExchangeParses` state which frames are |
| Frame.PhaseBits | src/index.ts:157 | the phase bits are the header's low two bits, below 4 |
| Frame.RequestFrame | client/node.js:176 | a request frame is one header byte, the IV, the tag and two characters per ciphertext byte |
| Frame.ParseCommandFrame | src/index.ts:128-130 | the server takes at most 16 bytes each of IV and tag |
| Frame.RequestFrameParses | src/index.ts:125-130 | a request frame with a 16-byte IV and tag is a command whose slices give back the IV, the tag and the ciphertext |
| Frame.HelloReply | src/index.ts:168-173 | the hello is two header bytes, the key, the signature and the certificate |
| Frame.ParseHello | client/node.js:88-93 | the client reads a status bit and a length byte |
| Frame.HelloRoundTrip | client/node.js:91-93 | the fixed offsets 2, 135 and 391 invert the server's layout for a 133-byte key and a 256-byte signature |
| Frame.KeyExchange | client/node.js:120-124 | the key exchange is `[0x02, 0x00]` and the encrypted client key; `KeyExchangeParses` states how the server reads it |
| Frame.KeyExchangeParses | client/node.js:120-124 | the key exchange is a handshake step carrying a key and not asking for the hello, with the payload at offset 2 |
| Response.Classify | client/node.js:158-165 | a reply resolves exactly when its status is `OK` in phase 2, with the third line; it is logged exactly when its status is `ERR`; otherwise ignored |
| Response.Falsy | client/node.js:142 | a split field is falsy when it is missing or empty; `HandleResponse` takes the encrypted branch exactly when both the length and message fields are |
| Response.Decrypt | client/node.js:143-152 | decryption succeeds only on a line with at least three space-separated fields |
| Response.HandleResponse | client/node.js:140-166 | a reply with a length or message line is classified as it stands; one with neither is decrypted first, and without a secret that throws |
| Response.ReplyRoundTrip | client/node.js:140-157 | a reply the server encrypted under the secret is handled, under `secret.slice(0, 32)`, exactly as the plain reply's lines |
| Response.BareLine | src/index.ts:132-135 | an operation name alone reads as that operation with no key and no value |
| Response.KeyLine | src/index.ts:132-135 | name, CRLF and a key without CRLF read as that operation on that key, with no value |
| Response.KeyValueLine | src/index.ts:132-135 | name, key and value separated by CRLF read back as the three |
| Response.PongResolves | src/index.ts:219 | the PING reply resolves with `"PONG"` in phase 2 and is ignored otherwise |
| Response.OkStatusIgnored | src/index.ts:43 | a reply starting with U+0001 is neither resolved nor logged |
| Response.CacheRepliesIgnored | src/index.ts:195-214 | the GET reply and `NullReply` are ignored by the client in every phase |
| Response.ErrLogged | src/index.ts:229-236 | the ERR reply is logged with the announced length and the message |
| Response.LoggedLines | client/node.js:163-164 | an `ERR` status with a length and a message line is logged with both |
| ClientNode.HmacKey | client/node.js:19-26 | the AES key is hexadecimal text, the first 32 characters of the HMAC's hexadecimal form |
| ClientNode.ReplyKey | client/node.js:144 | a reply key exists exactly when a secret does, and is the HMAC key of it |
| ClientNode.EncryptPlainText | client/node.js:23-37 | the result carries the given IV, hexadecimal ciphertext that decodes to the sealed one, and the sealed tag |
| ClientNode.Request | client/node.js:167-236 | a call sends a datagram exactly when the client has a secret; `RequestIsCommandFrame` states its layout and content |
| ClientNode.RequestIsCommandFrame | client/node.js:169-236 | with a secret every request is a command datagram: header 0x82, the 16-byte IV at offset 1 and the 16-byte tag at offset 17, and the pieces the server slices out open under the HMAC key to the operation line |
| ClientNode.EncryptRoundTrip | client/node.js:23-37 | the encrypted request opens under the same HMAC key to the text sealed |
| ClientNode.ServerReadsNoArguments | client/node.js:167-208 | the server reads `get`, `set` and `del` as their operation with the key `""` and no value, whatever arguments the call had |
| ClientNode.SetThrowsGetReadsEmptyKey | client/node.js:181-194 | a `set` request makes the server throw on the missing value; a `get` is answered with the entry under `""` |
| ClientNode.IssuedFrom | client/node.js:10-16 | the scan from index i answers `true` only when a later CA certificate issued the candidate, `false` only when every later one parses and none did, and fails only on one that does not parse |
| ClientNode.IssuedBy | client/node.js:8-17 | a candidate that does not parse fails the check; `true` names an issuing CA certificate, `false` means every CA certificate parsed and none issued it, and a failure means some certificate did not parse |
| ClientNode.IssuedByMeaning | client/node.js:8-17 | when every certificate parses, the check is true exactly when some CA certificate issued the candidate; an empty list gives false |
| ClientNode.VerifyFromCACerts | client/node.js:8-17 | the loop with early exit returns the first-match answer, or fails on a certificate that does not parse |
| ClientNode.HandShakeProgress | client/node.js:84-135 | only phase 1 reacts; a zero status bit or length byte throws the handshake error with the state unchanged; an unreadable certificate throws; the hello is rejected, with the state unchanged, exactly when the signature or the CA check fails; the key exchange is sent only when both pass and the shared secret is computed, and phase 2 is reached exactly then |
| ClientNode.HandShakeStep | client/node.js:84-135 | the phase-1 handler on the hello; its outcomes are characterised by `HandShakeProgress`, `HelloAccepted` and `ForgedHelloRejected` |
| ClientNode.OpText | client/node.js:169-231 | the text each call seals, its operation line only; `ServerReadsNoArguments` states what the server reads from it |
| ClientNode.HelloAccepted | client/node.js:88-128 | a signed, CA-issued hello is accepted: phase 2, the hexadecimal SHA-256 secret, and `[0x02, 0x00] ++ publicEncrypt(certKey, clientKey)` |
| ClientNode.ForgedHelloRejected | client/node.js:96-109 | a hello whose signature does not verify is rejected with the state unchanged |
| ClientNode.KeyAgreement | client/node.js:111-128 | after the hello and the key exchange, the server's session holds the secret the client derived, in phase 2 |
| ClientNode.NodeCacheClient.constructor | client/node.js:40-51 | the client starts in phase 1 with no key and no secret |
| ClientNode.NodeCacheClient.HandleHandShake | client/node.js:84-135 | the field updates and the outcome are those of `HandShakeStep` |
| ClientNode.NodeCacheClient.HandShakeTimeout | client/node.js:73-80 | the timeout closes the socket exactly when the phase is not 2, and changes nothing else |
| ClientNode.NodeCacheClient.Send | client/node.js:167-236 | each call sends the request datagram of its operation |
| ClientNode.NodeCacheClient.HandleResponse | client/node.js:140-166 | a reply is handled under the HMAC key of the secret in the current phase |
| ExampleClient.RequestParses | examples/nodeclient.js:137-201 | for keys and values without CRLF the server reads `op + key + value` as that call's command, with no value for GET and DEL |
| ExampleClient.ValueCutAtCrlf | examples/nodeclient.js:151-158 | a value holding CRLF reaches the server cut at its first CRLF, whatever follows it |
| ExampleClient.PlainText | examples/nodeclient.js:137-201 | the text each call seals, `op + key + value`; `RequestParses` and `ValueCutAtCrlf` state what the server reads from it |
| ExampleClient.KeyFor | examples/nodeclient.js:13 | a key exists exactly when a secret does, and is its first 32 characters |
| ExampleClient.Datagram | examples/nodeclient.js:137-206 | a call sends a datagram exactly when the client has a secret |
| ExampleClient.RequestReachesServer | examples/nodeclient.js:137-150 | a request sealed with the session's secret reaches the server as the call's command |
| ExampleClient.CallOutcome | examples/nodeclient.js:111-136 | with a shared secret `ping` resolves `"PONG"` in phase 2, `get`, `set` and `del` answers are ignored, and `close` is not answered |
| ExampleClient.HandShakeStep | examples/nodeclient.js:72-101 | the handshake handler; `HandShakeProgress`, `ServerKeyAccepted` and `BinaryHelloThrows` state its outcomes |
| ExampleClient.KeyDatagram | examples/nodeclient.js:102-106 | `0x02` and the client key; `KeyDatagramAtServer` states how the server reads it |
| ExampleClient.HandShakeProgress | examples/nodeclient.js:72-101 | phase 0 moves to 1 only by sending `0x02 ++ cKey` with a secret, phase 1 moves to 2 and resolves, and any later phase ignores the datagram |
| ExampleClient.ServerKeyAccepted | examples/nodeclient.js:73-89 | a first reply whose third line is a base64 key leaves phase 1, the recorded keys and the hexadecimal SHA-256 secret |
| ExampleClient.BinaryHelloThrows | examples/nodeclient.js:73-83 | a first reply without CRLF, as the server's binary hello usually is, throws in phase 0 with only `cKey` recorded |
| ExampleClient.KeyDatagramAtServer | examples/nodeclient.js:102-106 | the key datagram is a key exchange at the server, whose payload at offset 2 skips the key's first byte |
| ExampleClient.NodeCacheClient.constructor | examples/nodeclient.js:28-39 | the client starts in phase 0 with no keys and no secret |
| ExampleClient.NodeCacheClient.HandleHandShake | examples/nodeclient.js:72-101 | the field updates and the outcome are those of `HandShakeStep` |
| ExampleClient.NodeCacheClient.HandShakeTimeout | examples/nodeclient.js:61-68 | the timeout closes the socket exactly when the phase is not 2, and changes nothing else |
| ExampleClient.NodeCacheClient.Send | examples/nodeclient.js:137-206 | each call sends the request datagram of its operation |
| ExampleClient.NodeCacheClient.HandleResponse | examples/nodeclient.js:111-136 | a reply is handled under the first 32 characters of the secret in the current phase |

## Left out

- Sockets, binding, `'listening'`, SIGINT and the EventEmitter wiring are I/O. A datagram arrives as a call of `OnMessage`, and a sent packet is its result.
- The timers are left out. The handshake timeout is a method the caller invokes, and the one-second close timer of `close()` is not modelled.
- The randomness of `randomBytes(16)` and of `createECDH().generateKeys()` is left out: IVs and key pairs are parameters.
- The cryptographic primitives (ECDH on secp521r1, RSA-SHA256 signatures, `publicEncrypt` and `privateDecrypt`, SHA-256, HMAC-SHA256, AES-256-GCM, X.509 issuer checks, node-forge PEM parsing) are abstract. Nothing cryptographic is claimed about them.
- `Base64.Decode`: refuses malformed text. Node's decoder skips invalid characters, so every decode failure the model reports on non-base64 input is lenient success in Node.
- `Wire.BytesText`: `buffer.toString()` is modelled one character per byte. This agrees with UTF-8 on ASCII, which every text reply and request is. The one read of binary data as text is `examples/nodeclient.js:73`, where `buffer.toString()` is applied to the server's binary hello. There the model's one character per byte differs from Node's UTF-8 decoding, which turns invalid sequences into U+FFFD. The model uses only that this text holds no CRLF (`ExampleClient.BinaryHelloThrows`).
- String lengths are `|s|`, not UTF-16 code units, and byte lengths on the wire are not reasoned about.
- An uncaught exception in a handler ends the handler, and in Node possibly the process. It is modelled as a `Thrown` or `Failed` outcome that keeps the state changed so far.
- Dictionary keys that collide with `Object.prototype` properties (such as `__proto__`) are treated as ordinary keys.
- A server started without `ca` and `key` has no ECDH key pair; the model assumes both are configured.
- The idle TTL of sessions exists only in a comment; no eviction is modelled.
- `src/crypto/hash.ts`, `bind`, `createServer`'s single-instance check and `handleServerError` are not part of this model.
- A working session between `client/node.js` and the server is not claimed. That client keys AES on the HMAC of the secret while the server uses `secret.slice(0, 32)`, so its requests are not shown to open at the server. `ClientNode.RequestIsCommandFrame` shows that they are well-formed command frames that open under the client's own key, and `ClientNode.KeyAgreement` covers the handshake.
- A working handshake between `examples/nodeclient.js` and the server is not claimed. That client expects a CRLF text hello, and its key datagram lacks the RSA encryption the server expects; `ExampleClient.BinaryHelloThrows` and `ExampleClient.KeyDatagramAtServer` state the mismatch. The end-to-end command lemmas assume a session whose secret equals the client's.
- The handshake listener stays registered in both clients. `client/node.js:57` registers it and never removes it. `examples/nodeclient.js:92-95` passes `removeListener` a fresh bound function, so nothing is removed. Later datagrams reach `handleHandShake` too, which ignores them in phase 2; the model runs the two handlers separately.
- The `console` output of both clients (the `PONG` line, the error log, the certificate warning) is not modelled beyond the `Logged` and `Rejected` outcomes.
