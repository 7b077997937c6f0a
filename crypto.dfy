/** The cryptographic primitives the cache protocol calls, kept abstract.
    A `Suite` bundles one interpretation of every primitive; the protocol
    code is written against any suite, and the few facts the framing
    proofs need about authenticated encryption are stated once, in
    `Lawful`, and required only by the lemmas that use them. Nothing here
    claims anything cryptographic (no key agreement, no unforgeability). */
module Crypto {
  import opened Wire

  /** An elliptic-curve key pair as `crypto.createECDH('secp521r1')`
      holds it after `generateKeys()`; `pub` is what `getPublicKey()`
      returns. */
  datatype KeyPair = KeyPair(priv: seq<byte>, pub: seq<byte>)

  /** What an AES-256-GCM cipher produces for one message. */
  datatype Sealed = Sealed(ct: seq<byte>, tag: seq<byte>)

  datatype Suite = Suite(
    /** `createCipheriv('aes-256-gcm', key, iv)`, `update`, `final` and
        `getAuthTag()`: the message is taken as UTF-8 text. */
    seal: (string, seq<byte>, string) -> Sealed,
    /** `createDecipheriv('aes-256-gcm', key, iv)`, `setAuthTag(tag)`,
        `update` and `final`: `None` when any of them throws (bad key or
        IV length, or the tag does not authenticate the ciphertext). */
    open: (string, seq<byte>, seq<byte>, seq<byte>) -> Option<string>,
    /** `createSign('SHA256')` over `data`, signed with a PEM private key. */
    sign: (string, seq<byte>) -> seq<byte>,
    /** `createVerify('SHA256')` over `data`: does `signature` verify under
        the PEM public key? */
    verify: (string, seq<byte>, seq<byte>) -> bool,
    /** `crypto.privateDecrypt(key, data)`; `None` when it throws. */
    privateDecrypt: (string, seq<byte>) -> Option<seq<byte>>,
    /** `crypto.publicEncrypt(key, data)`. */
    publicEncrypt: (string, seq<byte>) -> seq<byte>,
    /** `ecdh.computeSecret(peer)`; `None` when the peer key is refused. */
    computeSecret: (KeyPair, seq<byte>) -> Option<seq<byte>>,
    /** The SHA-256 digest. */
    sha256: seq<byte> -> seq<byte>,
    /** HMAC-SHA256 (RFC 2104) keyed with bytes, over UTF-8 text. */
    hmacSha256: (seq<byte>, string) -> seq<byte>,
    /** node-forge `certificateFromPem` followed by `publicKeyToPem` of the
        certificate's key; `None` when the PEM does not parse. */
    certPublicKey: string -> Option<string>,
    /** `new crypto.X509Certificate(pem)` succeeds. */
    x509Parses: string -> bool,
    /** `subject.checkIssued(issuer)` on two parsed certificates. */
    checkIssued: (string, string) -> bool
  )

  /** The facts about AES-256-GCM the framing proofs rest on: opening what
      was sealed gives the message back, opening succeeds only on what
      sealing produced, a ciphertext stands for one message, and the tag is
      16 bytes long. */
  ghost predicate Lawful(s: Suite) {
    && (forall k, iv, m :: s.open(k, iv, s.seal(k, iv, m).tag, s.seal(k, iv, m).ct) == Some(m))
    && (forall k, iv, t, c :: s.open(k, iv, t, c).Some? ==> s.seal(k, iv, s.open(k, iv, t, c).value) == Sealed(c, t))
    && (forall k, iv, m1, m2 :: s.seal(k, iv, m1).ct == s.seal(k, iv, m2).ct ==> m1 == m2)
    && (forall k, iv, m :: |s.seal(k, iv, m).tag| == 16)
  }

  /** A ciphertext opened under any tag but its own is refused. */
  lemma ForgedTagRefused(s: Suite, k: string, iv: seq<byte>, m: string, t: seq<byte>)
    requires Lawful(s)
    requires t != s.seal(k, iv, m).tag
    ensures s.open(k, iv, t, s.seal(k, iv, m).ct) == None
  {
    var c := s.seal(k, iv, m).ct;
    var r := s.open(k, iv, t, c);
    assert forall m' :: r == Some(m') ==> s.seal(k, iv, m') == Sealed(c, t);
    assert forall m' :: r == Some(m') ==> m' == m;
  }

  /** Opening succeeds exactly on what sealing produced. */
  lemma OpenIffSealed(s: Suite, k: string, iv: seq<byte>, t: seq<byte>, c: seq<byte>, m: string)
    requires Lawful(s)
    ensures s.open(k, iv, t, c) == Some(m) <==> s.seal(k, iv, m) == Sealed(c, t)
  {
    if s.seal(k, iv, m) == Sealed(c, t) {
      assert s.open(k, iv, s.seal(k, iv, m).tag, s.seal(k, iv, m).ct) == Some(m);
    }
  }
}
