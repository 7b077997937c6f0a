/** The server's reply encryption and request decryption
    (src/crypto/AES.ts). A reply is sealed under the first 32 characters of
    the session secret and written as one line of three space-separated
    fields: the ciphertext in hexadecimal, then the IV and the tag in
    base64. */
module Aes {
  import opened Wire
  import opened Text
  import Hex
  import Base64
  import opened Crypto

  /** `secret.slice(0, 32)`: the AES-256 key both directions use. */
  function Key(secret: string): (k: string)
    ensures |secret| >= 32 ==> |k| == 32 && k == secret[..32]
    ensures |secret| < 32 ==> k == secret
  {
    Take(secret, 32)
  }

  /** The text layout of an encrypted reply. */
  function Frame(ct: seq<byte>, iv: seq<byte>, tag: seq<byte>): string {
    Hex.Encode(ct) + Space + Base64.Encode(iv) + Space + Base64.Encode(tag)
  }

  /** `encryptPlainText(secretKey, msg)`, with the random 16-byte IV passed
      in; the reply is the frame of what the cipher produced. */
  function EncryptPlainText(s: Suite, secretKey: string, msg: string, iv: seq<byte>): (r: string)
    ensures r == Frame(s.seal(Key(secretKey), iv, msg).ct, iv, s.seal(Key(secretKey), iv, msg).tag)
  {
    var sealed := s.seal(Key(secretKey), iv, msg);
    Frame(sealed.ct, iv, sealed.tag)
  }

  /** `decryptData(sInfo, iv, tag, data)`. A session without a secret
      makes `secret.slice` throw, and a refused decipher throws too; both
      are `None`. The hexadecimal text is read as `'hex'` input is. */
  function DecryptData(s: Suite, secret: Option<string>, iv: seq<byte>, tag: seq<byte>, data: string): (r: Option<string>)
    ensures secret.None? ==> r.None?
    ensures secret.Some? ==> r == s.open(Key(secret.value), iv, tag, Hex.Decode(data))
  {
    match secret
    case None => None
    case Some(k) => s.open(Key(k), iv, tag, Hex.Decode(data))
  }

  /** The frame holds no space inside its fields. */
  lemma FieldsAvoidSpace(ct: seq<byte>, iv: seq<byte>, tag: seq<byte>)
    ensures !Contains(Hex.Encode(ct), Space)
    ensures !Contains(Base64.Encode(iv), Space)
    ensures !Contains(Base64.Encode(tag), Space)
  {
    HexAvoids(Hex.Encode(ct), Space);
    Base64Avoids(Base64.Encode(iv), Space);
    Base64Avoids(Base64.Encode(tag), Space);
  }

  lemma HexAvoids(h: string, d: string)
    requires Hex.IsHexText(h) && |d| > 0
    requires forall i | 0 <= i < |d| :: !Hex.IsHexDigit(d[i])
    ensures !Contains(h, d)
  {
    assert Avoids(h, d);
    AvoidsNotContains(h, d);
  }

  lemma Base64Avoids(b: string, d: string)
    requires Base64.IsBase64Text(b) && |d| > 0
    requires forall i | 0 <= i < |d| :: !Base64.IsAlphabetChar(d[i]) && d[i] != '='
    ensures !Contains(b, d)
  {
    assert Avoids(b, d);
    AvoidsNotContains(b, d);
  }

  /** Splitting an encrypted reply on `' '` gives back its three fields,
      in order. */
  lemma SplitFrame(ct: seq<byte>, iv: seq<byte>, tag: seq<byte>)
    ensures Split(Frame(ct, iv, tag), Space) == [Hex.Encode(ct), Base64.Encode(iv), Base64.Encode(tag)]
  {
    Base64.EncodeAlphabet(iv);
    Base64.EncodeAlphabet(tag);
    FieldsAvoidSpace(ct, iv, tag);
    SplitThree(Hex.Encode(ct), Base64.Encode(iv), Base64.Encode(tag), Space);
  }

  /** An encrypted reply holds no CRLF: it is one line. */
  lemma FrameIsOneLine(ct: seq<byte>, iv: seq<byte>, tag: seq<byte>)
    ensures !Contains(Frame(ct, iv, tag), CRLF)
    ensures Split(Frame(ct, iv, tag), CRLF) == [Frame(ct, iv, tag)]
  {
    var f := Frame(ct, iv, tag);
    Base64.EncodeAlphabet(iv);
    Base64.EncodeAlphabet(tag);
    assert Avoids(Hex.Encode(ct), CRLF);
    assert Avoids(Base64.Encode(iv), CRLF);
    assert Avoids(Base64.Encode(tag), CRLF);
    assert Avoids(Space, CRLF);
    AvoidsConcat(Hex.Encode(ct), Space, CRLF);
    AvoidsConcat(Hex.Encode(ct) + Space, Base64.Encode(iv), CRLF);
    AvoidsConcat(Hex.Encode(ct) + Space + Base64.Encode(iv), Space, CRLF);
    AvoidsConcat(Hex.Encode(ct) + Space + Base64.Encode(iv) + Space, Base64.Encode(tag), CRLF);
    AvoidsNotContains(f, CRLF);
    assert IndexOf(f, CRLF).None?;
  }

  /** An encrypted reply is ASCII text, so `Buffer.from` of it is one byte
      per character. */
  lemma FrameIsAscii(ct: seq<byte>, iv: seq<byte>, tag: seq<byte>)
    ensures IsAscii(Frame(ct, iv, tag))
  {
    var h := Hex.Encode(ct);
    var a := Base64.Encode(iv);
    var b := Base64.Encode(tag);
    Base64.EncodeAlphabet(iv);
    Base64.EncodeAlphabet(tag);
    var f := Frame(ct, iv, tag);
    forall i | 0 <= i < |f| ensures f[i] as int < 128 {
      if i < |h| {
        assert f[i] == h[i];
      } else if i == |h| {
      } else if i < |h| + 1 + |a| {
        assert f[i] == a[i - |h| - 1];
      } else if i == |h| + 1 + |a| {
      } else {
        assert f[i] == b[i - |h| - 2 - |a|];
      }
    }
  }

  /** An encrypted reply is ASCII text. */
  lemma EncryptIsAscii(s: Suite, secret: string, msg: string, iv: seq<byte>)
    ensures IsAscii(EncryptPlainText(s, secret, msg, iv))
  {
    var sealed := s.seal(Key(secret), iv, msg);
    FrameIsAscii(sealed.ct, iv, sealed.tag);
  }

  /** Decrypting what was encrypted under the same secret gives the message
      back: both sides key on the same 32 characters of the secret. */
  lemma DecryptRoundTrip(s: Suite, secret: string, msg: string, iv: seq<byte>)
    requires Lawful(s)
    ensures var sealed := s.seal(Key(secret), iv, msg);
      DecryptData(s, Some(secret), iv, sealed.tag, Hex.Encode(sealed.ct)) == Some(msg)
  {
    var sealed := s.seal(Key(secret), iv, msg);
    Hex.RoundTrip(sealed.ct);
  }

  /** With a tag other than the one sealing produced, decryption fails
      rather than return text. */
  lemma DecryptRefusesForgedTag(s: Suite, secret: string, msg: string, iv: seq<byte>, tag: seq<byte>)
    requires Lawful(s)
    requires tag != s.seal(Key(secret), iv, msg).tag
    ensures DecryptData(s, Some(secret), iv, tag, Hex.Encode(s.seal(Key(secret), iv, msg).ct)) == None
  {
    Hex.RoundTrip(s.seal(Key(secret), iv, msg).ct);
    ForgedTagRefused(s, Key(secret), iv, msg, tag);
  }
}
