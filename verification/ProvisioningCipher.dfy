/** The envelope of the linking handshake: version byte, IV, CBC ciphertext, MAC, under keys
    derived from a Diffie-Hellman agreement. */
module ProvisioningCipher {
  import opened Bytes
  import Cbc

  const VERSION: byte := 1
  const MAC_LENGTH := 32
  const KEY_MATERIAL := 64

  datatype Error = TooShort | BadVersion | MacMismatch | CipherFailure

  datatype Crypto = Crypto(
    cipher: Cbc.BlockCipher,
    hmac: (seq<byte>, seq<byte>) -> seq<byte>,
    hkdf: seq<byte> -> seq<byte>,                    // salt, info and length are fixed
    publicOf: seq<byte> -> seq<byte>,
    agree: (seq<byte>, seq<byte>) -> seq<byte>)      // private, public
  {
    ghost predicate Lawful() {
      && cipher.Lawful()
      && (forall k, m :: |hmac(k, m)| == MAC_LENGTH)
      && (forall s :: |hkdf(s)| == KEY_MATERIAL)
      && (forall a, b :: agree(a, publicOf(b)) == agree(b, publicOf(a)))
    }
  }

  /** The cipher key and the MAC key. */
  function DeriveKeys(c: Crypto, shared: seq<byte>): (r: (seq<byte>, seq<byte>))
    requires c.Lawful()
    ensures |r.0| == 32 && |r.1| == 32 && r.0 + r.1 == c.hkdf(shared)
  {
    var material := c.hkdf(shared);
    (material[..32], material[32..])
  }

  function Encrypt(c: Crypto, plaintext: seq<byte>, theirPublic: seq<byte>, ourPrivate: seq<byte>, iv: seq<byte>): seq<byte>
    requires c.Lawful() && |iv| == 16
  {
    var (aesKey, macKey) := DeriveKeys(c, c.agree(ourPrivate, theirPublic));
    var ciphertext := Cbc.Seal(c.cipher, aesKey, iv, plaintext).value;
    var mac := c.hmac(macKey, [VERSION] + iv + ciphertext);
    [VERSION] + iv + ciphertext + Take(mac, MAC_LENGTH)
  }

  function Decrypt(c: Crypto, body: seq<byte>, theirPublic: seq<byte>, ourPrivate: seq<byte>): Result<seq<byte>, Error>
    requires c.Lawful()
  {
    if |body| < 1 + 16 + MAC_LENGTH then Failure(TooShort)
    else if body[0] != VERSION then Failure(BadVersion)
    else
      var mac := body[|body| - MAC_LENGTH..];
      var signed := body[..|body| - MAC_LENGTH];
      var iv := signed[1..17];
      var ciphertext := signed[17..];
      var (aesKey, macKey) := DeriveKeys(c, c.agree(ourPrivate, theirPublic));
      if mac != Take(c.hmac(macKey, signed), MAC_LENGTH) then Failure(MacMismatch)
      else
        match Cbc.Open(c.cipher, aesKey, iv, ciphertext)
        case None => Failure(CipherFailure)
        case Some(plaintext) => Success(plaintext)
  }

  /** What the primary seals for the secondary's public key the secondary opens with its
      private key and the primary's public key, for every length. */
  lemma RoundTrip(c: Crypto, plaintext: seq<byte>, primary: seq<byte>, secondary: seq<byte>, iv: seq<byte>)
    requires c.Lawful() && |iv| == 16
    ensures var body := Encrypt(c, plaintext, c.publicOf(secondary), primary, iv);
            && |body| == 49 + 16 * (|plaintext| / 16 + 1)
            && Decrypt(c, body, c.publicOf(primary), secondary) == Success(plaintext)
  {
    var shared := c.agree(primary, c.publicOf(secondary));
    var (aesKey, macKey) := DeriveKeys(c, shared);
    var ciphertext := Cbc.Seal(c.cipher, aesKey, iv, plaintext).value;
    var signed := [VERSION] + iv + ciphertext;
    var body := Encrypt(c, plaintext, c.publicOf(secondary), primary, iv);
    var mac := c.hmac(macKey, signed);
    assert body == signed + mac;
    Splits(iv, ciphertext, mac);
    Cbc.OpenSeal(c.cipher, aesKey, iv, plaintext);
  }

  /** body is version, IV, ciphertext and the MAC over them, and the ciphertext opens. */
  ghost predicate IsFrame(c: Crypto, keys: (seq<byte>, seq<byte>), body: seq<byte>, iv: seq<byte>, ct: seq<byte>, plaintext: seq<byte>)
    requires c.Lawful()
  {
    && |iv| == 16 && body == ([1] + iv + ct) + c.hmac(keys.1, [1] + iv + ct)
    && Cbc.Open(c.cipher, keys.0, iv, ct) == Some(plaintext)
  }

  lemma Parts(body: seq<byte>)
    requires |body| >= 1 + 16 + MAC_LENGTH && body[0] == VERSION
    ensures var signed := body[..|body| - MAC_LENGTH];
            |signed[1..17]| == 16 && signed == [VERSION] + signed[1..17] + signed[17..] && body == signed + body[|body| - MAC_LENGTH..]
  {
    var signed := body[..|body| - MAC_LENGTH];
    assert signed == signed[..1] + signed[1..17] + signed[17..];
  }

  lemma Splits(iv: seq<byte>, ct: seq<byte>, mac: seq<byte>)
    requires |iv| == 16 && |mac| == MAC_LENGTH
    ensures var signed := [VERSION] + iv + ct;
            var body := signed + mac;
            && body[..|body| - MAC_LENGTH] == signed && body[|body| - MAC_LENGTH..] == mac
            && signed[1..17] == iv && signed[17..] == ct && body[0] == VERSION && |body| >= 1 + 16 + MAC_LENGTH
  {
    var signed := [VERSION] + iv + ct;
    assert (signed + mac)[0] == signed[0] == VERSION;
  }

  lemma AcceptedIsFrame(c: Crypto, body: seq<byte>, theirPublic: seq<byte>, ourPrivate: seq<byte>, plaintext: seq<byte>)
    requires c.Lawful() && Decrypt(c, body, theirPublic, ourPrivate) == Success(plaintext)
    ensures var signed := body[..|body| - MAC_LENGTH];
            IsFrame(c, DeriveKeys(c, c.agree(ourPrivate, theirPublic)), body, signed[1..17], signed[17..], plaintext)
  {
    Parts(body);
  }

  lemma FrameIsAccepted(c: Crypto, body: seq<byte>, theirPublic: seq<byte>, ourPrivate: seq<byte>, plaintext: seq<byte>, iv: seq<byte>, ct: seq<byte>)
    requires c.Lawful() && IsFrame(c, DeriveKeys(c, c.agree(ourPrivate, theirPublic)), body, iv, ct, plaintext)
    ensures Decrypt(c, body, theirPublic, ourPrivate) == Success(plaintext)
  {
    var keys := DeriveKeys(c, c.agree(ourPrivate, theirPublic));
    Splits(iv, ct, c.hmac(keys.1, [VERSION] + iv + ct));
  }

  /** The frame has one parse: an accepted body is exactly version, IV, ciphertext and the MAC
      over them, and its ciphertext opens to the result. */
  lemma AcceptedFrame(c: Crypto, body: seq<byte>, theirPublic: seq<byte>, ourPrivate: seq<byte>, plaintext: seq<byte>)
    requires c.Lawful()
    ensures Decrypt(c, body, theirPublic, ourPrivate) == Success(plaintext) <==>
            exists iv, ct :: IsFrame(c, DeriveKeys(c, c.agree(ourPrivate, theirPublic)), body, iv, ct, plaintext)
  {
    if Decrypt(c, body, theirPublic, ourPrivate) == Success(plaintext) {
      AcceptedIsFrame(c, body, theirPublic, ourPrivate, plaintext);
    } else if iv, ct :| IsFrame(c, DeriveKeys(c, c.agree(ourPrivate, theirPublic)), body, iv, ct, plaintext) {
      FrameIsAccepted(c, body, theirPublic, ourPrivate, plaintext, iv, ct);
    }
  }

  /** Why a body is refused, in the order it is examined. */
  lemma Refusals(c: Crypto, body: seq<byte>, theirPublic: seq<byte>, ourPrivate: seq<byte>)
    requires c.Lawful()
    ensures var r := Decrypt(c, body, theirPublic, ourPrivate);
            && (|body| < 49 <==> r == Failure(TooShort))
            && (|body| >= 49 && body[0] != 1 <==> r == Failure(BadVersion))
            && (r == Failure(MacMismatch) <==>
                  && |body| >= 49 && body[0] == 1
                  && body[|body| - 32..] != c.hmac(DeriveKeys(c, c.agree(ourPrivate, theirPublic)).1, body[..|body| - 32]))
  {
  }
}
