/** Attachment blobs: IV, CBC ciphertext of the zero-padded and PKCS#7-padded plaintext, MAC. */
module Attachments {
  import opened Bytes
  import Cbc
  import Buckets

  const IV_LENGTH := 16
  const AES_KEY_LENGTH := 32
  const MAC_LENGTH := 32
  const KEY_LENGTH := 64

  /** The primitives taken from libraries. */
  datatype Crypto = Crypto(
    cipher: Cbc.BlockCipher,
    hmac: (seq<byte>, seq<byte>) -> seq<byte>,
    sha256: seq<byte> -> seq<byte>)
  {
    ghost predicate Lawful() {
      cipher.Lawful() && forall k, m :: |hmac(k, m)| == MAC_LENGTH
    }
  }

  datatype Error = BadKeyLength | DigestMismatch | TooShort | MacMismatch | CipherFailure

  datatype Sealed = Sealed(blob: seq<byte>, key: seq<byte>, digest: seq<byte>)

  /** The random keys and IV one encryption draws. */
  datatype Draw = Draw(aesKey: seq<byte>, hmacKey: seq<byte>, iv: seq<byte>) {
    predicate Valid() { |aesKey| == AES_KEY_LENGTH && |hmacKey| == KEY_LENGTH - AES_KEY_LENGTH && |iv| == IV_LENGTH }
  }

  function ZeroPadded(plaintext: seq<byte>): (r: seq<byte>)
    ensures |r| == Buckets.PaddedSize(|plaintext|) && plaintext <= r
  {
    Buckets.BucketHolds(|plaintext|);
    plaintext + Zeros(Buckets.PaddedSize(|plaintext|) - |plaintext|)
  }

  function Encrypt(c: Crypto, plaintext: seq<byte>, draw: Draw): Sealed
    requires c.Lawful() && draw.Valid()
  {
    var ciphertext := Cbc.Encrypt(c.cipher, draw.aesKey, draw.iv, Cbc.Pkcs7Pad(ZeroPadded(plaintext)));
    var mac := c.hmac(draw.hmacKey, draw.iv + ciphertext);
    var blob := draw.iv + ciphertext + mac;
    Sealed(blob, draw.aesKey + draw.hmacKey, c.sha256(blob))
  }

  function Decrypt(c: Crypto, blob: seq<byte>, key: seq<byte>, digest: seq<byte>, size: nat): Result<seq<byte>, Error>
    requires c.Lawful()
  {
    if |key| != KEY_LENGTH then Failure(BadKeyLength)
    else if c.sha256(blob) != digest then Failure(DigestMismatch)
    else if |blob| < IV_LENGTH + MAC_LENGTH then Failure(TooShort)
    else
      var iv := blob[..IV_LENGTH];
      var ciphertext := blob[IV_LENGTH..|blob| - MAC_LENGTH];
      var mac := blob[|blob| - MAC_LENGTH..];
      if mac != c.hmac(key[AES_KEY_LENGTH..], iv + ciphertext) then Failure(MacMismatch)
      else
        match Cbc.Open(c.cipher, key[..AES_KEY_LENGTH], iv, ciphertext)
        case None => Failure(CipherFailure)
        case Some(padded) => Success(Take(padded, size))
  }

  lemma FrameSplits(iv: seq<byte>, ciphertext: seq<byte>, mac: seq<byte>)
    requires |iv| == IV_LENGTH && |mac| == MAC_LENGTH
    ensures var blob := iv + ciphertext + mac;
            blob[..IV_LENGTH] == iv && blob[IV_LENGTH..|blob| - MAC_LENGTH] == ciphertext && blob[|blob| - MAC_LENGTH..] == mac
  {
    var blob := iv + ciphertext + mac;
    assert blob[..IV_LENGTH] == iv;
    assert blob[IV_LENGTH..|blob| - MAC_LENGTH] == ciphertext;
    assert blob[|blob| - MAC_LENGTH..] == mac;
  }

  lemma KeySplits(aesKey: seq<byte>, hmacKey: seq<byte>)
    requires |aesKey| == AES_KEY_LENGTH
    ensures (aesKey + hmacKey)[..AES_KEY_LENGTH] == aesKey && (aesKey + hmacKey)[AES_KEY_LENGTH..] == hmacKey
  {
  }

  /** A frame with the right digest and MAC decrypts to what its ciphertext opens to. */
  lemma DecryptFrame(c: Crypto, iv: seq<byte>, ciphertext: seq<byte>, aesKey: seq<byte>, hmacKey: seq<byte>, padded: seq<byte>, size: nat)
    requires c.Lawful() && |iv| == IV_LENGTH && |aesKey| == AES_KEY_LENGTH && |aesKey + hmacKey| == KEY_LENGTH
    requires Cbc.Open(c.cipher, aesKey, iv, ciphertext) == Some(padded)
    ensures var blob := iv + ciphertext + c.hmac(hmacKey, iv + ciphertext);
            Decrypt(c, blob, aesKey + hmacKey, c.sha256(blob), size) == Success(Take(padded, size))
  {
    FrameSplits(iv, ciphertext, c.hmac(hmacKey, iv + ciphertext));
    KeySplits(aesKey, hmacKey);
  }

  /** blob is IV, ciphertext and the MAC over both under this key, and the ciphertext opens. */
  ghost predicate IsFrame(c: Crypto, blob: seq<byte>, key: seq<byte>, iv: seq<byte>, ciphertext: seq<byte>, padded: seq<byte>)
    requires c.Lawful() && |key| == KEY_LENGTH
  {
    && |iv| == 16 && blob == iv + ciphertext + c.hmac(key[32..], iv + ciphertext)
    && Cbc.Open(c.cipher, key[..32], iv, ciphertext) == Some(padded)
  }

  /** A blob is accepted exactly when the key has 64 bytes, the digest is the blob's, and the
      blob is such a frame; the result is what its ciphertext opens to, cut to size. */
  lemma AcceptedBlob(c: Crypto, blob: seq<byte>, key: seq<byte>, digest: seq<byte>, size: nat, data: seq<byte>)
    requires c.Lawful()
    ensures Decrypt(c, blob, key, digest, size) == Success(data) <==>
            && |key| == 64 && digest == c.sha256(blob)
            && exists iv: seq<byte>, ciphertext: seq<byte>, padded: seq<byte> :: IsFrame(c, blob, key, iv, ciphertext, padded) && data == Take(padded, size)
  {
    if Decrypt(c, blob, key, digest, size) == Success(data) {
      AcceptedIsFrame(c, blob, key, digest, size);
    }
    if |key| == 64 && digest == c.sha256(blob) {
      forall iv: seq<byte>, ciphertext: seq<byte>, padded: seq<byte> | IsFrame(c, blob, key, iv, ciphertext, padded)
        ensures Decrypt(c, blob, key, digest, size) == Success(Take(padded, size))
      {
        assert key[..32] + key[32..] == key;
        DecryptFrame(c, iv, ciphertext, key[..32], key[32..], padded, size);
      }
    }
  }

  lemma AcceptedIsFrame(c: Crypto, blob: seq<byte>, key: seq<byte>, digest: seq<byte>, size: nat)
    requires c.Lawful() && Decrypt(c, blob, key, digest, size).Success?
    ensures |key| == 64 && digest == c.sha256(blob) && |blob| >= 48
    ensures var ct := blob[16..|blob| - 32];
            && Cbc.Open(c.cipher, key[..32], blob[..16], ct).Some?
            && IsFrame(c, blob, key, blob[..16], ct, Cbc.Open(c.cipher, key[..32], blob[..16], ct).value)
            && Decrypt(c, blob, key, digest, size).value == Take(Cbc.Open(c.cipher, key[..32], blob[..16], ct).value, size)
  {
    assert blob == blob[..16] + blob[16..|blob| - 32] + blob[|blob| - 32..];
  }

  /** For every declared size, decryption gives that much of the zero-padded plaintext. */
  lemma DecryptEncrypt(c: Crypto, plaintext: seq<byte>, draw: Draw, size: nat)
    requires c.Lawful() && draw.Valid()
    ensures var s := Encrypt(c, plaintext, draw);
            Decrypt(c, s.blob, s.key, s.digest, size) == Success(Take(ZeroPadded(plaintext), size))
  {
    var padded := ZeroPadded(plaintext);
    var ciphertext := Cbc.Encrypt(c.cipher, draw.aesKey, draw.iv, Cbc.Pkcs7Pad(padded));
    Cbc.OpenSeal(c.cipher, draw.aesKey, draw.iv, padded);
    DecryptFrame(c, draw.iv, ciphertext, draw.aesKey, draw.hmacKey, padded, size);
  }

  /** The round trip: the declared size of the original returns the original. */
  lemma RoundTrip(c: Crypto, plaintext: seq<byte>, draw: Draw)
    requires c.Lawful() && draw.Valid()
    ensures var s := Encrypt(c, plaintext, draw);
            Decrypt(c, s.blob, s.key, s.digest, |plaintext|) == Success(plaintext)
  {
    DecryptEncrypt(c, plaintext, draw, |plaintext|);
    assert Take(ZeroPadded(plaintext), |plaintext|) == plaintext;
  }

  /** The blob's length depends on the bucket alone, so plaintexts of one bucket look alike. */
  lemma BlobLength(c: Crypto, plaintext: seq<byte>, draw: Draw)
    requires c.Lawful() && draw.Valid()
    ensures |Encrypt(c, plaintext, draw).blob| == 48 + 16 * (Buckets.PaddedSize(|plaintext|) / 16 + 1)
  {
  }

  /** The pointer's key is 64 bytes, the cipher key and then the MAC key, and the MAC ends the blob. */
  lemma KeyAndMac(c: Crypto, plaintext: seq<byte>, draw: Draw)
    requires c.Lawful() && draw.Valid()
    ensures var s := Encrypt(c, plaintext, draw);
            && |s.key| == 64 && s.key[..32] == draw.aesKey && s.key[32..] == draw.hmacKey && s.digest == c.sha256(s.blob)
            && |s.blob| >= 48 && s.blob[..16] == draw.iv && s.blob[|s.blob| - 32..] == c.hmac(s.key[32..], s.blob[..|s.blob| - 32])
  {
    var ciphertext := Cbc.Encrypt(c.cipher, draw.aesKey, draw.iv, Cbc.Pkcs7Pad(ZeroPadded(plaintext)));
    var mac := c.hmac(draw.hmacKey, draw.iv + ciphertext);
    KeySplits(draw.aesKey, draw.hmacKey);
    FrameSplits(draw.iv, ciphertext, mac);
    assert (draw.iv + ciphertext + mac)[..|draw.iv + ciphertext|] == draw.iv + ciphertext;
  }

  /** A blob other than the one sent is accepted under the sent key and digest only if it is
      a SHA-256 collision; so without one, whatever is accepted is the original. */
  lemma AcceptsOnlyTheOriginal(c: Crypto, plaintext: seq<byte>, draw: Draw, blob: seq<byte>)
    requires c.Lawful() && draw.Valid()
    requires c.sha256(blob) == c.sha256(Encrypt(c, plaintext, draw).blob) ==> blob == Encrypt(c, plaintext, draw).blob
    ensures var s := Encrypt(c, plaintext, draw);
            var r := Decrypt(c, blob, s.key, s.digest, |plaintext|);
            (r.Success? <==> blob == s.blob) && (r.Success? ==> r.value == plaintext)
  {
    RoundTrip(c, plaintext, draw);
  }
}
