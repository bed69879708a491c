/** CBC mode (section 6.2 of NIST SP 800-38A) over an arbitrary 16-byte block permutation, and
    PKCS#7 padding (section 6.3 of RFC 5652). */
module Cbc {
  import opened Bytes

  const BLOCK := 16

  /** A block cipher from a library: key and block to block, both ways. */
  datatype BlockCipher = BlockCipher(enc: (seq<byte>, seq<byte>) -> seq<byte>, dec: (seq<byte>, seq<byte>) -> seq<byte>) {
    /** The one law it is used under: for each key, dec inverts enc on 16-byte blocks. */
    ghost predicate Lawful() {
      forall k, b :: |b| == BLOCK ==> |enc(k, b)| == BLOCK && |dec(k, b)| == BLOCK && dec(k, enc(k, b)) == b
    }
  }

  function Pow2(n: nat): nat {
    if n == 0 then 1 else 2 * Pow2(n - 1)
  }

  /** Exclusive or of the n low bits. */
  function XorBits(a: nat, b: nat, n: nat): (r: nat)
    ensures r < Pow2(n)
  {
    if n == 0 then 0 else (a + b) % 2 + 2 * XorBits(a / 2, b / 2, n - 1)
  }

  lemma {:induction false} XorBitsInvolutive(a: nat, b: nat, n: nat)
    requires a < Pow2(n)
    ensures XorBits(XorBits(a, b, n), b, n) == a
  {
    if n > 0 {
      XorBitsInvolutive(a / 2, b / 2, n - 1);
      LowBit(a, b, XorBits(a / 2, b / 2, n - 1));
    }
  }

  lemma Bits(bit: nat, high: nat)
    requires bit < 2
    ensures (bit + 2 * high) % 2 == bit && (bit + 2 * high) / 2 == high
  {
  }

  /** The low bit of an exclusive or, the rest of it, and the low bit of doing it twice. */
  lemma LowBit(a: nat, b: nat, high: nat)
    ensures var x := (a + b) % 2 + 2 * high;
            x / 2 == high && a == (x + b) % 2 + 2 * (a / 2)
  {
    var p, q := a % 2, b % 2;
    var e := if p == q then 0 else 1;
    assert a == p + 2 * (a / 2) && b == q + 2 * (b / 2);
    assert a + b == e + 2 * (a / 2 + b / 2 + (p + q - e) / 2);
    Bits(e, a / 2 + b / 2 + (p + q - e) / 2);
    Bits(e, high);
    assert e + 2 * high + b == p + 2 * (high + b / 2 + (e + q - p) / 2);
    Bits(p, high + b / 2 + (e + q - p) / 2);
  }

  /** Bit i of a number. */
  function Bit(x: nat, i: nat): bool {
    if i == 0 then x % 2 == 1 else Bit(x / 2, i - 1)
  }

  /** Each bit of an exclusive or is set exactly when the two bits differ. */
  lemma {:induction false} XorBitwise(a: nat, b: nat, n: nat, i: nat)
    requires i < n
    ensures Bit(XorBits(a, b, n), i) <==> Bit(a, i) != Bit(b, i)
  {
    var e := if a % 2 == b % 2 then 0 else 1;
    var high := XorBits(a / 2, b / 2, n - 1);
    assert (a + b) % 2 == e by {
      assert a + b == a % 2 + b % 2 + 2 * (a / 2 + b / 2);
      Bits(e, a / 2 + b / 2 + (a % 2 + b % 2 - e) / 2);
    }
    Bits(e, high);
    if i > 0 { XorBitwise(a / 2, b / 2, n - 1, i - 1); }
  }

  function Xor(a: byte, b: byte): byte {
    assert Pow2(8) == 256;
    XorBits(a, b, 8)
  }

  function XorBlock(a: seq<byte>, b: seq<byte>): (r: seq<byte>)
    requires |a| == |b|
    ensures |r| == |a| && forall i :: 0 <= i < |a| ==> r[i] == Xor(a[i], b[i])
  {
    seq(|a|, i requires 0 <= i < |a| => Xor(a[i], b[i]))
  }

  lemma XorBlockInvolutive(a: seq<byte>, b: seq<byte>)
    requires |a| == |b|
    ensures XorBlock(XorBlock(a, b), b) == a
  {
    forall i | 0 <= i < |a| ensures Xor(Xor(a[i], b[i]), b[i]) == a[i] {
      assert Pow2(8) == 256;
      XorBitsInvolutive(a[i], b[i], 8);
    }
  }

  function Encrypt(c: BlockCipher, key: seq<byte>, iv: seq<byte>, p: seq<byte>): (r: seq<byte>)
    requires c.Lawful() && |iv| == BLOCK && |p| % BLOCK == 0
    ensures |r| == |p|
    decreases |p|
  {
    if p == [] then []
    else
      var x := c.enc(key, XorBlock(p[..BLOCK], iv));
      x + Encrypt(c, key, x, p[BLOCK..])
  }

  function Decrypt(c: BlockCipher, key: seq<byte>, iv: seq<byte>, ct: seq<byte>): (r: seq<byte>)
    requires c.Lawful() && |iv| == BLOCK && |ct| % BLOCK == 0
    ensures |r| == |ct|
    decreases |ct|
  {
    if ct == [] then []
    else XorBlock(c.dec(key, ct[..BLOCK]), iv) + Decrypt(c, key, ct[..BLOCK], ct[BLOCK..])
  }

  lemma {:induction false} RoundTrip(c: BlockCipher, key: seq<byte>, iv: seq<byte>, p: seq<byte>)
    requires c.Lawful() && |iv| == BLOCK && |p| % BLOCK == 0
    ensures Decrypt(c, key, iv, Encrypt(c, key, iv, p)) == p
    decreases |p|
  {
    if p != [] {
      var x := c.enc(key, XorBlock(p[..BLOCK], iv));
      var ct := Encrypt(c, key, iv, p);
      assert ct[..BLOCK] == x && ct[BLOCK..] == Encrypt(c, key, x, p[BLOCK..]);
      RoundTrip(c, key, x, p[BLOCK..]);
      XorBlockInvolutive(p[..BLOCK], iv);
    }
  }

  function Block(s: seq<byte>, j: nat): (b: seq<byte>)
    requires BLOCK * j + BLOCK <= |s|
    ensures |b| == BLOCK
  {
    s[BLOCK * j..BLOCK * j + BLOCK]
  }

  /** The standard's equations: C_1 = E(P_1 xor IV), C_j = E(P_j xor C_(j-1)). */
  lemma {:induction false} ChainEquations(c: BlockCipher, key: seq<byte>, iv: seq<byte>, p: seq<byte>, j: nat)
    requires c.Lawful() && |iv| == BLOCK && |p| % BLOCK == 0 && BLOCK * j + BLOCK <= |p|
    ensures var ct := Encrypt(c, key, iv, p);
            Block(ct, j) == c.enc(key, XorBlock(Block(p, j), if j == 0 then iv else Block(ct, j - 1)))
    decreases j
  {
    var x, ct := c.enc(key, XorBlock(p[..BLOCK], iv)), Encrypt(c, key, iv, p);
    var rest, more := Encrypt(c, key, x, p[BLOCK..]), p[BLOCK..];
    assert ct == x + rest;
    if j == 0 {
      assert Block(ct, 0) == x && Block(p, 0) == p[..BLOCK];
    } else {
      ChainEquations(c, key, x, more, j - 1);
      BlockOfRest(x, rest, ct, j);
      BlockOfRest(p[..BLOCK], more, p, j);
      if j == 1 { assert Block(ct, 0) == x; } else { BlockOfRest(x, rest, ct, j - 1); }
    }
  }

  lemma BlockOfRest(first: seq<byte>, rest: seq<byte>, s: seq<byte>, j: nat)
    requires |first| == BLOCK && s == first + rest && 1 <= j && BLOCK * j + BLOCK <= |s|
    ensures BLOCK * (j - 1) + BLOCK <= |rest| && Block(s, j) == Block(rest, j - 1)
  {
  }

  // ------------------------------------------------------------ PKCS#7

  function Pkcs7Pad(p: seq<byte>): (r: seq<byte>)
    ensures |r| == BLOCK * (|p| / BLOCK + 1) && |r| % BLOCK == 0
  {
    var n := BLOCK - |p| % BLOCK;
    p + seq(n, _ => n)
  }

  function Pkcs7Unpad(p: seq<byte>): Option<seq<byte>> {
    if p == [] || |p| % BLOCK != 0 then None
    else
      var n := p[|p| - 1];
      if 1 <= n <= BLOCK && forall i :: |p| - n <= i < |p| ==> p[i] == n then Some(p[..|p| - n]) else None
  }

  lemma UnpadPad(q: seq<byte>)
    ensures Pkcs7Unpad(Pkcs7Pad(q)) == Some(q)
  {
    assert Pkcs7Pad(q)[..|q|] == q;
  }

  lemma PadUnpad(p: seq<byte>)
    requires Pkcs7Unpad(p).Some?
    ensures Pkcs7Pad(Pkcs7Unpad(p).value) == p
  {
    var n := p[|p| - 1];
    var q := p[..|p| - n];
    assert |q| == BLOCK * (|p| / BLOCK - 1) + (BLOCK - n);
    assert p[|q|..] == seq(n, _ => n);
    assert p == q + p[|q|..];
  }

  /** Section 6.3 of RFC 5652: as many bytes as are missing, each of that value. */
  lemma PadBytes(p: seq<byte>)
    ensures var r := Pkcs7Pad(p);
            && p <= r && 1 <= |r| - |p| <= 16 && |r| % 16 == 0
            && forall i :: |p| <= i < |r| ==> r[i] == |r| - |p|
  {
  }

  /** Unpadding accepts exactly the padded strings, and inverts padding. */
  lemma Pkcs7Exact(p: seq<byte>, q: seq<byte>)
    ensures Pkcs7Unpad(p) == Some(q) <==> p == Pkcs7Pad(q)
  {
    UnpadPad(q);
    if Pkcs7Unpad(p).Some? { PadUnpad(p); }
  }

  // ------------------------------------------------------------ both together

  /** AES-CBC with PKCS#7, as aes_cbc_encrypt: None stands for the ValueError on a wrong length. */
  function Seal(c: BlockCipher, key: seq<byte>, iv: seq<byte>, plaintext: seq<byte>): (r: Option<seq<byte>>)
    requires c.Lawful()
    ensures r.Some? <==> |key| == 32 && |iv| == BLOCK
    ensures r.Some? ==> |r.value| == BLOCK * (|plaintext| / BLOCK + 1)
  {
    if |key| != 32 || |iv| != BLOCK then None else Some(Encrypt(c, key, iv, Pkcs7Pad(plaintext)))
  }

  /** As aes_cbc_decrypt: None also when the length is not whole blocks or the padding is bad. */
  function Open(c: BlockCipher, key: seq<byte>, iv: seq<byte>, ct: seq<byte>): Option<seq<byte>>
    requires c.Lawful()
  {
    if |key| != 32 || |iv| != BLOCK || |ct| % BLOCK != 0 then None
    else Pkcs7Unpad(Decrypt(c, key, iv, ct))
  }

  /** A wrong key or IV length, or a ciphertext of broken blocks, is refused. */
  lemma OpenRefuses(c: BlockCipher, key: seq<byte>, iv: seq<byte>, ct: seq<byte>)
    requires c.Lawful() && (|key| != 32 || |iv| != 16 || |ct| % 16 != 0)
    ensures Open(c, key, iv, ct) == None
  {
  }

  lemma OpenSeal(c: BlockCipher, key: seq<byte>, iv: seq<byte>, plaintext: seq<byte>)
    requires c.Lawful() && |key| == 32 && |iv| == BLOCK
    ensures Open(c, key, iv, Seal(c, key, iv, plaintext).value) == Some(plaintext)
  {
    RoundTrip(c, key, iv, Pkcs7Pad(plaintext));
    Pkcs7Exact(Pkcs7Pad(plaintext), plaintext);
  }
}
