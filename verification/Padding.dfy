/** Message padding: a 0x80 terminator followed by zeros, up to a multiple of 80. */
module Padding {
  import opened Bytes

  const BLOCK := 80

  /** Python's b"\x00" * n is empty for negative n. */
  function Repeat0(n: int): seq<byte> {
    if n < 0 then [] else Zeros(n)
  }

  function Pad(body: seq<byte>): seq<byte> {
    var length := |body| + 1;
    var blocks := (length + BLOCK - 1) / BLOCK;
    body + [0x80] + Repeat0(blocks * BLOCK - length - 1)
  }

  /** p is q, the terminator, and nothing but zeros. */
  ghost predicate IsPaddingOf(p: seq<byte>, q: seq<byte>) {
    |q| < |p| && p[..|q|] == q && p[|q|] == 0x80 && forall i :: |q| < i < |p| ==> p[i] == 0
  }

  lemma PaddingUnique(p: seq<byte>, q: seq<byte>, r: seq<byte>)
    requires IsPaddingOf(p, q) && IsPaddingOf(p, r)
    ensures q == r
  {
    assert p[|q|] == 0x80 && p[|r|] == 0x80;
  }

  /** p without its padding, or p itself when it is not padded. */
  ghost function Stripped(p: seq<byte>): (r: seq<byte>)
    ensures forall q :: IsPaddingOf(p, q) ==> r == q
    ensures (forall q :: !IsPaddingOf(p, q)) ==> r == p
  {
    if q :| IsPaddingOf(p, q) then
      q
    else p
  }

  /** Backward scan: strips exactly when the input ends in a terminator and zeros. */
  method StripPadding(plaintext: seq<byte>) returns (r: seq<byte>)
    ensures forall q :: IsPaddingOf(plaintext, q) ==> r == q
    ensures (forall q :: !IsPaddingOf(plaintext, q)) ==> r == plaintext
    ensures r == Stripped(plaintext)
  {
    for i := |plaintext| downto 0
      invariant forall j :: i <= j < |plaintext| ==> plaintext[j] == 0
    {
      if plaintext[i] == 0x80 {
        r := plaintext[..i];
        assert IsPaddingOf(plaintext, r);
        forall q | IsPaddingOf(plaintext, q) ensures q == r { PaddingUnique(plaintext, q, r); }
        return;
      }
      if plaintext[i] != 0 {
        return plaintext;
      }
    }
    r := plaintext;
  }

  lemma PadIsPadding(body: seq<byte>)
    ensures IsPaddingOf(Pad(body), body)
  {
  }

  /** Stripping inverts padding for every body. */
  lemma StripPad(body: seq<byte>)
    ensures Stripped(Pad(body)) == body
  {
    PadIsPadding(body);
  }

  /** The padded length is one less than a multiple of 80, except that a body already one
      short of a multiple gets the terminator alone and fills the block. */
  lemma PaddedLength(body: seq<byte>)
    ensures |Pad(body)| > |body|
    ensures |body| % 80 == 79 ==> |Pad(body)| == |body| + 1 && |Pad(body)| % 80 == 0
    ensures |body| % 80 != 79 ==> |Pad(body)| % 80 == 79 && |Pad(body)| <= |body| + 79
  {
    var q, m := |body| / 80, |body| % 80;
    assert |body| == 80 * q + m;
    assert (|body| + 80) / 80 == q + 1;
    if m == 79 {
      assert |Pad(body)| == 80 * (q + 1);
    } else {
      assert |Pad(body)| == 80 * q + (79);
    }
  }
}
