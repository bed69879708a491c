/** Attachment bucket sizes: powers of 1.05 rounded down, with a floor of 541. The exponent is
    the exact ceiling of log(n) / log(1.05): the least e with 21^e >= n * 20^e. */
module Buckets {

  const FLOOR := 541

  function Pow(b: nat, e: nat): nat {
    if e == 0 then 1 else b * Pow(b, e - 1)
  }

  predicate Reaches(n: nat, e: nat) {
    Pow(21, e) >= n * Pow(20, e)
  }

  /** 1.05^e rounded down. */
  function Curve(e: nat): nat
  {
    Pow20Positive(e);
    Pow(21, e) / Pow(20, e)
  }

  lemma {:induction false} Pow20Positive(e: nat)
    ensures Pow(20, e) >= 1
  {
    if e > 0 { Pow20Positive(e - 1); }
  }

  /** 1.05^e grows at least linearly, so it reaches every size. */
  lemma {:induction false} GrowsLinearly(e: nat)
    ensures 20 * Pow(21, e) >= (20 + e) * Pow(20, e)
  {
    if e > 0 {
      GrowsLinearly(e - 1);
      var a, b := Pow(21, e - 1), Pow(20, e - 1);
      calc {
        20 * Pow(21, e);
        21 * (20 * a);
      >= 21 * ((20 + e - 1) * b);
      == 20 * ((20 + e) * b) + (e - 1) * b;
      >= { assert (e - 1) * b >= 0; }
        (20 + e) * Pow(20, e);
      }
    }
  }

  lemma ReachedEventually(n: nat)
    ensures Reaches(n, 20 * n)
  {
    GrowsLinearly(20 * n);
    var a, b := Pow(21, 20 * n), Pow(20, 20 * n);
    assert (20 + 20 * n) * b == 20 * (n * b) + 20 * b;
  }

  /** The least exponent from e on that reaches n. */
  function Search(n: nat, e: nat): (r: nat)
    requires e <= 20 * n
    ensures e <= r && Reaches(n, r) && forall k :: e <= k < r ==> !Reaches(n, k)
    decreases 20 * n - e
  {
    ReachedEventually(n);
    if Reaches(n, e) then e else Search(n, e + 1)
  }

  function Exponent(n: nat): (e: nat)
    ensures Reaches(n, e) && forall k :: 0 <= k < e ==> !Reaches(n, k)
  {
    Search(n, 0)
  }

  function PaddedSize(n: int): nat {
    if n <= 0 then FLOOR
    else if Curve(Exponent(n)) > FLOOR then Curve(Exponent(n)) else FLOOR
  }

  // ------------------------------------------------------------ the curve

  /** Floor division characterised by multiplication. */
  lemma DivBounds(a: nat, b: nat, q: nat)
    requires b >= 1
    ensures a / b >= q <==> a >= q * b
  {
    var d, m := a / b, a % b;
    assert a == d * b + m;
    if d >= q { assert d * b >= q * b; } else { assert d + 1 <= q; assert (d + 1) * b <= q * b; }
  }

  lemma CurveReaches(n: nat, e: nat)
    ensures Curve(e) >= n <==> Reaches(n, e)
  {
    Pow20Positive(e);
    DivBounds(Pow(21, e), Pow(20, e), n);
  }

  lemma CurveStep(e: nat)
    ensures Curve(e) <= Curve(e + 1)
  {
    var q, a, b := Curve(e), Pow(21, e), Pow(20, e);
    CurveReaches(q, e);
    assert a >= q * b;
    assert 21 * a >= 21 * (q * b);
    assert q * (20 * b) == 20 * (q * b) <= 21 * (q * b);
    CurveReaches(q, e + 1);
  }

  lemma {:induction false} CurveMonotone(e: nat, f: nat)
    requires e <= f
    ensures Curve(e) <= Curve(f)
    decreases f - e
  {
    if e < f {
      CurveStep(e);
      CurveMonotone(e + 1, f);
    }
  }

  lemma {:induction false} PowAdd(b: nat, m: nat, n: nat)
    ensures Pow(b, m + n) == Pow(b, m) * Pow(b, n)
    decreases m
  {
    if m > 0 {
      PowAdd(b, m - 1, n);
      assert (m - 1) + n == (m + n) - 1;
      Regroup(b, Pow(b, m - 1), Pow(b, n));
    }
  }

  lemma Regroup(x: nat, y: nat, z: nat)
    ensures x * (y * z) == (x * y) * z
  {
  }

  lemma Pow21At129()
    ensures Pow(21, 129) == 368374043060256036041745667837230497733830265095696626655222475440858284535937885711705562293590030957612097742219031654407235600874983037959064715882619816469432779496981
  {
    assert Pow(21, 1) == 21;
    PowAdd(21, 1, 1);
    assert Pow(21, 2) == 441;
    PowAdd(21, 2, 2);
    assert Pow(21, 4) == 194481;
    PowAdd(21, 4, 4);
    assert Pow(21, 8) == 37822859361;
    PowAdd(21, 8, 8);
    assert Pow(21, 16) == 1430568690241985328321;
    PowAdd(21, 16, 16);
    assert Pow(21, 32) == 2046526777500669368329342638102622164679041;
    PowAdd(21, 32, 32);
    assert Pow(21, 64) == 4188271851027274266670020743752976432915773724299403513508038881183728210190544679681;
    PowAdd(21, 64, 64);
    PowAdd(21, 128, 1);
  }

  lemma Pow20At129()
    ensures Pow(20, 129) == 680564733841876926926749214863536422912000000000000000000000000000000000000000000000000000000000000000000000000000000000000000000000000000000000000000000000000000000000
  {
    assert Pow(20, 1) == 20;
    PowAdd(20, 1, 1);
    assert Pow(20, 2) == 400;
    PowAdd(20, 2, 2);
    assert Pow(20, 4) == 160000;
    PowAdd(20, 4, 4);
    assert Pow(20, 8) == 25600000000;
    PowAdd(20, 8, 8);
    assert Pow(20, 16) == 655360000000000000000;
    PowAdd(20, 16, 16);
    assert Pow(20, 32) == 429496729600000000000000000000000000000000;
    PowAdd(20, 32, 32);
    assert Pow(20, 64) == 184467440737095516160000000000000000000000000000000000000000000000000000000000000000;
    PowAdd(20, 64, 64);
    PowAdd(20, 128, 1);
  }

  /** 541 is on the curve: 1.05^129 rounds down to it. */
  lemma FloorIsOnTheCurve()
    ensures Curve(129) == FLOOR
  {
    Pow21At129();
    Pow20At129();
  }

  // ------------------------------------------------------------ bucket sizes

  /** The bucket holds the plaintext. */
  lemma BucketHolds(n: int)
    ensures PaddedSize(n) >= n && PaddedSize(n) >= FLOOR
  {
    if n > 0 { CurveReaches(n, Exponent(n)); }
  }

  /** Above 541, the bucket is 1.05^e rounded down for the least e with 1.05^e at least the size. */
  lemma BucketExactly(n: int)
    requires n > FLOOR
    ensures exists e: nat ::
              && Pow(21, e) >= n * Pow(20, e) && (forall k: nat :: k < e ==> Pow(21, k) < n * Pow(20, k))
              && PaddedSize(n) * Pow(20, e) <= Pow(21, e) < (PaddedSize(n) + 1) * Pow(20, e)
  {
    var e := Exponent(n);
    CurveReaches(n, e);
    CurveReaches(Curve(e), e);
    CurveReaches(Curve(e) + 1, e);
    assert PaddedSize(n) == Curve(e);
    forall k: nat | k < e ensures Pow(21, k) < n * Pow(20, k) {
      assert !Reaches(n, k);
    }
    assert Reaches(n, e);
  }

  lemma ExponentMonotone(m: nat, n: nat)
    requires m <= n
    ensures Exponent(m) <= Exponent(n)
  {
    CurveReaches(n, Exponent(n));
    CurveReaches(m, Exponent(n));
    assert Reaches(m, Exponent(n));
  }

  lemma BucketMonotone(m: int, n: int)
    requires m <= n
    ensures PaddedSize(m) <= PaddedSize(n)
  {
    if m > 0 {
      ExponentMonotone(m, n);
      CurveMonotone(Exponent(m), Exponent(n));
    }
  }

  /** Everything up to 541 bytes shares the smallest bucket. */
  lemma SmallestBucket(n: int)
    requires n <= FLOOR
    ensures PaddedSize(n) == FLOOR
  {
    if n > 0 {
      FloorIsOnTheCurve();
      CurveReaches(n, 129);
      assert Exponent(n) <= 129;
      CurveMonotone(Exponent(n), 129);
    }
  }

  lemma Cancels(x: nat, y: nat, b: nat)
    requires x * b < y * b
    ensures x < y
  {
    assert (y - x) * b > 0;
  }

  /** Above the floor, padding adds less than one part in twenty. */
  lemma OverheadBelowFivePercent(n: int)
    requires n > FLOOR
    ensures 20 * PaddedSize(n) < 21 * n
    ensures PaddedSize(n) == Curve(Exponent(n))
  {
    var e := Exponent(n);
    CurveReaches(n, e);
    assert Pow(21, 0) == 1 && Pow(20, 0) == 1;
    assert e > 0;
    var a, b, k := Pow(21, e - 1), Pow(20, e - 1), Curve(e);
    assert !Reaches(n, e - 1);
    CurveReaches(k, e);
    Pow20Positive(e - 1);
    assert 21 * a >= k * (20 * b);
    assert k * (20 * b) == (20 * k) * b && 21 * (n * b) == (21 * n) * b;
    assert (20 * k) * b < (21 * n) * b;
    Cancels(20 * k, 21 * n, b);
  }

  /** Bucket sizes are their own buckets. */
  lemma BucketIdempotent(n: int)
    ensures PaddedSize(PaddedSize(n)) == PaddedSize(n)
  {
    if n <= FLOOR {
      SmallestBucket(n);
      SmallestBucket(FLOOR);
    } else {
      OverheadBelowFivePercent(n);
      BucketHolds(n);
      var e, b := Exponent(n), PaddedSize(n);
      CurveReaches(b, e);
      assert Exponent(b) <= e;
      CurveMonotone(Exponent(b), e);
      CurveReaches(b, Exponent(b));
    }
  }
}
