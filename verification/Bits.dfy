/** Single bits of a byte. */
module Bits {
  type Index = k: nat | k < 8

  predicate Bit(b: bv8, k: Index) {
    b & (1 << k) != 0
  }

  lemma SetBit(b: bv8, k: Index, j: Index)
    ensures Bit(b | (1 << k), j) <==> j == k || Bit(b, j)
  {
    Cases(k); Cases(j);
  }

  lemma ClearBit(b: bv8, k: Index, j: Index)
    ensures Bit(b & (0xFF ^ (1 << k)), j) <==> j != k && Bit(b, j)
  {
    Cases(k); Cases(j);
  }

  /** Ones from bit k upwards. */
  function HighMask(k: Index): bv8 {
    255 << k
  }

  lemma HighBits(k: Index, j: Index)
    ensures Bit(HighMask(k), j) <==> j >= k
  {
    Cases(k); Cases(j);
  }

  lemma AllBits(b: bv8)
    ensures b == 0xFF <==> forall k: Index :: Bit(b, k)
  {
    assert Bit(b, 0) && Bit(b, 1) && Bit(b, 2) && Bit(b, 3) && Bit(b, 4) && Bit(b, 5) && Bit(b, 6) && Bit(b, 7)
           ==> b == 0xFF;
    forall k: Index ensures Bit(0xFF, k) { Cases(k); }
  }

  lemma NoBits(k: Index)
    ensures !Bit(0, k)
  {
    Cases(k);
  }

  /** Shifting right exposes the bits one by one. */
  function Shifted(b: bv8, k: nat): bv8
    requires k <= 8
  {
    b >> k
  }

  lemma ShiftBit(b: bv8, k: Index)
    ensures Shifted(b, k) & 1 != 0 <==> Bit(b, k)
  {
    Cases(k);
  }

  lemma ShiftOnce(b: bv8, k: Index)
    ensures Shifted(b, 0) == b && Shifted(b, k) >> 1 == Shifted(b, k + 1)
  {
    Cases(k);
  }

  /** The k lowest bits. */
  function LowMask(k: nat): bv8
    requires k <= 8
  {
    255 >> (8 - k)
  }

  lemma LowBits(b: bv8, k: Index, j: Index)
    ensures Bit(b & LowMask(k), j) <==> j < k && Bit(b, j)
  {
    Cases(k); Cases(j);
  }

  lemma OrBits(b: bv8, c: bv8, j: Index)
    ensures Bit(b | c, j) <==> Bit(b, j) || Bit(c, j)
  {
    Cases(j);
  }

  /** `pad` with the r lowest bits of `x` or-ed in. */
  function Merge(pad: bv8, x: bv8, r: Index): bv8 {
    pad | (x & LowMask(r))
  }

  lemma MergedBits(pad: bv8, x: bv8, r: Index, k: Index)
    ensures Bit(Merge(pad, x, r), k) <==> Bit(pad, k) || (k < r && Bit(x, k))
  {
    LowBits(x, r, k);
    OrBits(pad, x & LowMask(r), k);
  }

  lemma SameBits(b: bv8, c: bv8)
    ensures b == c <==> forall k: Index :: Bit(b, k) == Bit(c, k)
  {
    assert Bit(b, 0) == Bit(c, 0) && Bit(b, 1) == Bit(c, 1) && Bit(b, 2) == Bit(c, 2) && Bit(b, 3) == Bit(c, 3)
           && Bit(b, 4) == Bit(c, 4) && Bit(b, 5) == Bit(c, 5) && Bit(b, 6) == Bit(c, 6) && Bit(b, 7) == Bit(c, 7)
           ==> b == c;
  }

  lemma Cases(k: Index)
    ensures k == 0 || k == 1 || k == 2 || k == 3 || k == 4 || k == 5 || k == 6 || k == 7
  {
  }

  // The header byte keeps the number of flags above a cached all-set bit.

  function HeaderFor(n: nat): bv8
    requires n < 128
  {
    (n as bv8) << 1
  }

  function Count(h: bv8): nat {
    (h >> 1) as nat
  }

  predicate Marked(h: bv8) {
    h & 1 == 1
  }

  function Mark(h: bv8): bv8 {
    h | 1
  }

  function Unmark(h: bv8): bv8 {
    h & 0xFE
  }

  lemma HeaderOf(n: nat)
    requires n < 128
    ensures Count(HeaderFor(n)) == n && !Marked(HeaderFor(n))
  {
    assert n as bv8 < 128;
    assert ((n as bv8) << 1) >> 1 == n as bv8;
  }

  lemma HeaderMarks(h: bv8)
    ensures Count(Mark(h)) == Count(h) == Count(Unmark(h)) && Marked(Mark(h)) && !Marked(Unmark(h))
  {
    assert (h | 1) >> 1 == h >> 1 && (h & 0xFE) >> 1 == h >> 1;
  }
}
