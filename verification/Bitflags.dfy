/**
 Packed flags.  Byte 0 holds the number of flags in its upper seven bits and, in bit 0, a cached "all
 set"; the flags follow from byte 1, and the bits after the last flag are kept at 1.
 Bytes are unsigned.
 */
module BitflagArray {
  import opened Bits

  // ---------- what a byte sequence means ----------

  function ByteCount(n: nat): nat
    requires n > 0
  {
    (n - 1) / 8 + 2
  }

  function NumFlags(b: seq<bv8>): nat
    requires b != []
  {
    Count(b[0])
  }

  predicate Cached(b: seq<bv8>)
    requires b != []
  {
    Marked(b[0])
  }

  predicate BitAt(b: seq<bv8>, i: nat)
    requires i / 8 + 1 < |b|
  {
    Bit(b[i / 8 + 1], i % 8)
  }

  predicate Sized(b: seq<bv8>) {
    b != [] && 0 < NumFlags(b) && |b| == ByteCount(NumFlags(b))
  }

  predicate Padded(b: seq<bv8>)
    requires Sized(b)
  {
    forall i: nat :: NumFlags(b) <= i < 8 * (|b| - 1) ==> BitAt(b, i)
  }

  /** The flags a byte sequence stands for. */
  function Flags(b: seq<bv8>): (s: seq<bool>)
    requires Sized(b)
    ensures |s| == NumFlags(b)
    ensures forall i :: 0 <= i < |s| ==> s[i] == BitAt(b, i)
  {
    seq(NumFlags(b), i requires 0 <= i < NumFlags(b) => BitAt(b, i))
  }

  function Min(a: int, b: int): int {
    if a < b then a else b
  }

  predicate AllTrue(s: seq<bool>) {
    forall i :: 0 <= i < |s| ==> s[i]
  }

  predicate Ok(b: seq<bv8>) {
    Sized(b) && Padded(b) && (Cached(b) ==> AllTrue(Flags(b)))
  }

  function CountTrue(s: seq<bool>): nat {
    if s == [] then 0 else CountTrue(s[..|s| - 1]) + if s[|s| - 1] then 1 else 0
  }

  // ---------- effect of the byte operations ----------

  function WithSet(b: seq<bv8>, idx: nat): seq<bv8>
    requires idx / 8 + 1 < |b|
  {
    b[idx / 8 + 1 := b[idx / 8 + 1] | (1 << (idx % 8))]
  }

  function WithUnset(b: seq<bv8>, idx: nat): seq<bv8>
    requires idx / 8 + 1 < |b|
  {
    b[idx / 8 + 1 := b[idx / 8 + 1] & (0xFF ^ (1 << (idx % 8)))][0 := Unmark(b[0])]
  }

  lemma SetBits(b: seq<bv8>, idx: nat)
    requires Sized(b) && idx < NumFlags(b)
    ensures var c := WithSet(b, idx);
            && Sized(c) && NumFlags(c) == NumFlags(b) && Cached(c) == Cached(b)
            && forall i: nat :: i < 8 * (|b| - 1) ==> (BitAt(c, i) <==> i == idx || BitAt(b, i))
  {
    hide Bit, Count, Marked;
    var c := WithSet(b, idx);
    forall i: nat | i < 8 * (|b| - 1) ensures BitAt(c, i) <==> i == idx || BitAt(b, i) {
      SetBit(b[idx / 8 + 1], idx % 8, i % 8);
    }
  }

  lemma SetMeaning(b: seq<bv8>, idx: nat)
    requires Ok(b) && idx < NumFlags(b)
    ensures Ok(WithSet(b, idx)) && Flags(WithSet(b, idx)) == Flags(b)[idx := true]
  {
    SetBits(b, idx);
    hide BitAt, WithSet, NumFlags, Cached;
  }

  lemma UnsetBits(b: seq<bv8>, idx: nat)
    requires Sized(b) && idx < NumFlags(b)
    ensures var c := WithUnset(b, idx);
            && Sized(c) && NumFlags(c) == NumFlags(b) && !Cached(c)
            && forall i: nat :: i < 8 * (|b| - 1) ==> (BitAt(c, i) <==> i != idx && BitAt(b, i))
  {
    hide Bit, Count, Marked, Unmark;
    var c := WithUnset(b, idx);
    HeaderMarks(b[0]);
    forall i: nat | i < 8 * (|b| - 1) ensures BitAt(c, i) <==> i != idx && BitAt(b, i) {
      ClearBit(b[idx / 8 + 1], idx % 8, i % 8);
    }
  }

  lemma UnsetMeaning(b: seq<bv8>, idx: nat)
    requires Ok(b) && idx < NumFlags(b)
    ensures Ok(WithUnset(b, idx)) && Flags(WithUnset(b, idx)) == Flags(b)[idx := false]
  {
    UnsetBits(b, idx);
    hide BitAt, WithUnset, NumFlags, Cached;
  }

  /** Zero bytes, with the bits after the last flag raised in the last byte. */
  predicate IsBlank(b: seq<bv8>, n: nat) {
    && n > 0 && |b| == ByteCount(n) && NumFlags(b) == n && !Cached(b)
    && (forall j :: 1 <= j < |b| - 1 ==> b[j] == 0)
    && b[|b| - 1] == if n % 8 != 0 then HighMask(n % 8) else 0
  }

  lemma BlankBit(b: seq<bv8>, n: nat, i: nat)
    requires IsBlank(b, n) && i < 8 * (|b| - 1)
    ensures BitAt(b, i) <==> i >= n
  {
    hide Bit, HighMask, Count, Marked;
    var pad := if i / 8 == (n - 1) / 8 && n % 8 != 0 then HighMask(n % 8) else 0;
    assert b[i / 8 + 1] == pad;
    assert Bit(pad, i % 8) <==> i >= n by {
      HighBits(n % 8, i % 8);
      NoBits(i % 8);
    }
  }

  lemma BlankMeaning(b: seq<bv8>, n: nat)
    requires IsBlank(b, n)
    ensures Ok(b) && Flags(b) == seq(n, _ => false)
  {
    hide BitAt, HighMask;
    forall i: nat | i < 8 * (|b| - 1) ensures BitAt(b, i) <==> i >= n {
      BlankBit(b, n, i);
    }
  }

  /** Caching "all set" changes no flag. */
  lemma CacheMeaning(b: seq<bv8>)
    requires Ok(b) && AllTrue(Flags(b))
    ensures Ok(b[0 := Mark(b[0])]) && Flags(b[0 := Mark(b[0])]) == Flags(b)
  {
    hide Bit;
    HeaderMarks(b[0]);
    var c := b[0 := Mark(b[0])];
    assert forall i: nat :: i < 8 * (|b| - 1) ==> BitAt(c, i) == BitAt(b, i);
  }

  lemma ZeroOr(x: bv8)
    ensures 0 | x == x
  {
  }

  lemma FullMeaning(b: seq<bv8>)
    requires Sized(b) && forall j :: 1 <= j < |b| ==> b[j] == 0xFF
    ensures Ok(b) && Flags(b) == seq(NumFlags(b), _ => true)
  {
    AllBits(0xFF);
  }

  /** All bytes are 0xFF exactly when all flags are set: the padding does not count. */
  lemma FullBytes(b: seq<bv8>)
    requires Sized(b) && Padded(b)
    ensures AllTrue(Flags(b)) <==> forall j :: 1 <= j < |b| ==> b[j] == 0xFF
  {
    if AllTrue(Flags(b)) {
      forall j | 1 <= j < |b| ensures b[j] == 0xFF {
        AllBits(b[j]);
        forall k: Index ensures Bit(b[j], k) {
          var i := 8 * (j - 1) + k;
          assert i / 8 + 1 == j && i % 8 == k;
          assert BitAt(b, i) by { if i < NumFlags(b) { assert Flags(b)[i]; } }
        }
      }
    } else {
      var i :| 0 <= i < NumFlags(b) && !Flags(b)[i];
      AllBits(b[i / 8 + 1]);
      assert !BitAt(b, i);
    }
  }

  lemma CountPrefix(s: seq<bool>, k: nat)
    requires k < |s|
    ensures CountTrue(s[..k + 1]) == CountTrue(s[..k]) + if s[k] then 1 else 0
  {
    assert s[..k + 1][..k] == s[..k];
  }

  lemma {:induction false} CountAll(s: seq<bool>)
    requires AllTrue(s)
    ensures CountTrue(s) == |s|
  {
    if s != [] { CountAll(s[..|s| - 1]); }
  }

  lemma {:induction false} CountNone(s: seq<bool>, lo: nat, hi: nat)
    requires lo <= hi <= |s| && forall k :: lo <= k < hi ==> !s[k]
    ensures CountTrue(s[..hi]) == CountTrue(s[..lo])
    decreases hi - lo
  {
    if lo < hi {
      CountNone(s, lo, hi - 1);
      CountPrefix(s, hi - 1);
    }
  }

  lemma {:induction false} CountSplit(s: seq<bool>, lo: nat, hi: nat)
    requires lo <= hi <= |s|
    ensures CountTrue(s[..hi]) == CountTrue(s[..lo]) + CountTrue(s[lo..hi])
    decreases hi - lo
  {
    if lo < hi {
      CountSplit(s, lo, hi - 1);
      CountPrefix(s, hi - 1);
      assert s[lo..hi][..hi - lo - 1] == s[lo..hi - 1];
    }
  }

  function BitsOf(byte: bv8, n: nat): (s: seq<bool>)
    requires n <= 8
    ensures |s| == n && forall k :: 0 <= k < n ==> s[k] == Bit(byte, k)
  {
    seq(n, k requires 0 <= k < n => Bit(byte, k))
  }

  lemma FlagsOfByte(b: seq<bv8>, i: nat, n: nat)
    requires Sized(b) && 1 <= i < |b| && n == Min(NumFlags(b) - 8 * (i - 1), 8)
    ensures 0 <= 8 * (i - 1) <= 8 * (i - 1) + n <= NumFlags(b)
    ensures Flags(b)[8 * (i - 1)..8 * (i - 1) + n] == BitsOf(b[i], n)
  {
    hide Bit, BitsOf;
    forall k: nat | k < n ensures Flags(b)[8 * (i - 1) + k] == Bit(b[i], k) {
      assert (8 * (i - 1) + k) / 8 + 1 == i && (8 * (i - 1) + k) % 8 == k;
    }
  }

  /** Number of set flags held in the bytes before byte i. */
  ghost function CountBefore(b: seq<bv8>, i: nat): nat
    requires Sized(b) && i >= 1
  {
    CountTrue(Flags(b)[..Min(8 * (i - 1), NumFlags(b))])
  }

  lemma CountBeforeEnds(b: seq<bv8>)
    requires Sized(b)
    ensures CountBefore(b, 1) == 0 && CountBefore(b, |b|) == CountTrue(Flags(b))
  {
    hide Bit;
    assert Flags(b)[..NumFlags(b)] == Flags(b);
  }

  /** Byte i adds its own bits to the count; a zero byte adds nothing. */
  lemma ByteShare(b: seq<bv8>, i: nat, n: nat)
    requires Sized(b) && 1 <= i < |b| && n == Min(NumFlags(b) - 8 * (i - 1), 8)
    ensures CountBefore(b, i + 1) == CountBefore(b, i) + if b[i] == 0 then 0 else CountTrue(BitsOf(b[i], n))
  {
    hide Bit, BitsOf, BitAt, Count, Flags, CountTrue;
    FlagsOfByte(b, i, n);
    CountSplit(Flags(b), 8 * (i - 1), 8 * (i - 1) + n);
    if b[i] == 0 { ZeroByte(n); }
  }

  lemma ZeroByte(n: nat)
    requires n <= 8
    ensures CountTrue(BitsOf(0, n)) == 0
  {
    var bits := BitsOf(0, n);
    forall k: Index ensures !Bit(0, k) { NoBits(k); }
    CountNone(bits, 0, n);
    assert bits[..n] == bits;
  }

  /** Comparing the bytes of two arrays compares their flags and their caches. */
  lemma SameBytes(b: seq<bv8>, c: seq<bv8>)
    requires Ok(b) && Ok(c)
    ensures b == c <==> Flags(b) == Flags(c) && Cached(b) == Cached(c)
  {
    hide Bit;
    if Flags(b) == Flags(c) && Cached(b) == Cached(c) {
      SameHeader(b[0], c[0]);
      assert NumFlags(b) == |Flags(b)| == NumFlags(c);
      forall j | 1 <= j < |b| ensures b[j] == c[j] {
        SameBits(b[j], c[j]);
        forall k: Index ensures Bit(b[j], k) == Bit(c[j], k) {
          var i := 8 * (j - 1) + k;
          assert i / 8 + 1 == j && i % 8 == k;
          assert BitAt(b, i) == BitAt(c, i) by {
            if i < NumFlags(b) { assert Flags(b)[i] == Flags(c)[i]; }
          }
        }
      }
    }
  }

  lemma SameHeader(h: bv8, g: bv8)
    requires Count(h) == Count(g) && Marked(h) == Marked(g)
    ensures h == g
  {
    assert h >> 1 == g >> 1;
  }

  // ---------- reallocation ----------

  /** The flags after growing to n: a full last byte of the old array is lost. */
  function Grown(flags: seq<bool>, n: nat): seq<bool>
    requires |flags| <= n
  {
    seq(n, i requires 0 <= i < n => i < |flags| && (|flags| % 8 != 0 || i < |flags| - 8) && flags[i])
  }

  /** Growth keeps the flags exactly when their number is no multiple of eight, or the last eight are
      clear; what it adds is clear. */
  lemma GrowthKeepsFlagsIff(flags: seq<bool>, n: nat)
    requires 0 < |flags| < n
    ensures Grown(flags, n)[..|flags|] == flags <==>
            |flags| % 8 != 0 || forall i :: |flags| - 8 <= i < |flags| ==> !flags[i]
    ensures forall i :: |flags| <= i < n ==> !Grown(flags, n)[i]
  {
    var g := Grown(flags, n);
    assert forall i :: 0 <= i < |flags| ==> g[..|flags|][i] == g[i];
    if |flags| % 8 == 0 && !forall i :: |flags| - 8 <= i < |flags| ==> !flags[i] {
      var i :| |flags| - 8 <= i < |flags| && flags[i];
      assert g[i] != flags[i];
    }
  }

  /** Old bytes copied below the last one, whose valid bits are or-ed into the new byte. */
  predicate IsGrown(b: seq<bv8>, c: seq<bv8>, n: nat)
    requires Sized(b)
  {
    var last := |b| - 1;
    && n > NumFlags(b) && |c| == ByteCount(n) && NumFlags(c) == n && !Cached(c)
    && (forall j :: 1 <= j < last ==> c[j] == b[j])
    && (forall j :: last < j < |c| - 1 ==> c[j] == 0)
    && (var pad := if n % 8 != 0 then HighMask(n % 8) else 0;
        && (last < |c| - 1 ==> c[|c| - 1] == pad && c[last] == Merge(0, b[last], NumFlags(b) % 8))
        && (last == |c| - 1 ==> c[last] == Merge(pad, b[last], NumFlags(b) % 8)))
  }

  lemma SizesOf(b: seq<bv8>, n: nat)
    requires Ok(b) && NumFlags(b) < n
    ensures Sized(b) && NumFlags(b) == Count(b[0]) && |b| == ByteCount(Count(b[0])) && 2 <= |b| <= ByteCount(n)
  {
  }

  lemma BlankSize(b: seq<bv8>, n: nat)
    requires IsBlank(b, n)
    ensures |b| == ByteCount(n)
  {
  }

  lemma CopiedIsGrown(b: seq<bv8>, blank: seq<bv8>, c: seq<bv8>, n: nat)
    requires Sized(b) && IsBlank(blank, n) && NumFlags(b) < n && |c| == |blank| >= |b| && c[0] == blank[0]
    requires var last := |b| - 1;
             && c[last] == Merge(blank[last], b[last], NumFlags(b) % 8)
             && (forall j :: 1 <= j < last ==> c[j] == b[j])
             && (forall j :: last < j < |c| ==> c[j] == blank[j])
    ensures IsGrown(b, c, n)
  {
    hide HighMask, Merge, Count, Marked;
  }

  predicate Kept(m: nat, i: nat) {
    i < m && (m % 8 != 0 || i < m - 8)
  }

  /** In the byte of the last of m flags the copied bits are those below the fill level. */
  lemma KeptInLastByte(m: nat, i: nat)
    requires m > 0
    ensures i / 8 == (m - 1) / 8 ==> (Kept(m, i) <==> i % 8 < m % 8)
    ensures i / 8 < (m - 1) / 8 ==> Kept(m, i)
    ensures i / 8 > (m - 1) / 8 ==> !Kept(m, i)
  {
  }

  /** Byte j of the grown array, as IsGrown describes it. */
  lemma GrownByte(b: seq<bv8>, c: seq<bv8>, n: nat, j: nat)
    requires Sized(b) && IsGrown(b, c, n) && 1 <= j < |c|
    ensures var pad := if j == |c| - 1 && n % 8 != 0 then HighMask(n % 8) else 0;
            c[j] == if j < |b| - 1 then b[j]
                    else if j == |b| - 1 then Merge(pad, b[j], NumFlags(b) % 8)
                    else pad
  {
    hide HighMask, Merge, Count;
  }

  lemma GrownBit(b: seq<bv8>, c: seq<bv8>, n: nat, i: nat)
    requires Sized(b) && IsGrown(b, c, n) && i < 8 * (|c| - 1)
    ensures BitAt(c, i) <==> i >= n || (Kept(NumFlags(b), i) && BitAt(b, i))
  {
    hide Bit, HighMask, Merge, Kept, Count;
    var j, k := i / 8 + 1, i % 8;
    var pad := if j == |c| - 1 && n % 8 != 0 then HighMask(n % 8) else 0;
    assert Bit(pad, k) <==> i >= n by {
      HighBits(n % 8, k);
      NoBits(k);
    }
    KeptInLastByte(NumFlags(b), i);
    GrownByte(b, c, n, j);
    if j == |b| - 1 {
      MergedBits(pad, b[j], NumFlags(b) % 8, k);
    }
  }

  lemma GrownMeaning(b: seq<bv8>, c: seq<bv8>, n: nat)
    requires Ok(b) && IsGrown(b, c, n)
    ensures Ok(c) && Flags(c) == Grown(Flags(b), n)
  {
    hide BitAt, HighMask, Merge;
    forall i: nat | i < 8 * (|c| - 1) ensures BitAt(c, i) <==> i >= n || (Kept(NumFlags(b), i) && BitAt(b, i)) {
      GrownBit(b, c, n, i);
    }
  }

  /** A shorter byte prefix under a header for n flags with the old cache bit. */
  predicate IsShrunk(b: seq<bv8>, c: seq<bv8>, n: nat)
    requires Sized(b)
  {
    && 0 < n < NumFlags(b) && |c| == ByteCount(n) && NumFlags(c) == n && Cached(c) == Cached(b)
    && forall j :: 1 <= j < |c| ==> c[j] == b[j]
  }

  lemma ShrunkFlags(b: seq<bv8>, c: seq<bv8>, n: nat)
    requires Sized(b) && IsShrunk(b, c, n)
    ensures Sized(c) && Flags(c) == Flags(b)[..n]
    ensures forall i: nat :: i < 8 * (|c| - 1) ==> BitAt(c, i) == BitAt(b, i)
  {
    hide Bit, Count, Marked;
    assert forall i: nat :: i < 8 * (|c| - 1) ==> c[i / 8 + 1] == b[i / 8 + 1];
  }

  /** Dropped flags that share the last remaining byte. */
  predicate TailSet(b: seq<bv8>, n: nat)
    requires Sized(b)
  {
    forall i :: n <= i < NumFlags(b) && i / 8 == (n - 1) / 8 ==> Flags(b)[i]
  }

  /** Shrinking keeps the remaining flags, but the padding is in order only if the dropped flags that
      share the last byte were all set. */
  lemma ShrunkMeaning(b: seq<bv8>, c: seq<bv8>, n: nat)
    requires Ok(b) && IsShrunk(b, c, n)
    ensures Sized(c) && Flags(c) == Flags(b)[..n]
    ensures Ok(c) <==> TailSet(b, n)
  {
    ShrunkFlags(b, c, n);
    ShrunkPadding(b, c, n);
    hide BitAt, Count, Marked, Padded, TailSet;
  }

  lemma ShrunkPadding(b: seq<bv8>, c: seq<bv8>, n: nat)
    requires Ok(b) && IsShrunk(b, c, n) && Sized(c)
    ensures Padded(c) <==> TailSet(b, n)
  {
    ShrunkFlags(b, c, n);
    ShrunkSize(b, c, n);
    hide BitAt, Count, Marked, Cached, IsShrunk, Sized, ByteCount;
    if Padded(c) {
      forall i | n <= i < NumFlags(b) && i / 8 == (n - 1) / 8 ensures Flags(b)[i] {
        assert BitAt(c, i);
      }
    }
    if TailSet(b, n) {
      forall i: nat | n <= i < 8 * (|c| - 1) ensures BitAt(c, i) {
        if i < NumFlags(b) { assert Flags(b)[i]; }
      }
    }
  }

  lemma ShrunkSize(b: seq<bv8>, c: seq<bv8>, n: nat)
    requires Sized(b) && IsShrunk(b, c, n)
    ensures NumFlags(c) == n && 8 * (|c| - 1) <= 8 * (|b| - 1)
    ensures forall i: nat :: n <= i ==> (i < 8 * (|c| - 1) <==> i / 8 == (n - 1) / 8)
  {
    hide Count, Marked;
  }

  class Bitflags {
    var bytes: array<bv8>

    ghost predicate Valid()
      reads this, bytes
    {
      Ok(bytes[..])
    }

    /** Raise the bits after the last flag of an otherwise zero last byte. */
    method RaisePadding(numFlags: nat)
      requires 0 < numFlags && bytes.Length == ByteCount(numFlags) && bytes[bytes.Length - 1] == 0
      modifies bytes
      ensures bytes[bytes.Length - 1] == if numFlags % 8 != 0 then HighMask(numFlags % 8) else 0
      ensures forall j :: 0 <= j < bytes.Length - 1 ==> bytes[j] == old(bytes[j])
    {
      hide HighMask;
      ZeroOr(HighMask(numFlags % 8));
      if numFlags % 8 != 0 {
        bytes[bytes.Length - 1] := bytes[bytes.Length - 1] | HighMask(numFlags % 8);
      }
    }

    constructor (numFlags: nat)
      requires 0 < numFlags < 128
      ensures Valid() && fresh(bytes) && IsBlank(bytes[..], numFlags)
      ensures Flags(bytes[..]) == seq(numFlags, _ => false)
    {
      var numBytes := ByteCount(numFlags);
      bytes := new bv8[numBytes](_ => 0);
      new;
      hide Count, Marked, Mark, Unmark, HighMask, HeaderFor;
      HeaderOf(numFlags);
      RaisePadding(numFlags);
      bytes[0] := HeaderFor(numFlags);
      BlankMeaning(bytes[..], numFlags);
    }

    /** Resizes for `n` flags; after growing the array is in order, after shrinking see ShrunkMeaning. */
    method Realloc(n: nat)
      requires Valid() && 0 < n < 128
      modifies this, bytes
      ensures bytes == old(bytes) || fresh(bytes)
      ensures Sized(bytes[..]) && NumFlags(bytes[..]) == n
      ensures n > NumFlags(old(bytes[..])) ==> Valid() && Flags(bytes[..]) == Grown(Flags(old(bytes[..])), n)
      ensures n == NumFlags(old(bytes[..])) ==> bytes[..] == old(bytes[..])
      ensures n < NumFlags(old(bytes[..])) ==> IsShrunk(old(bytes[..]), bytes[..], n)
    {
      hide Bit, HighMask, Merge, Padded, HeaderFor, Mark, Unmark;
      var m := Count(bytes[0]);
      var oldBytes := ByteCount(m);
      if n < m {
        var longer := bytes;
        var shorter := new bv8[ByteCount(n)](i requires 0 <= i < longer.Length reads longer => longer[i]);
        var marked := Marked(bytes[0]);
        HeaderOf(n);
        HeaderMarks(HeaderFor(n));
        shorter[0] := if marked then Mark(HeaderFor(n)) else HeaderFor(n);
        bytes := shorter;
        ShrunkMeaning(old(bytes[..]), bytes[..], n);
      } else if n > m {
        Grow(n);
      }
    }

    method Grow(n: nat)
      requires Valid() && NumFlags(bytes[..]) < n < 128
      modifies this
      ensures fresh(bytes) && Valid() && Flags(bytes[..]) == Grown(Flags(old(bytes[..])), n)
    {
      SizesOf(bytes[..], n);
      hide *;
      var m := Count(bytes[0]);
      var other := new Bitflags(n);
      ghost var blank := other.bytes[..];
      BlankSize(blank, n);
      CopyOver(bytes, other.bytes, ByteCount(m) - 1, m % 8);
      bytes := other.bytes;
      CopiedIsGrown(old(bytes[..]), blank, bytes[..], n);
      GrownMeaning(old(bytes[..]), bytes[..], n);
      OkIsValid();
    }

    lemma OkIsValid()
      ensures Ok(bytes[..]) <==> Valid()
    {
    }

    /** Or the low bits of the last byte into the target, then copy the bytes below it. */
    static method CopyOver(source: array<bv8>, target: array<bv8>, last: nat, r: nat)
      requires source != target && 0 < last < source.Length && last < target.Length && r < 8
      modifies target
      ensures target[0] == old(target[0])
      ensures forall j :: 1 <= j < last ==> target[j] == source[j]
      ensures target[last] == Merge(old(target[last]), source[last], r)
      ensures forall j :: last < j < target.Length ==> target[j] == old(target[j])
    {
      hide Merge;
      target[last] := Merge(target[last], source[last], r);
      var i := last - 1;
      while i > 0
        invariant 0 <= i < last && target[0] == old(target[0])
        invariant forall j :: i < j < last ==> target[j] == source[j]
        invariant target[last] == Merge(old(target[last]), source[last], r)
        invariant forall j :: last < j < target.Length ==> target[j] == old(target[j])
      {
        target[i] := source[i];
        i := i - 1;
      }
    }

    method Set(idx: nat)
      requires Valid() && idx < NumFlags(bytes[..])
      modifies bytes
      ensures Valid() && Flags(bytes[..]) == Flags(old(bytes[..]))[idx := true]
    {
      SetMeaning(bytes[..], idx);
      bytes[idx / 8 + 1] := bytes[idx / 8 + 1] | (1 << (idx % 8));
      assert bytes[..] == WithSet(old(bytes[..]), idx);
    }

    method Unset(idx: nat)
      requires Valid() && idx < NumFlags(bytes[..])
      modifies bytes
      ensures Valid() && Flags(bytes[..]) == Flags(old(bytes[..]))[idx := false]
    {
      UnsetMeaning(bytes[..], idx);
      bytes[idx / 8 + 1] := bytes[idx / 8 + 1] & (0xFF ^ (1 << (idx % 8)));
      bytes[0] := Unmark(bytes[0]);
      assert bytes[..] == WithUnset(old(bytes[..]), idx);
    }

    method Get(idx: nat) returns (r: bool)
      requires Valid() && idx < NumFlags(bytes[..])
      ensures r == Flags(bytes[..])[idx]
    {
      r := bytes[idx / 8 + 1] & (1 << (idx % 8)) != 0;
    }

    method SetAll()
      requires Valid()
      modifies bytes
      ensures Valid() && Flags(bytes[..]) == seq(NumFlags(old(bytes[..])), _ => true)
    {
      for i := 1 to bytes.Length
        invariant bytes[0] == old(bytes[0])
        invariant forall j :: 1 <= j < i ==> bytes[j] == 0xFF
      {
        bytes[i] := 255;
      }
      HeaderMarks(bytes[0]);
      bytes[0] := Mark(bytes[0]);
      FullMeaning(bytes[..]);
    }

    method Clear()
      requires Sized(bytes[..])
      modifies bytes
      ensures Valid() && Flags(bytes[..]) == seq(NumFlags(old(bytes[..])), _ => false)
    {
      hide Count, Marked, Mark, Unmark, HighMask, HeaderFor;
      var numFlags := Count(bytes[0]);
      var numBytes := (numFlags - 1) / 8 + 1;
      for i := 1 to numBytes + 1
        invariant bytes[0] == old(bytes[0])
        invariant forall j :: 1 <= j < i ==> bytes[j] == 0
      {
        bytes[i] := 0;
      }
      RaisePadding(numFlags);
      HeaderMarks(bytes[0]);
      bytes[0] := Unmark(bytes[0]);
      BlankMeaning(bytes[..], numFlags);
    }

    method GetAll() returns (r: bool)
      requires Valid()
      modifies bytes
      ensures Valid() && Flags(bytes[..]) == Flags(old(bytes[..]))
      ensures r <==> AllTrue(Flags(bytes[..]))
    {
      hide BitAt, HighMask;
      FullBytes(bytes[..]);
      if Marked(bytes[0]) {
        return true;
      }
      for i := 1 to bytes.Length
        invariant forall j :: 1 <= j < i ==> bytes[j] == 0xFF
      {
        if bytes[i] != 0xFF {
          return false;
        }
      }
      CacheMeaning(bytes[..]);
      bytes[0] := Mark(bytes[0]);
      assert bytes[..] == old(bytes[..])[0 := Mark(old(bytes[0]))];
      r := true;
    }

    /** Adds up the first n bits of a byte, shifting it right bit by bit. */
    static method SumByte(byte: bv8, n: nat) returns (sum: nat)
      requires n <= 8
      ensures sum == CountTrue(BitsOf(byte, n))
    {
      ShiftOnce(byte, 0);
      hide Bit, BitsOf, Shifted;
      ghost var bits := BitsOf(byte, n);
      var rest := byte;
      sum := 0;
      for j := 0 to n
        invariant rest == Shifted(byte, j) && sum == CountTrue(bits[..j])
      {
        ShiftBit(byte, j);
        ShiftOnce(byte, j);
        CountPrefix(bits, j);
        sum := sum + if rest & 1 != 0 then 1 else 0;
        rest := rest >> 1;
      }
      assert bits[..n] == bits;
    }

    method GetSum() returns (sum: nat)
      requires Valid()
      ensures sum == CountTrue(Flags(bytes[..]))
    {
      hide CountTrue, CountBefore, BitsOf, BitAt, Padded, Mark, Unmark, HeaderFor;
      CountBeforeEnds(bytes[..]);
      var numFlags := Count(bytes[0]);
      if Marked(bytes[0]) {
        CountAll(Flags(bytes[..]));
        return numFlags;
      }
      sum := 0;
      for i := 1 to bytes.Length
        invariant sum == CountBefore(bytes[..], i)
      {
        var n := Min(numFlags - 8 * (i - 1), 8);
        ByteShare(bytes[..], i, n);
        if bytes[i] != 0 {
          var more := SumByte(bytes[i], n);
          sum := sum + more;
        }
      }
    }

    /** Zero exactly when both the flags and the caches agree. */
    method Compare(other: Bitflags) returns (differ: bool)
      requires Valid() && other.Valid()
      ensures differ <==> Flags(bytes[..]) != Flags(other.bytes[..]) || Cached(bytes[..]) != Cached(other.bytes[..])
    {
      SameBytes(bytes[..], other.bytes[..]);
      differ := bytes[0] != other.bytes[0] || bytes[..] != other.bytes[..];
    }
  }
}
