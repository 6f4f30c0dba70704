/**
 The circular history of one signal instance: sample vectors and their times, which elements of the
 newest vector are known, and the write position.  The ghost field `hist` lists the samples appended
 since the last reset, oldest first; growing the buffer forgets the part it had already overwritten.
 Sample memory is a sequence of elements per cell.
 */
module ValueBuffer {
  import opened BitflagArray
  import opened Wrappers
  import Bits

  type Elem = int
  type Vec = seq<Elem>
  type Time = real

  datatype Sample = Sample(value: Vec, time: Time)

  /** Remainder of C, which takes the sign of the dividend. */
  function CMod(a: int, b: int): int
    requires b > 0
  {
    if a >= 0 then a % b else -((-a) % b)
  }

  /** The last `n` samples, or all of them. */
  function Latest(hist: seq<Sample>, n: nat): seq<Sample> {
    if |hist| <= n then hist else hist[|hist| - n..]
  }

  /** What matters of a buffer: the samples since the last reset (or what growth kept of them), whether the
      ring has wrapped since the last reset or growth, whether it counts one cell too many, and its length. */
  datatype Ring = Ring(hist: seq<Sample>, full: bool, stale: bool, mlen: nat)

  /** Appending to a ring whose cells are all counted wraps it; a cell counted in excess is then reused. */
  function Appended(r: Ring, s: Sample): Ring {
    var wraps := !r.full && |r.hist| + (if r.stale then 1 else 0) == r.mlen;
    r.(hist := r.hist + [s], full := r.full || wraps, stale := r.stale && !wraps)
  }

  function Replaced(r: Ring, s: Sample): Ring
    requires r.hist != []
  {
    r.(hist := r.hist[..|r.hist| - 1] + [s])
  }

  lemma AppendedReplaced(r: Ring, s: Sample, t: Sample)
    ensures Appended(r, s).hist != [] && Replaced(Appended(r, s), t) == Appended(r, t)
    ensures Appended(r, t).hist == r.hist + [t]
  {
  }

  function Cleared(r: Ring): Ring {
    r.(hist := [], full := false, stale := false)
  }

  /** A longer ring keeps what could be read; one that had wrapped counts a cell too many from then on. */
  function Lengthened(r: Ring, mlen: nat): Ring {
    if r.hist == [] then r.(mlen := mlen)
    else Ring(Latest(r.hist, r.mlen), false, r.stale || r.full, mlen)
  }

  function NumSamps(r: Ring): nat {
    Min(|r.hist|, r.mlen) + if r.stale then 1 else 0
  }

  lemma LatestSize(hist: seq<Sample>, n: nat)
    ensures |Latest(hist, n)| == Min(|hist|, n)
    ensures hist != [] && n > 0 ==> Latest(hist, n)[|Latest(hist, n)| - 1] == hist[|hist| - 1]
  {
  }

  /** Buffer cell holding the sample k steps back from position `pos`. */
  function Cell(pos: int, k: nat, mlen: nat): (i: nat)
    requires 0 <= pos < mlen && k < mlen
    ensures i < mlen
  {
    if pos >= k then pos - k else pos - k + mlen
  }

  /** The position the code computes for history offset -k is the cell k steps back. */
  lemma OffsetIsCell(pos: int, k: nat, mlen: nat)
    requires 0 <= pos < mlen && k < mlen
    ensures CMod(pos + mlen - k, mlen) == Cell(pos, k, mlen)
  {
    if pos >= k {
      ModWrap(pos - k, mlen);
    } else {
      ModSmall(pos - k + mlen, mlen);
    }
  }

  /** Every sample still in the ring is found where its history offset says. */
  ghost predicate Holds(hist: seq<Sample>, pos: nat, samps: seq<Vec>, times: seq<Time>)
    requires pos < |samps| == |times|
  {
    forall k: nat :: k < Min(|hist|, |samps|) ==>
      hist[|hist| - 1 - k] == Sample(samps[Cell(pos, k, |samps|)], times[Cell(pos, k, |samps|)])
  }

  /** The cell after `p`, with a wrap at the end of the ring; the first one when there is none yet. */
  function NextCell(p: int, mlen: nat): nat
    requires mlen > 0 && -1 <= p < mlen
  {
    if p + 1 >= mlen then 0 else p + 1
  }

  lemma HoldsAfterAppend(hist: seq<Sample>, p: int, samps: seq<Vec>, times: seq<Time>)
    requires |samps| == |times| > 0 && -1 <= p < |samps|
    requires if p < 0 then hist == [] else Holds(hist, p, samps, times)
    ensures var q := NextCell(p, |samps|);
            Holds(hist + [Sample(samps[q], times[q])], q, samps, times)
  {
    var q, more := NextCell(p, |samps|), hist + [Sample(samps[NextCell(p, |samps|)], times[NextCell(p, |samps|)])];
    forall k: nat | k < Min(|more|, |samps|)
      ensures more[|more| - 1 - k] == Sample(samps[Cell(q, k, |samps|)], times[Cell(q, k, |samps|)])
    {
      if k > 0 {
        assert Cell(q, k, |samps|) == Cell(p, k - 1, |samps|);
        assert more[|more| - 1 - k] == hist[|hist| - 1 - (k - 1)];
      }
    }
  }

  lemma HoldsAfterWrite(hist: seq<Sample>, pos: nat, samps: seq<Vec>, times: seq<Time>, s: Vec, t: Time)
    requires pos < |samps| == |times| && hist != [] && Holds(hist, pos, samps, times)
    ensures Holds(hist[..|hist| - 1] + [Sample(s, t)], pos, samps[pos := s], times[pos := t])
  {
  }

  lemma HoldsAt(hist: seq<Sample>, pos: nat, samps: seq<Vec>, times: seq<Time>, k: nat)
    requires pos < |samps| == |times| && Holds(hist, pos, samps, times) && k < Min(|hist|, |samps|)
    ensures hist[|hist| - 1 - k] == Sample(samps[Cell(pos, k, |samps|)], times[Cell(pos, k, |samps|)])
  {
  }

  /** Copies that put the first n cells, counted back, at the same offsets hold the same n samples. */
  lemma HoldsAfterCopy(hist: seq<Sample>, pos: nat, samps: seq<Vec>, times: seq<Time>,
                       end: nat, samps': seq<Vec>, times': seq<Time>)
    requires pos < |samps| == |times| && end < |samps'| == |times'| && |samps| < |samps'|
    requires Holds(hist, pos, samps, times)
    requires forall k: nat :: k < Min(|hist|, |samps|) ==>
               && samps'[Cell(end, k, |samps'|)] == samps[Cell(pos, k, |samps|)]
               && times'[Cell(end, k, |samps'|)] == times[Cell(pos, k, |samps|)]
    ensures Holds(Latest(hist, |samps|), end, samps', times')
  {
    hide Cell;
  }

  lemma ModWrap(x: nat, m: nat)
    requires x < m
    ensures (x + m) % m == x
  {
    assert (x + m) / m == 1 by {
      assert m <= x + m < 2 * m;
    }
  }

  lemma ModSmall(x: nat, m: nat)
    requires x < m
    ensures x % m == x
  {
  }

  lemma ModUnique(x: int, q: int, r: int, m: int)
    requires 0 <= r < m && x == q * m + r
    ensures x % m == r
  {
    var d := x / m - q;
    assert d * m == r - x % m;
    assert (d >= 1 ==> d * m >= m) && (d <= -1 ==> d * m <= -m);
  }

  /** Element index with support for negative indices. */
  function WrapIndex(el: int, vlen: nat): (i: nat)
    requires vlen > 0
    ensures i == el % vlen
  {
    var i := CMod(el, vlen);
    var q, r := (-el) / vlen, (-el) % vlen;
    assert el < 0 && r == 0 ==> el % vlen == 0 by { if el < 0 && r == 0 { ModUnique(el, -q, 0, vlen); } }
    assert el < 0 && r > 0 ==> el % vlen == vlen - r by {
      if el < 0 && r > 0 { ModUnique(el, -q - 1, vlen - r, vlen); }
    }
    if i < 0 then i + vlen else i
  }

  /** memcpy of `len` cells. */
  method Copy<T>(src: array<T>, from: nat, dst: array<T>, to: nat, len: nat)
    requires src != dst && from + len <= src.Length && to + len <= dst.Length
    modifies dst
    ensures forall i :: to <= i < to + len ==> dst[i] == src[from + i - to]
    ensures forall i :: 0 <= i < dst.Length && !(to <= i < to + len) ==> dst[i] == old(dst[i])
  {
    for i := 0 to len
      invariant forall j :: to <= j < to + i ==> dst[j] == src[from + j - to]
      invariant forall j :: 0 <= j < dst.Length && !(to <= j < to + i) ==> dst[j] == old(dst[j])
    {
      dst[to + i] := src[from + i];
    }
  }

  /** Unrolls a ring into a longer array: the cells from `pos` on first when the ring is full, then the
      cells up to and including `pos`. */
  method CopyRing<T>(src: array<T>, pos: nat, full: bool, dst: array<T>) returns (end: nat)
    requires src != dst && pos < src.Length < dst.Length
    modifies dst
    ensures end == (if full then src.Length else pos) && dst[end] == src[pos]
    ensures forall k: nat :: k < (if full then src.Length else pos + 1) ==>
              dst[Cell(end, k, dst.Length)] == src[Cell(pos, k, src.Length)]
    ensures forall i :: end < i < dst.Length ==> dst[i] == old(dst[i])
    ensures forall i :: 0 <= i <= end ==> dst[i] in src[..]
  {
    var offset := 0;
    if full {
      offset := src.Length - pos;
      Copy(src, pos, dst, 0, offset);
    }
    Copy(src, 0, dst, offset, pos + 1);
    end := pos + offset;
  }

  lemma NoneKnown(known: Bitflags)
    requires known.Valid() && Flags(known.bytes[..]) == seq(NumFlags(known.bytes[..]), _ => false)
    ensures !AllTrue(Flags(known.bytes[..]))
  {
    assert !Flags(known.bytes[..])[0];
  }

  class Buffer {
    var start: Time
    var samps: array<Vec>
    var times: array<Time>
    const known: Bitflags
    var pos: int
    var full: bool
    ghost var hist: seq<Sample>
    /** Growing a full buffer leaves one cell that is counted but holds no distinct sample. */
    ghost var stale: bool

    ghost function Repr(): set<object>
      reads this, known
    {
      {this, samps, times, known, known.bytes}
    }

    ghost predicate Valid()
      reads this, known, Repr()
    {
      Sound() && (AllTrue(Flags(known.bytes[..])) ==> pos >= 0)
    }

    ghost predicate Sound()
      reads this, known, Repr()
    {
      && known.Valid()
      && (forall i :: 0 <= i < samps.Length ==> |samps[i]| == NumFlags(known.bytes[..]))
      && samps as object != times && samps as object != known.bytes && times as object != known.bytes
      && Shaped()
      && Refines()
    }

    ghost predicate Shaped()
      reads this
    {
      && samps.Length == times.Length > 0
      && -1 <= pos < samps.Length
      && (pos < 0 ==> hist == [] && !full && !stale)
      && (pos >= 0 && full ==> |hist| >= samps.Length && !stale)
      && (pos >= 0 && !full ==> pos + 1 == |hist| + (if stale then 1 else 0) && hist != [])
    }

    ghost predicate Refines()
      reads this, samps, times
      requires Shaped()
    {
      && (pos >= 0 ==> hist[|hist| - 1] == Sample(samps[pos], times[pos]))
      && (pos >= 0 ==> Holds(hist, pos, samps[..], times[..]))
    }

    ghost function Contents(): Ring
      reads this
    {
      Ring(hist, full, stale, samps.Length)
    }

    constructor (vlen: nat, mlen: nat)
      requires 0 < vlen < 128 && mlen > 0
      ensures Valid() && fresh(Repr()) && Contents() == Ring([], false, false, mlen)
      ensures samps.Length == mlen && hist == [] && pos < 0
      ensures NumFlags(known.bytes[..]) == vlen && !AllTrue(Flags(known.bytes[..]))
    {
      start := 0.0;
      samps := new Vec[mlen](_ => seq(vlen, _ => 0));
      times := new Time[mlen](_ => 0.0);
      known := new Bitflags(vlen);
      pos, full := -1, false;
      hist, stale := [], false;
      new;
      assert !Flags(known.bytes[..])[0];
    }

    /** Move on to the next cell, unless the newest vector is still incomplete. */
    method IncrIdx(t: Time) returns (activated: bool)
      requires Sound()
      modifies this, times, known.bytes
      ensures Valid() && samps == old(samps) && times == old(times)
      ensures Flags(known.bytes[..]) == Flags(old(known.bytes[..])) && samps[..] == old(samps[..])
      ensures NumFlags(known.bytes[..]) == NumFlags(old(known.bytes[..]))
      ensures activated == old(pos < 0) && pos >= 0
      ensures if old(pos >= 0 && !AllTrue(Flags(known.bytes[..])))
              then hist == old(hist) && pos == old(pos) && times[..] == old(times[..])
              else && hist == old(hist) + [Sample(samps[pos], times[pos])] && pos == NextCell(old(pos), samps.Length)
                   && times[..] == (if activated then old(times[..])[0 := t] else old(times[..]))
      ensures start == if activated then t else old(start)
      ensures Contents() == if old(pos >= 0 && !AllTrue(Flags(known.bytes[..]))) then old(Contents())
                        else Appended(old(Contents()), Sample(samps[pos], times[pos]))
    {
      hide Ok, Flags, NumFlags, AllTrue, Holds;
      activated := pos < 0;
      var complete := known.GetAll();
      if pos < 0 {
        times[0] := t;
        start := t;
      } else if !complete {
        return;
      }
      HoldsAfterAppend(hist, pos, samps[..], times[..]);
      pos := pos + 1;
      if pos >= samps.Length {
        pos := 0;
        full := true;
        stale := false;
      }
      hist := hist + [Sample(samps[pos], times[pos])];
    }

    /** Overwrite the newest sample. */
    method WriteNewest(s: Vec, t: Time)
      requires Valid() && pos >= 0 && |s| == NumFlags(known.bytes[..])
      modifies this`hist, samps, times
      ensures Valid() && hist == old(hist)[..|old(hist)| - 1] + [Sample(s, t)]
      ensures samps[..] == old(samps[..])[pos := s] && times[..] == old(times[..])[pos := t]
      ensures Contents() == Replaced(old(Contents()), Sample(s, t))
    {
      hide Ok, Flags, Holds;
      HoldsAfterWrite(hist, pos, samps[..], times[..], s, t);
      samps[pos] := s;
      times[pos] := t;
      assert samps[..] == old(samps[..])[pos := s] && times[..] == old(times[..])[pos := t];
      hist := hist[..|hist| - 1] + [Sample(s, t)];
    }

    /** Append a sample; the result says whether it differs from a completely known predecessor. */
    method SetNext(s: Option<Vec>, t: Time) returns (changed: bool)
      requires Valid() && (s.Some? ==> |s.value| == NumFlags(known.bytes[..]))
      modifies this, samps, times, known.bytes
      ensures Valid() && samps == old(samps) && times == old(times)
      ensures s.None? ==> !changed && hist == old(hist) && pos == old(pos)
                          && Flags(known.bytes[..]) == Flags(old(known.bytes[..]))
      ensures s.Some? ==> pos >= 0 && hist == old(hist) + [Sample(s.value, t)]
                          && AllTrue(Flags(known.bytes[..]))
      ensures NumFlags(known.bytes[..]) == NumFlags(old(known.bytes[..]))
      ensures s.Some? ==>
                (!changed <==>
                 old(AllTrue(Flags(known.bytes[..])) && hist != [] && hist[|hist| - 1].value == s.value))
      ensures s.Some? && old(pos) < 0 ==> start == t
      ensures Contents() == if s.None? then old(Contents()) else Appended(old(Contents()), Sample(s.value, t))
    {
      if s.None? {
        return false;
      }
      hide *;
      ghost var was := Contents();
      changed := Prepare(s.value);
      var _ := IncrIdx(t);
      AppendedReplaced(was, Sample(samps[pos], times[pos]), Sample(s.value, t));
      WriteNewest(s.value, t);
      ContentsHist();
    }

    lemma ValidIsSound()
      requires Valid()
      ensures Sound() && samps.Length == times.Length && pos < samps.Length
    {
    }

    lemma ContentsHist()
      ensures Contents().hist == hist
    {
    }

    /** Compare with the newest sample if it is complete, else mark all elements as known. */
    method Prepare(s: Vec) returns (changed: bool)
      requires Valid()
      modifies known.bytes
      ensures Sound() && AllTrue(Flags(known.bytes[..])) && samps[..] == old(samps[..]) && times[..] == old(times[..])
      ensures NumFlags(known.bytes[..]) == NumFlags(old(known.bytes[..]))
      ensures !changed <==> old(AllTrue(Flags(known.bytes[..])) && hist != [] && hist[|hist| - 1].value == s)
    {
      hide Ok, Flags, NumFlags, Holds;
      changed := true;
      var complete := known.GetAll();
      if complete {
        changed := samps[pos] != s;
      } else {
        MarkAll();
      }
    }

    method MarkAll()
      requires Sound()
      modifies known.bytes
      ensures Sound() && AllTrue(Flags(known.bytes[..])) && NumFlags(known.bytes[..]) == NumFlags(old(known.bytes[..]))
      ensures (pos >= 0 ==> Valid()) && samps[..] == old(samps[..]) && times[..] == old(times[..])
    {
      hide Ok, Flags, NumFlags, Holds;
      known.SetAll();
    }

    /** Append the result of a coercion; `coerced` is None when the conversion failed, which leaves the
        memory of the current cell as it is.  An incomplete newest vector is overwritten. */
    method SetNextCoerced(coerced: Option<Vec>, t: Time)
      requires Valid() && (coerced.Some? ==> |coerced.value| == NumFlags(known.bytes[..]))
      modifies this, samps, times, known.bytes
      ensures Valid() && samps == old(samps) && times == old(times) && pos >= 0
      ensures NumFlags(known.bytes[..]) == NumFlags(old(known.bytes[..]))
      ensures coerced.Some? ==> AllTrue(Flags(known.bytes[..]))
      ensures coerced.None? ==> samps[..] == old(samps[..]) && Flags(known.bytes[..]) == Flags(old(known.bytes[..]))
      ensures Contents() == if old(pos >= 0 && !AllTrue(Flags(known.bytes[..])))
                        then if coerced.None? then old(Contents())
                             else Replaced(old(Contents()), Sample(coerced.value, t))
                        else Appended(old(Contents()), if coerced.None? then Sample(samps[pos], times[pos])
                                                   else Sample(coerced.value, t))
    {
      hide *;
      ghost var was := Contents();
      ValidIsSound();
      var _ := IncrIdx(t);
      ValidIsSound();
      if coerced.Some? {
        MarkAll();
        AppendedReplaced(was, Sample(samps[pos], times[pos]), Sample(coerced.value, t));
        WriteNewest(coerced.value, t);
      }
    }

    /** Repeat the newest sample at a later time, once it is complete. */
    method CopyNext(t: Time)
      requires Valid()
      modifies this, samps, times, known.bytes
      ensures Valid() && samps == old(samps) && times == old(times) && pos >= 0
      ensures NumFlags(known.bytes[..]) == NumFlags(old(known.bytes[..]))
      ensures old(pos >= 0 && AllTrue(Flags(known.bytes[..]))) ==>
                hist == old(hist) + [Sample(old(hist[|hist| - 1].value), t)]
      ensures old(pos >= 0 && !AllTrue(Flags(known.bytes[..]))) ==> hist == old(hist)
      ensures old(pos) < 0 ==> hist == [Sample(old(samps[0]), t)]
      ensures Contents() == if old(pos < 0) then Appended(old(Contents()), Sample(old(samps[0]), t))
                        else if old(AllTrue(Flags(known.bytes[..])))
                        then Appended(old(Contents()), Sample(old(hist[|hist| - 1].value), t)) else old(Contents())
      ensures Flags(known.bytes[..]) == Flags(old(known.bytes[..]))
    {
      if pos < 0 {
        var _ := IncrIdx(t);
      } else {
        var complete := known.GetAll();
        if complete {
            var _ := SetNext(Some(samps[pos]), t);
        }
      }
    }

    /** Set one element of the newest vector; negative indices count from the end. */
    method SetElement(el: int, x: Elem) returns (changed: bool)
      requires Valid()
      modifies this`hist, samps, known.bytes
      ensures Valid()
      ensures old(pos) < 0 ==> !changed && hist == old(hist) && known.bytes[..] == old(known.bytes[..])
      ensures old(pos) >= 0 ==>
        var vlen := NumFlags(old(known.bytes[..])); var i := el % vlen; var last := old(hist[|hist| - 1]);
        && hist == old(hist)[..|old(hist)| - 1] + [last.(value := last.value[i := x])]
        && Flags(known.bytes[..]) == Flags(old(known.bytes[..]))[i := true]
        && (changed <==> last.value[i] != x)
        && Contents() == Replaced(old(Contents()), last.(value := last.value[i := x]))
    {
      if pos < 0 {
        return false;
      }
      var i := WrapIndex(el, Bits.Count(known.bytes[0]));
      hide Ok, Flags, NumFlags, AllTrue, Cell, WrapIndex, Holds;
      known.Set(i);
      changed := samps[pos][i] != x;
      ghost var s, before := samps[pos][i := x], samps[..];
      HoldsAfterWrite(hist, pos, before, times[..], s, times[pos]);
      assert times[..][pos := times[pos]] == times[..];
      if changed {
        samps[pos] := samps[pos][i := x];
        assert samps[..] == before[pos := s];
      } else {
        assert before[pos] == s && before[pos := s] == before;
      }
      hist := hist[..|hist| - 1] + [Sample(samps[pos], times[pos])];
    }

    method Reset(t: Time)
      requires Valid()
      modifies this, samps, times, known.bytes
      ensures Valid() && samps == old(samps) && times == old(times)
      ensures pos < 0 && hist == [] && times.Length > 0 && times[0] == t && start == old(start)
      ensures Contents() == Cleared(old(Contents()))
      ensures forall i :: 0 <= i < samps.Length ==>
                samps[i] == seq(NumFlags(old(known.bytes[..])), _ => 0) && (i > 0 ==> times[i] == 0.0)
      ensures NumFlags(known.bytes[..]) == NumFlags(old(known.bytes[..])) && !AllTrue(Flags(known.bytes[..]))
    {
      Blank();
      times[0] := t;
      known.Clear();
      pos, full := -1, false;
      hist, stale := [], false;
      NoneKnown(known);
      hide Ok, Flags, NumFlags, AllTrue, Holds;
    }

    method Blank()
      requires Sound()
      modifies samps, times
      ensures known.Valid() && samps.Length == times.Length > 0
      ensures samps as object != times && samps as object != known.bytes && times as object != known.bytes
      ensures forall i :: 0 <= i < samps.Length ==>
                samps[i] == seq(NumFlags(known.bytes[..]), _ => 0) && times[i] == 0.0
    {
      var vlen := Bits.Count(known.bytes[0]);
      assert vlen == NumFlags(known.bytes[..]);
      hide Ok, Flags, NumFlags, Holds;
      for i := 0 to samps.Length
        modifies samps, times
        invariant forall j :: 0 <= j < i ==> samps[j] == seq(vlen, _ => 0) && times[j] == 0.0
      {
        samps[i], times[i] := seq(vlen, _ => 0), 0.0;
      }
    }

    method GetValue(offset: int) returns (value: Option<Vec>)
      requires Valid()
      ensures value.None? <==> hist == []
      ensures 0 <= -offset < Min(|hist|, samps.Length) ==> value == Some(hist[|hist| - 1 + offset].value)
    {
      var idx := CMod(pos + samps.Length + offset, samps.Length);
      if pos < 0 {
        return None;
      }
      if idx < 0 {
        idx := idx + samps.Length;
      }
      value := Some(samps[idx]);
      if 0 <= -offset < samps.Length {
        OffsetIsCell(pos, -offset, samps.Length);
        if -offset < |hist| { HoldsAt(hist, pos, samps[..], times[..], -offset); }
      }
    }

    /** After a reset, and until the next sample, the time of the reset is reported. */
    method GetTime(offset: int) returns (t: Time)
      requires Valid()
      ensures hist == [] ==> t == times[0]
      ensures 0 <= -offset < Min(|hist|, samps.Length) ==> t == hist[|hist| - 1 + offset].time
    {
      var idx := 0;
      if pos >= 0 {
        idx := CMod(pos + samps.Length + offset, samps.Length);
        if idx < 0 {
          idx := idx + samps.Length;
        }
        if 0 <= -offset < samps.Length {
          OffsetIsCell(pos, -offset, samps.Length);
          if -offset < |hist| { HoldsAt(hist, pos, samps[..], times[..], -offset); }
        }
      }
      t := times[idx];
    }

    method GetNumSamps() returns (n: nat)
      requires Valid()
      ensures n == NumSamps(Contents())
    {
      n := if full then samps.Length else pos + 1;
    }

    method GetHasValue() returns (r: bool)
      requires Valid()
      modifies known.bytes
      ensures Valid() && Flags(known.bytes[..]) == Flags(old(known.bytes[..]))
      ensures r <==> hist != [] && AllTrue(Flags(known.bytes[..]))
    {
      r := known.GetAll();
      r := pos >= 0 && r;
    }

    /** Larger memory with the current samples unrolled into it, and the position of the newest. */
    method Unrolled(mlen: nat) returns (samps': array<Vec>, times': array<Time>, end: int)
      requires Valid() && mlen > samps.Length
      ensures fresh(samps') && fresh(times') && samps' as object != times' && samps'.Length == times'.Length == mlen
      ensures forall i :: 0 <= i < mlen ==> |samps'[i]| == NumFlags(known.bytes[..])
      ensures pos < 0 ==> end == -1 && times'[0] == times[0]
      ensures pos >= 0 ==>
                && end == (if full then samps.Length else pos) && samps'[end] == samps[pos] && times'[end] == times[pos]
                && Holds(Latest(hist, samps.Length), end, samps'[..], times'[..])
    {
      var vlen := Bits.Count(known.bytes[0]);
      assert vlen == NumFlags(known.bytes[..]);
      hide Ok, Flags, NumFlags, AllTrue, Cell, Holds, Latest;
      samps', times', end := new Vec[mlen](_ => seq(vlen, _ => 0)), new Time[mlen](_ => 0.0), -1;
      if pos < 0 {
        times'[0] := times[0];
      } else {
        end := CopyRing(samps, pos, full, samps');
        var _ := CopyRing(times, pos, full, times');
        assert forall s :: s in samps[..] ==> |s| == vlen;
        assert forall i :: 0 <= i < mlen ==> |samps'[i]| == vlen;
        HoldsAfterCopy(hist, pos, samps[..], times[..], end, samps'[..], times'[..]);
      }
    }

    /** More memory for the same kind of samples: what could be read before can be read at the same
        offsets, and there is room for more. */
    method Grow(mlen: nat)
      requires Valid() && mlen > samps.Length
      modifies this
      ensures Valid() && fresh(samps) && fresh(times) && samps.Length == mlen
      ensures hist == Latest(old(hist), old(samps.Length))
      ensures pos < 0 <==> old(pos) < 0
      ensures Contents() == Lengthened(old(Contents()), mlen)
      ensures pos < 0 ==> times[0] == old(times[0])
    {
      hide Ok, Flags, NumFlags, AllTrue, Cell, Holds, Latest;
      LatestSize(hist, samps.Length);
      var samps', times', end := Unrolled(mlen);
      if pos >= 0 {
        pos := end;
        hist := Latest(hist, samps.Length);
        stale := stale || full;
        full := false;
      }
      samps, times := samps', times';
    }
  }
}
