/**
 The histories of all instances of a signal, with the counter of active instances.
 */
module ValueHistory {
  import opened Wrappers
  import opened BitflagArray
  import opened ValueBuffer

  /** Number of write positions that are in use. */
  function CountActive(positions: seq<int>): nat {
    if positions == [] then 0
    else CountActive(positions[..|positions| - 1]) + if positions[|positions| - 1] >= 0 then 1 else 0
  }

  lemma {:induction false} CountActiveSplit(a: seq<int>, b: seq<int>)
    ensures CountActive(a + b) == CountActive(a) + CountActive(b)
  {
    if b == [] {
      assert a + b == a;
    } else {
      CountActiveSplit(a, b[..|b| - 1]);
      assert (a + b)[..|a + b| - 1] == a + b[..|b| - 1];
    }
  }

  lemma CountActiveIdle(p: int)
    requires p < 0
    ensures CountActive([p]) == 0
  {
    assert [p][..0] == [];
  }

  lemma CountActiveAt(positions: seq<int>, k: nat)
    requires k < |positions|
    ensures CountActive(positions) ==
            CountActive(positions[..k]) + (if positions[k] >= 0 then 1 else 0) + CountActive(positions[k + 1..])
  {
    assert positions == positions[..k] + [positions[k]] + positions[k + 1..];
    CountActiveSplit(positions[..k] + [positions[k]], positions[k + 1..]);
    CountActiveSplit(positions[..k], [positions[k]]);
    assert [positions[k]][..0] == [];
  }

  lemma CountActiveUpdate(positions: seq<int>, k: nat, p: int)
    requires k < |positions|
    ensures CountActive(positions[k := p]) ==
            CountActive(positions) - (if positions[k] >= 0 then 1 else 0) + (if p >= 0 then 1 else 0)
  {
    CountActiveAt(positions, k);
    CountActiveAt(positions[k := p], k);
    assert positions[k := p][..k] == positions[..k] && positions[k := p][k + 1..] == positions[k + 1..];
  }

  /** A sequence without its element k. */
  function Without<T>(s: seq<T>, k: nat): (r: seq<T>)
    requires k < |s|
    ensures |r| == |s| - 1
    ensures forall i {:trigger r[i]} :: 0 <= i < |r| ==> r[i] == if i < k then s[i] else s[i + 1]
  {
    s[..k] + s[k + 1..]
  }

  lemma CountActiveRemove(positions: seq<int>, k: nat)
    requires k < |positions|
    ensures CountActive(Without(positions, k)) ==
            CountActive(positions) - (if positions[k] >= 0 then 1 else 0)
  {
    CountActiveAt(positions, k);
    CountActiveSplit(positions[..k], positions[k + 1..]);
  }

  lemma {:induction false} CountActiveSigns(a: seq<int>, b: seq<int>)
    requires |a| == |b| && forall i :: 0 <= i < |a| ==> (a[i] < 0 <==> b[i] < 0)
    ensures CountActive(a) == CountActive(b)
  {
    if a != [] { CountActiveSigns(a[..|a| - 1], b[..|b| - 1]); }
  }

  /** What a grown history reports at offset k is what it reported before. */
  lemma GrowthKeepsOffsets(hist: seq<Sample>, mlen: nat, longer: nat, k: nat)
    requires mlen < longer && k < Min(|hist|, mlen)
    ensures k < Min(|Latest(hist, mlen)|, longer)
    ensures Latest(hist, mlen)[|Latest(hist, mlen)| - 1 - k] == hist[|hist| - 1 - k]
  {
  }

  /** Number of instances that hold a sample. */
  function CountUsed(rings: seq<Ring>): nat {
    if rings == [] then 0
    else CountUsed(rings[..|rings| - 1]) + if rings[|rings| - 1].hist != [] then 1 else 0
  }

  lemma {:induction false} CountUsedIsActive(rings: seq<Ring>, positions: seq<int>)
    requires |rings| == |positions| && forall i :: 0 <= i < |rings| ==> (positions[i] >= 0 <==> rings[i].hist != [])
    ensures CountUsed(rings) == CountActive(positions)
  {
    if rings != [] { CountUsedIsActive(rings[..|rings| - 1], positions[..|positions| - 1]); }
  }

  /** Instance indices wrap around. */
  function Wrap(idx: nat, n: nat): (k: nat)
    requires n > 0
    ensures k < n
  {
    idx % n
  }

  lemma WrapMeaning(idx: nat, n: nat)
    requires n > 0
    ensures (idx < n ==> Wrap(idx, n) == idx) && Wrap(idx + n, n) == Wrap(idx, n)
  {
    if idx < n { ModSmall(idx, n); }
    assert idx == (idx / n) * n + idx % n;
    ModUnique(idx + n, idx / n + 1, idx % n, n);
  }

  function Blank(n: nat, mlen: nat): seq<Ring> {
    seq(n, _ => Ring([], false, false, mlen))
  }

  class Value {
    var inst: seq<Buffer>
    var vlen: nat
    var mlen: nat
    var numActive: nat

    ghost function Positions(): seq<int>
      reads this`inst, inst
    {
      var all := inst;
      seq(|all|, i requires 0 <= i < |all| reads all => all[i].pos)
    }

    ghost function Rings(): (r: seq<Ring>)
      reads this`inst, inst
      ensures |r| == |inst| && forall i :: 0 <= i < |inst| ==> r[i] == inst[i].Contents()
    {
      var all := inst;
      seq(|all|, i requires 0 <= i < |all| reads all => all[i].Contents())
    }

    /** The counter counts the instances that hold a sample. */
    lemma ActiveAreUsed()
      requires Valid()
      ensures numActive == CountUsed(Rings())
    {
      CountUsedIsActive(Rings(), Positions());
    }

    ghost function Footprint(): set<object>
      reads this`inst, inst, set b | b in inst :: b.known
    {
      set b, o | b in inst && o in b.Repr() :: o
    }

    static ghost predicate BufferOk(b: Buffer, vlen: nat, mlen: nat)
      reads b, b.known, b.Repr()
    {
      b.Valid() && b.samps.Length == mlen && NumFlags(b.known.bytes[..]) == vlen
    }

    /** No two instances share memory. */
    ghost predicate Separate()
      reads this`inst, inst, set b | b in inst :: b.known
    {
      && (forall i :: 0 <= i < |inst| ==> this !in inst[i].Repr())
      && (forall i, j :: 0 <= i < j < |inst| ==> inst[i].Repr() !! inst[j].Repr())
    }

    /** Instances are separate and well formed, and the active ones are counted. */
    ghost predicate Valid()
      reads this, inst, set b | b in inst :: b.known, Footprint()
    {
      && 0 < vlen < 128 && mlen > 0
      && Separate()
      && (forall i :: 0 <= i < |inst| ==> BufferOk(inst[i], vlen, mlen))
      && numActive == CountActive(Positions())
    }

    constructor (vlen: nat, mlen: nat, numInst: nat)
      requires vlen < 128 && mlen > 0
      ensures Valid() && |inst| == numInst && this.mlen == mlen && this.vlen == (if vlen == 0 then 1 else vlen)
      ensures Rings() == Blank(numInst, mlen) && fresh(Footprint())
    {
      inst, numActive := [], 0;
      this.vlen, this.mlen := if vlen == 0 then 1 else vlen, mlen;
      new;
      hide Ok, Flags, NumFlags, CountActive, BufferOk, Separate;
      assert Footprint() == {} && Rings() == [];
      AddInst(numInst);
      assert [] + Blank(numInst, this.mlen) == Blank(numInst, this.mlen);
    }

    /** Instance addressed by an index, which wraps around. */
    ghost function At(idx: nat): Buffer
      reads this`inst
      requires inst != []
    {
      inst[Wrap(idx, |inst|)]
    }

    /** When only instance k changes, and not its memory, the view changes in one place. */
    twostate lemma OneChanged(k: nat)
      requires inst == old(inst) && k < |inst| && forall i :: 0 <= i < |inst| ==> inst[i].Repr() == old(inst[i].Repr())
      requires forall i :: 0 <= i < |inst| && i != k ==>
                 inst[i].Contents() == old(inst[i].Contents()) && inst[i].pos == old(inst[i].pos)
      ensures Footprint() == old(Footprint()) && Rings() == old(Rings())[k := inst[k].Contents()]
      ensures k < |old(Positions())| && Positions() == old(Positions())[k := inst[k].pos]
    {
    }

    lemma Parts()
      ensures Valid() <==>
              && 0 < vlen < 128 && mlen > 0 && Separate() && numActive == CountActive(Positions())
              && forall i :: 0 <= i < |inst| ==> BufferOk(inst[i], vlen, mlen)
      ensures |Positions()| == |inst| == |Rings()| && forall i :: 0 <= i < |inst| ==> Positions()[i] == inst[i].pos
      ensures forall i :: 0 <= i < |inst| ==> Rings()[i] == inst[i].Contents()
      ensures Separate() ==> forall i :: 0 <= i < |inst| ==> this !in inst[i].Repr()
    {
    }

    /** The part of an append that concerns one buffer. */
    method StoreAt(k: nat, s: Option<Vec>, t: Time) returns (changed: bool)
      requires Valid() && k < |inst| && (s.Some? ==> |s.value| == vlen)
      modifies inst[k].Repr()
      ensures Separate() && forall i :: 0 <= i < |inst| ==> BufferOk(inst[i], vlen, mlen)
      ensures forall i :: 0 <= i < |inst| ==> this !in inst[i].Repr()
      ensures numActive == old(numActive) && inst == old(inst)
      ensures vlen == old(vlen) && mlen == old(mlen)
      ensures forall i :: 0 <= i < |inst| ==> inst[i].Repr() == old(inst[i].Repr())
      ensures forall i :: 0 <= i < |inst| && i != k ==>
                inst[i].Contents() == old(inst[i].Contents()) && inst[i].pos == old(inst[i].pos)
      ensures inst[k].Contents() == if s.None? then old(inst[k].Contents())
                                    else Appended(old(inst[k].Contents()), Sample(s.value, t))
      ensures if s.None? then !changed && inst[k].pos == old(inst[k].pos) else inst[k].pos >= 0
    {
      hide Ok, Flags, NumFlags, AllTrue, Holds, CountActive, Buffer.Shaped, Buffer.Refines, Buffer.Sound, Appended,
        Rings, Positions, Footprint;
      var b := inst[k];
      assert BufferOk(b, vlen, mlen);
      assert forall i :: 0 <= i < |inst| && i != k ==> inst[i].Repr() !! b.Repr();
      changed := b.SetNext(s, t);
    }

    method SetNextAt(k: nat, s: Option<Vec>, t: Time) returns (changed: bool)
      requires Valid() && k < |inst| && (s.Some? ==> |s.value| == vlen)
      modifies this`numActive, inst[k].Repr()
      ensures Valid() && Footprint() == old(Footprint())
      ensures s.None? ==> !changed && Rings() == old(Rings())
      ensures s.Some? ==> Rings() == old(Rings())[k := Appended(old(Rings()[k]), Sample(s.value, t))]
    {
      hide *;
      Parts();
      var starting := inst[k].pos < 0;
      ghost var before := Positions();
      changed := StoreAt(k, s, t);
      CountActiveUpdate(before, k, inst[k].pos);
      if s.Some? && starting {
        numActive := numActive + 1;
      }
      OneChanged(k);
      Parts();
    }

    method SetNext(idx: nat, s: Option<Vec>, t: Time) returns (changed: bool)
      requires Valid() && inst != [] && (s.Some? ==> |s.value| == vlen)
      modifies this`numActive, At(idx).Repr()
      ensures Valid() && Footprint() == old(Footprint())
      ensures s.None? ==> !changed && Rings() == old(Rings())
      ensures var k := Wrap(idx, |inst|);
              s.Some? ==> Rings() == old(Rings())[k := Appended(old(Rings()[k]), Sample(s.value, t))]
    {
      hide Wrap;
      changed := SetNextAt(Wrap(idx, |inst|), s, t);
    }

    /** The part of a reset that concerns one buffer. */
    method ClearAt(k: nat, t: Time)
      requires k < |inst| && Separate() && forall i :: 0 <= i < |inst| ==> BufferOk(inst[i], vlen, mlen)
      modifies inst[k].Repr()
      ensures Separate() && forall i :: 0 <= i < |inst| ==> BufferOk(inst[i], vlen, mlen)
      ensures forall i :: 0 <= i < |inst| ==> this !in inst[i].Repr()
      ensures numActive == old(numActive) && inst == old(inst)
      ensures vlen == old(vlen) && mlen == old(mlen)
      ensures forall i :: 0 <= i < |inst| ==> inst[i].Repr() == old(inst[i].Repr())
      ensures forall i :: 0 <= i < |inst| && i != k ==>
                inst[i].Contents() == old(inst[i].Contents()) && inst[i].pos == old(inst[i].pos)
      ensures inst[k].Contents() == Cleared(old(inst[k].Contents())) && inst[k].pos < 0
      ensures inst[k].times.Length > 0 && inst[k].times[0] == t
    {
      hide Ok, Flags, NumFlags, AllTrue, Holds, CountActive, Buffer.Shaped, Buffer.Refines, Buffer.Sound, Cleared,
        Rings, Positions, Footprint;
      var b := inst[k];
      assert BufferOk(b, vlen, mlen);
      assert forall i :: 0 <= i < |inst| && i != k ==> inst[i].Repr() !! b.Repr();
      b.Reset(t);
    }

    method ResetAt(idx: nat, t: Time)
      requires Valid() && idx < |inst|
      modifies this`numActive, inst[idx].Repr()
      ensures Valid() && Footprint() == old(Footprint())
      ensures Rings() == old(Rings())[idx := Cleared(old(Rings()[idx]))] && inst[idx].times[0] == t
    {
      hide *;
      Parts();
      ghost var before := Positions();
      CountActiveAt(before, idx);
      CountActiveUpdate(before, idx, -1);
      var active := inst[idx].pos >= 0;
      ClearAt(idx, t);
      CountActiveUpdate(before, idx, inst[idx].pos);
      if active {
        numActive := numActive - 1;
      }
      OneChanged(idx);
      Parts();
    }

    /** Out-of-range indices are ignored. */
    method ResetInst(idx: nat, t: Time)
      requires Valid()
      modifies this`numActive, if idx < |inst| then inst[idx].Repr() else {}
      ensures Valid() && Footprint() == old(Footprint())
      ensures idx < |inst| ==> inst[idx].times[0] == t
      ensures Rings() == if idx < |inst| then old(Rings())[idx := Cleared(old(Rings()[idx]))] else old(Rings())
    {
      if idx < |inst| {
        ResetAt(idx, t);
      }
    }

    method GetValue(idx: nat, offset: int) returns (value: Option<Vec>)
      requires Valid() && inst != []
      ensures Valid()
      ensures value.None? <==> At(idx).hist == []
      ensures 0 <= -offset < Min(|At(idx).hist|, mlen) ==>
                value == Some(At(idx).hist[|At(idx).hist| - 1 + offset].value)
    {
      hide Wrap;
      value := inst[Wrap(idx, |inst|)].GetValue(offset);
    }

    method GetTime(idx: nat, offset: int) returns (t: Time)
      requires Valid() && inst != []
      ensures Valid()
      ensures At(idx).hist == [] ==> t == At(idx).times[0]
      ensures 0 <= -offset < Min(|At(idx).hist|, mlen) ==> t == At(idx).hist[|At(idx).hist| - 1 + offset].time
    {
      hide Wrap;
      t := inst[Wrap(idx, |inst|)].GetTime(offset);
    }

    method GetNumSamps(idx: nat) returns (n: nat)
      requires Valid() && inst != []
      ensures Valid()
      ensures n == NumSamps(At(idx).Contents())
    {
      hide Wrap;
      n := inst[Wrap(idx, |inst|)].GetNumSamps();
    }

    /** Remove an instance and shift the later ones down. */
    method RemoveAt(idx: nat)
      requires Valid() && idx < |inst|
      modifies this
      ensures Valid() && vlen == old(vlen) && mlen == old(mlen) && inst == Without(old(inst), idx)
    {
      hide *;
      Parts();
      CountActiveRemove(Positions(), idx);
      if inst[idx].pos >= 0 {
        numActive := numActive - 1;
      }
      inst := Without(inst, idx);
      Dropped(idx);
      Parts();
    }

    /** When instance idx is taken out and no buffer changes, the rest stays in order. */
    twostate lemma Dropped(idx: nat)
      requires idx < |old(inst)| && inst == Without(old(inst), idx) && vlen == old(vlen) && mlen == old(mlen)
      requires old(Separate())
      requires forall i :: 0 <= i < |old(inst)| ==>
                 var b := old(inst)[i];
                 b.Repr() == old(b.Repr()) && b.pos == old(b.pos) && BufferOk(b, vlen, mlen) && this !in b.Repr()
      ensures Separate() && forall i :: 0 <= i < |inst| ==> BufferOk(inst[i], vlen, mlen)
      ensures |old(Positions())| == |old(inst)| && Positions() == Without(old(Positions()), idx)
    {
      hide BufferOk, Buffer.Repr, Without;
      forall i | 0 <= i < |inst| ensures BufferOk(inst[i], vlen, mlen) && this !in inst[i].Repr() {
        assert inst[i] == old(inst)[if i < idx then i else i + 1];
      }
      forall i, j | 0 <= i < j < |inst| ensures inst[i].Repr() !! inst[j].Repr() {
        var i', j' := if i < idx then i else i + 1, if j < idx then j else j + 1;
        assert inst[i] == old(inst)[i'] && inst[j] == old(inst)[j'];
      }
      forall i | 0 <= i < |inst| ensures Positions()[i] == Without(old(Positions()), idx)[i] {
        assert inst[i] == old(inst)[if i < idx then i else i + 1];
      }
    }

    method RemoveInst(idx: nat) returns (left: nat)
      requires Valid()
      modifies this
      ensures Valid() && left == |inst| && vlen == old(vlen) && mlen == old(mlen)
      ensures inst == if idx < |old(inst)| then Without(old(inst), idx) else old(inst)
    {
      if idx < |inst| {
        RemoveAt(idx);
      }
      left := |inst|;
    }

    method GrowAt(i: nat, longer: nat)
      requires Separate() && i < |inst| && BufferOk(inst[i], vlen, mlen) && longer > mlen
      modifies inst[i]
      ensures Separate() && BufferOk(inst[i], vlen, longer)
      ensures forall o :: o in inst[i].Repr() ==> o in old(inst[i].Repr()) || fresh(o)
      ensures inst[i].Contents() == Lengthened(old(inst[i].Contents()), longer)
      ensures inst[i].pos < 0 <==> old(inst[i].pos) < 0
      ensures forall j :: 0 <= j < |inst| && j != i ==>
                && unchanged(inst[j], inst[j].known) && inst[j].Repr() == old(inst[j].Repr())
                && inst[j].Contents() == old(inst[j].Contents())
      ensures forall j, m :: 0 <= j < |inst| && j != i && old(BufferOk(inst[j], vlen, m)) ==> BufferOk(inst[j], vlen, m)
    {
      hide Ok, Flags, NumFlags, AllTrue, Holds, CountActive, Latest, Buffer.Shaped, Buffer.Refines, Buffer.Sound;
      inst[i].Grow(longer);
    }

    method GrowAll(longer: nat)
      requires Valid() && longer > mlen
      modifies inst
      ensures Separate()
      ensures forall i :: 0 <= i < |inst| ==>
                && BufferOk(inst[i], vlen, longer)
                && (forall o :: o in inst[i].Repr() ==> o in old(inst[i].Repr()) || fresh(o))
                && inst[i].Contents() == Lengthened(old(inst[i].Contents()), longer)
      ensures forall i :: 0 <= i < |inst| ==> (inst[i].pos < 0 <==> old(inst[i].pos) < 0)
    {
      hide Ok, Flags, NumFlags, CountActive, Lengthened, BufferOk, Footprint, Separate, Buffer.Repr, Buffer.Contents;
      for i := 0 to |inst|
        invariant Separate()
        invariant forall j :: 0 <= j < i ==> BufferOk(inst[j], vlen, longer)
        invariant forall j :: 0 <= j < i ==> inst[j].Contents() == Lengthened(old(inst[j].Contents()), longer)
        invariant forall j, o :: 0 <= j < i && o in inst[j].Repr() ==> o in old(inst[j].Repr()) || fresh(o)
        invariant forall j :: i <= j < |inst| ==> BufferOk(inst[j], vlen, mlen) && unchanged(inst[j])
        invariant forall j :: i <= j < |inst| ==> inst[j].Contents() == old(inst[j].Contents())
        invariant forall j :: i <= j < |inst| ==> inst[j].Repr() == old(inst[j].Repr())
        invariant forall j :: 0 <= j < |inst| ==> (inst[j].pos < 0 <==> old(inst[j].pos) < 0)
      {
        GrowAt(i, longer);
      }
    }

    twostate lemma FootprintGrew()
      requires inst == old(inst)
      requires forall i, o :: 0 <= i < |inst| && o in inst[i].Repr() ==> o in old(inst[i].Repr()) || fresh(o)
      ensures forall o :: o in Footprint() ==> o in old(Footprint()) || fresh(o)
    {
    }

    /** Lengthen the history of every instance. */
    method GrowHistory(longer: nat)
      requires Valid() && longer > mlen
      modifies this`mlen, inst
      ensures Valid() && mlen == longer && forall o :: o in Footprint() ==> o in old(Footprint()) || fresh(o)
      ensures Rings() == seq(|old(inst)|, i requires 0 <= i < |old(inst)| => Lengthened(old(Rings())[i], longer))
    {
      hide Ok, Flags, NumFlags, CountActive, Buffer.Valid, Buffer.Repr, Buffer.Contents, BufferOk, Lengthened,
        Footprint;
      ghost var before := Positions();
      GrowAll(longer);
      mlen := longer;
      CountActiveSigns(before, Positions());
      FootprintGrew();
    }

    method AddOne()
      requires Valid()
      modifies this`inst
      ensures Valid() && |inst| == |old(inst)| + 1 && inst[..|old(inst)|] == old(inst)
      ensures Rings() == old(Rings()) + [Ring([], false, false, mlen)]
      ensures fresh(inst[|old(inst)|].Repr()) && forall o :: o in Footprint() ==> o in old(Footprint()) || fresh(o)
    {
      hide Ok, Flags, NumFlags, AllTrue, Holds, CountActive, Buffer.Shaped, Buffer.Refines, Buffer.Sound;
      ghost var before := Positions();
      var b := new Buffer(vlen, mlen);
      inst := inst + [b];
      CountActiveSplit(before, [b.pos]);
      assert Positions() == before + [b.pos];
      CountActiveIdle(b.pos);
    }

    /** Make room for more instances. */
    method AddInst(numInst: nat)
      requires Valid() && numInst >= |inst|
      modifies this`inst
      ensures Valid() && |inst| == numInst && inst[..|old(inst)|] == old(inst)
      ensures Rings() == old(Rings()) + Blank(numInst - |old(inst)|, mlen)
      ensures forall o :: o in Footprint() ==> o in old(Footprint()) || fresh(o)
    {
      hide Ok, Flags, NumFlags, CountActive, BufferOk, Positions, Footprint, Rings;
      assert Rings() == Rings() + Blank(0, mlen);
      while |inst| < numInst
        invariant Valid() && |old(inst)| <= |inst| <= numInst && inst[..|old(inst)|] == old(inst)
        invariant Rings() == old(Rings()) + Blank(|inst| - |old(inst)|, mlen)
        invariant forall o :: o in Footprint() ==> o in old(Footprint()) || fresh(o)
      {
        ghost var before := inst;
        assert Blank(|inst| - |old(inst)| + 1, mlen) ==
               Blank(|inst| - |old(inst)|, mlen) + [Ring([], false, false, mlen)];
        AddOne();
        assert forall i :: 0 <= i < |before| ==> inst[i] == inst[..|before|][i] == before[i];
      }
    }
  }
}
