/**
 Whole runs of the history of a signal: samples set, instances reset and histories lengthened in any order.
 What can be read is compared with the samples that the operations set, computed from the operations alone.
 */
module ValueRuns {
  import opened Wrappers
  import opened BitflagArray
  import opened ValueBuffer
  import opened ValueHistory

  datatype Op =
    | Put(idx: nat, value: Option<Vec>, time: Time)
    | Reset(idx: nat, time: Time)
    | Lengthen(extra: nat)

  /** A put addresses an instance modulo their number; a reset out of range does nothing. */
  predicate Puts(op: Op, n: nat, i: nat)
    requires n > 0
  {
    op.Put? && op.value.Some? && Wrap(op.idx, n) == i
  }

  predicate Resets(op: Op, i: nat) {
    op.Reset? && op.idx == i
  }

  predicate Grows(op: Op) {
    op.Lengthen? && op.extra > 0
  }

  // ---------- what the operations ask for ----------

  /** The samples set on instance i since it was last reset. */
  function Since(ops: seq<Op>, n: nat, i: nat): seq<Sample>
    requires n > 0
  {
    if ops == [] then [] else
    var before, op := Since(ops[..|ops| - 1], n, i), ops[|ops| - 1];
    if Resets(op, i) then [] else if Puts(op, n, i) then before + [Sample(op.value.value, op.time)] else before
  }

  function Added(ops: seq<Op>): nat {
    if ops == [] then 0 else Added(ops[..|ops| - 1]) + if Grows(ops[|ops| - 1]) then ops[|ops| - 1].extra else 0
  }

  // ---------- what the histories do ----------

  /** One operation, as one instance sees it. */
  function Step(r: Ring, op: Op, n: nat, i: nat): Ring
    requires n > 0
  {
    if Puts(op, n, i) then Appended(r, Sample(op.value.value, op.time))
    else if Resets(op, i) then Cleared(r)
    else if Grows(op) then Lengthened(r, r.mlen + op.extra)
    else r
  }

  function Run(mlen: nat, ops: seq<Op>, n: nat, i: nat): Ring
    requires n > 0
  {
    if ops == [] then Ring([], false, false, mlen)
    else Step(Run(mlen, ops[..|ops| - 1], n, i), ops[|ops| - 1], n, i)
  }

  predicate RingOk(r: Ring) {
    && r.mlen > 0
    && (r.hist == [] ==> !r.full && !r.stale)
    && (if r.full then |r.hist| >= r.mlen && !r.stale else |r.hist| + (if r.stale then 1 else 0) <= r.mlen)
  }

  predicate SuffixOf(s: seq<Sample>, t: seq<Sample>) {
    |s| <= |t| && s == t[|t| - |s|..]
  }

  lemma SuffixGrows(s: seq<Sample>, t: seq<Sample>, x: Sample)
    requires SuffixOf(s, t)
    ensures SuffixOf(s + [x], t + [x])
  {
    assert (t + [x])[|t| - |s|..] == t[|t| - |s|..] + [x];
  }

  lemma SuffixShrinks(s: seq<Sample>, t: seq<Sample>, n: nat)
    requires SuffixOf(s, t)
    ensures SuffixOf(Latest(s, n), t) && |Latest(s, n)| == Min(|s|, n)
  {
    var kept := Latest(s, n);
    assert kept == t[|t| - |kept|..];
  }

  lemma {:induction false} RunOk(mlen: nat, ops: seq<Op>, n: nat, i: nat)
    requires n > 0 && mlen > 0
    ensures RingOk(Run(mlen, ops, n, i)) && Run(mlen, ops, n, i).mlen == mlen + Added(ops)
  {
    if ops != [] { RunOk(mlen, ops[..|ops| - 1], n, i); }
  }

  /** Whatever was set since the last reset is what the history ends with, and at least as much of it is kept
      as the shortest history had room for. */
  lemma {:induction false} RunKeeps(mlen: nat, ops: seq<Op>, n: nat, i: nat)
    requires n > 0 && mlen > 0
    ensures var hist, all := Run(mlen, ops, n, i).hist, Since(ops, n, i);
            SuffixOf(hist, all) && |hist| <= |all| && |hist| >= Min(|all|, mlen) && (hist == [] <==> all == [])
  {
    if ops != [] {
      hide SuffixOf, Latest;
      var before := ops[..|ops| - 1];
      RunKeeps(mlen, before, n, i);
      RunOk(mlen, before, n, i);
      var r, all, op := Run(mlen, before, n, i), Since(before, n, i), ops[|ops| - 1];
      if Puts(op, n, i) {
        SuffixGrows(r.hist, all, Sample(op.value.value, op.time));
      } else if !Resets(op, i) && Grows(op) {
        SuffixShrinks(r.hist, all, r.mlen);
      }
    }
  }

  /** Until the history is lengthened it holds all samples set since the last reset, and it has wrapped
      exactly when they are more than it has cells. */
  lemma {:induction false} RunExact(mlen: nat, ops: seq<Op>, n: nat, i: nat)
    requires n > 0 && mlen > 0 && forall op :: op in ops ==> !Grows(op)
    ensures var r, all := Run(mlen, ops, n, i), Since(ops, n, i);
            r == Ring(all, |all| > mlen, false, mlen)
  {
    if ops != [] {
      RunExact(mlen, ops[..|ops| - 1], n, i);
    }
  }

  // ---------- when the number of samples is one too high ----------

  predicate NoReset(ops: seq<Op>, from: nat, i: nat) {
    forall k :: from <= k < |ops| ==> !Resets(ops[k], i)
  }

  /** Number of samples set on instance i by the operations from `from` on. */
  function PutsFrom(ops: seq<Op>, from: nat, n: nat, i: nat): nat
    requires n > 0
  {
    if |ops| <= from then 0
    else PutsFrom(ops[..|ops| - 1], from, n, i) + if Puts(ops[|ops| - 1], n, i) then 1 else 0
  }

  /** Operation j lengthened the history after it had wrapped, and no reset has followed. */
  predicate Outgrown(mlen: nat, ops: seq<Op>, n: nat, i: nat, j: nat)
    requires n > 0
  {
    j < |ops| && Grows(ops[j]) && Run(mlen, ops[..j], n, i).full && NoReset(ops, j, i)
  }

  /** Samples kept by operation j and set since. */
  function Refilled(mlen: nat, ops: seq<Op>, n: nat, i: nat, j: nat): nat
    requires n > 0 && j < |ops|
  {
    mlen + Added(ops[..j]) + PutsFrom(ops, j, n, i)
  }

  ghost predicate Overcounts(mlen: nat, ops: seq<Op>, n: nat, i: nat)
    requires n > 0
  {
    exists j :: Outgrown(mlen, ops, n, i, j) && Refilled(mlen, ops, n, i, j) < mlen + Added(ops)
  }

  /** How lengthenings of a wrapped history bound what it holds. */
  ghost predicate Explained(mlen: nat, ops: seq<Op>, n: nat, i: nat)
    requires n > 0
  {
    var r := Run(mlen, ops, n, i);
    && (forall j :: Outgrown(mlen, ops, n, i, j) ==> |r.hist| <= Refilled(mlen, ops, n, i, j) && (r.stale || r.full))
    && (r.stale ==> exists j :: Outgrown(mlen, ops, n, i, j) && |r.hist| == Refilled(mlen, ops, n, i, j) < r.mlen)
  }

  lemma OutgrownStep(mlen: nat, ops: seq<Op>, n: nat, i: nat, j: nat)
    requires n > 0 && ops != [] && j < |ops| - 1
    ensures var before, op := ops[..|ops| - 1], ops[|ops| - 1];
            && (Outgrown(mlen, ops, n, i, j) <==> Outgrown(mlen, before, n, i, j) && !Resets(op, i))
            && Refilled(mlen, ops, n, i, j) == Refilled(mlen, before, n, i, j) + if Puts(op, n, i) then 1 else 0
  {
    var before := ops[..|ops| - 1];
    assert before[..j] == ops[..j];
    if Outgrown(mlen, before, n, i, j) && !Resets(ops[|ops| - 1], i) {
      forall k | j <= k < |ops| ensures !Resets(ops[k], i) {
        if k < |before| { assert before[k] == ops[k]; }
      }
    }
  }

  lemma {:induction false} RunExplained(mlen: nat, ops: seq<Op>, n: nat, i: nat)
    requires n > 0 && mlen > 0
    ensures Explained(mlen, ops, n, i)
    decreases |ops|
  {
    if ops != [] {
      var k := |ops| - 1;
      var before, op := ops[..k], ops[k];
      var q, r := Run(mlen, before, n, i), Run(mlen, ops, n, i);
      RunExplained(mlen, before, n, i);
      RunOk(mlen, before, n, i);
      RunOk(mlen, ops, n, i);
      hide Run, Outgrown, Refilled, RingOk;
      forall j: nat | Outgrown(mlen, ops, n, i, j)
        ensures |r.hist| <= Refilled(mlen, ops, n, i, j) && (r.stale || r.full)
      {
        if j < k {
          OutgrownStep(mlen, ops, n, i, j);
        } else {
          LastOutgrown(mlen, ops, n, i, j);
        }
      }
      if r.stale {
        if q.stale {
          var j :| Outgrown(mlen, before, n, i, j) && |q.hist| == Refilled(mlen, before, n, i, j) < q.mlen;
          OutgrownStep(mlen, ops, n, i, j);
        } else {
          LastOutgrown(mlen, ops, n, i, k);
        }
      }
    }
  }

  lemma LastOutgrown(mlen: nat, ops: seq<Op>, n: nat, i: nat, j: nat)
    requires n > 0 && mlen > 0 && ops != []
    ensures var k := |ops| - 1; var q := Run(mlen, ops[..k], n, i);
            && (Outgrown(mlen, ops, n, i, j) && j >= k <==> j == k && Grows(ops[k]) && q.full)
            && (Grows(ops[k]) ==> Refilled(mlen, ops, n, i, k) == q.mlen)
  {
    var before := ops[..|ops| - 1];
    RunOk(mlen, before, n, i);
    assert PutsFrom(before, |before|, n, i) == 0;
  }

  /** The reported number of samples is right, except after a history that had wrapped was lengthened and
      until the samples kept then and set since fill it up. */
  lemma NumSampsRightIff(mlen: nat, ops: seq<Op>, n: nat, i: nat)
    requires n > 0 && mlen > 0
    ensures var r := Run(mlen, ops, n, i);
            NumSamps(r) == Min(|r.hist|, r.mlen) <==> !Overcounts(mlen, ops, n, i)
    ensures Overcounts(mlen, ops, n, i) ==>
              var r := Run(mlen, ops, n, i); NumSamps(r) == Min(|r.hist|, r.mlen) + 1
  {
    RunExplained(mlen, ops, n, i);
    RunOk(mlen, ops, n, i);
    hide Run, Outgrown, Refilled;
  }

  /** Every sample among the last ones since the reset, as many as the shortest history had cells, is read
      at its offset. */
  lemma ReadsLatest(mlen: nat, ops: seq<Op>, n: nat, i: nat, k: nat)
    requires n > 0 && mlen > 0 && k < Min(|Since(ops, n, i)|, mlen)
    ensures var r, all := Run(mlen, ops, n, i), Since(ops, n, i);
            k < Min(|r.hist|, r.mlen) && r.hist[|r.hist| - 1 - k] == all[|all| - 1 - k]
  {
    RunOk(mlen, ops, n, i);
    RunKeeps(mlen, ops, n, i);
  }

  // ---------- the same for the histories themselves ----------

  predicate Fits(op: Op, vlen: nat) {
    op.Put? && op.value.Some? ==> |op.value.value| == vlen
  }

  function Play(rings: seq<Ring>, op: Op): seq<Ring>
    requires rings != []
  {
    seq(|rings|, i requires 0 <= i < |rings| => Step(rings[i], op, |rings|, i))
  }

  lemma PlayCases(rings: seq<Ring>, op: Op, mlen: nat)
    requires rings != [] && forall i :: 0 <= i < |rings| ==> rings[i].mlen == mlen
    ensures op.Put? && op.value.None? ==> Play(rings, op) == rings
    ensures op.Put? && op.value.Some? ==>
              var k := Wrap(op.idx, |rings|);
              Play(rings, op) == rings[k := Appended(rings[k], Sample(op.value.value, op.time))]
    ensures op.Reset? ==>
              Play(rings, op) == if op.idx < |rings| then rings[op.idx := Cleared(rings[op.idx])] else rings
    ensures op.Lengthen? && op.extra == 0 ==> Play(rings, op) == rings
    ensures op.Lengthen? && op.extra > 0 ==>
              Play(rings, op) == seq(|rings|, i requires 0 <= i < |rings| => Lengthened(rings[i], mlen + op.extra))
  {
    hide Appended, Cleared, Lengthened;
  }

  method Apply(v: Value, op: Op)
    requires v.Valid() && v.inst != [] && Fits(op, v.vlen)
    modifies v, v.Footprint()
    ensures v.Valid() && v.vlen == old(v.vlen) && v.inst == old(v.inst)
    ensures forall o :: o in v.Footprint() ==> o in old(v.Footprint()) || fresh(o)
    ensures v.Rings() == Play(old(v.Rings()), op)
  {
    hide Value.Valid, Value.Rings, Value.Footprint, Play;
    match op {
      case Put(idx, value, time) => Store(v, idx, value, time);
      case Reset(idx, time) => Clear(v, idx, time);
      case Lengthen(extra) => Extend(v, extra);
    }
  }

  method Store(v: Value, idx: nat, value: Option<Vec>, time: Time)
    requires v.Valid() && v.inst != [] && (value.Some? ==> |value.value| == v.vlen)
    modifies v, v.Footprint()
    ensures v.Valid() && v.vlen == old(v.vlen) && v.inst == old(v.inst)
    ensures v.Footprint() == old(v.Footprint()) && v.Rings() == Play(old(v.Rings()), Put(idx, value, time))
  {
    hide *;
    Prepared(v, Put(idx, value, time));
    AtIs(v, idx);
    var _ := v.SetNext(idx, value, time);
  }

  method Clear(v: Value, idx: nat, time: Time)
    requires v.Valid() && v.inst != []
    modifies v, v.Footprint()
    ensures v.Valid() && v.vlen == old(v.vlen) && v.inst == old(v.inst)
    ensures v.Footprint() == old(v.Footprint()) && v.Rings() == Play(old(v.Rings()), Reset(idx, time))
  {
    hide *;
    Prepared(v, Reset(idx, time));
    v.ResetInst(idx, time);
  }

  method Extend(v: Value, extra: nat)
    requires v.Valid() && v.inst != []
    modifies v, v.Footprint()
    ensures v.Valid() && v.vlen == old(v.vlen) && v.inst == old(v.inst)
    ensures forall o :: o in v.Footprint() ==> o in old(v.Footprint()) || fresh(o)
    ensures v.Rings() == Play(old(v.Rings()), Lengthen(extra))
  {
    hide *;
    Prepared(v, Lengthen(extra));
    if extra > 0 {
      v.GrowHistory(v.mlen + extra);
    }
  }

  lemma Prepared(v: Value, op: Op)
    requires v.Valid() && v.inst != []
    ensures forall i :: 0 <= i < |v.inst| ==>
              v.inst[i] in v.Footprint() && v.inst[i].Repr() <= v.Footprint() && v !in v.inst[i].Repr()
    ensures var rings, mlen := v.Rings(), v.mlen;
            && (op.Put? && op.value.None? ==> Play(rings, op) == rings)
            && (op.Put? && op.value.Some? ==>
                  var k := Wrap(op.idx, |rings|);
                  Play(rings, op) == rings[k := Appended(rings[k], Sample(op.value.value, op.time))])
            && (op.Reset? ==>
                  Play(rings, op) == if op.idx < |rings| then rings[op.idx := Cleared(rings[op.idx])] else rings)
            && (op.Lengthen? && op.extra == 0 ==> Play(rings, op) == rings)
            && (op.Lengthen? && op.extra > 0 ==>
                  Play(rings, op) == seq(|rings|, i requires 0 <= i < |rings| => Lengthened(rings[i], mlen + op.extra)))
  {
    hide *;
    forall i | 0 <= i < |v.inst| ensures v.Rings()[i].mlen == v.mlen {
      MlenIs(v, i);
    }
    PlayCases(v.Rings(), op, v.mlen);
    InFootprint(v);
  }

  lemma InFootprint(v: Value)
    requires v.Valid()
    ensures forall i :: 0 <= i < |v.inst| ==>
              v.inst[i] in v.Footprint() && v.inst[i].Repr() <= v.Footprint() && v !in v.inst[i].Repr()
  {
    forall i | 0 <= i < |v.inst| ensures v.inst[i] in v.Footprint() && v.inst[i].Repr() <= v.Footprint() {
      assert v.inst[i] in v.inst && v.inst[i] in v.inst[i].Repr();
    }
  }

  function Runs(mlen: nat, ops: seq<Op>, n: nat): seq<Ring>
    requires n > 0
  {
    seq(n, i requires 0 <= i < n => Run(mlen, ops, n, i))
  }

  lemma RunsStep(mlen: nat, ops: seq<Op>, k: nat, n: nat)
    requires n > 0 && k < |ops|
    ensures Runs(mlen, ops[..k + 1], n) == Play(Runs(mlen, ops[..k], n), ops[k])
  {
    assert ops[..k + 1][..k] == ops[..k];
  }

  method Replay(v: Value, ops: seq<Op>)
    requires v.Valid() && v.inst != [] && (forall op :: op in ops ==> Fits(op, v.vlen))
    requires v.Rings() == Blank(|v.inst|, v.mlen)
    modifies v, v.Footprint()
    ensures v.Valid() && v.vlen == old(v.vlen) && v.inst == old(v.inst)
    ensures v.Rings() == Runs(old(v.mlen), ops, |v.inst|)
  {
    ghost var mlen, n := v.mlen, |v.inst|;
    assert Runs(mlen, ops[..0], n) == Blank(n, mlen);
    hide Play, Runs, Value.Valid, Value.Footprint, Value.Rings;
    for k := 0 to |ops|
      invariant v.Valid() && v.vlen == old(v.vlen) && v.inst == old(v.inst)
      invariant forall o :: o in v.Footprint() ==> o in old(v.Footprint()) || fresh(o)
      invariant v.Rings() == Runs(mlen, ops[..k], n)
    {
      RunsStep(mlen, ops, k, n);
      Apply(v, ops[k]);
    }
    assert ops[..|ops|] == ops;
  }

  /** Instances, of the first k, that hold a sample according to the operations. */
  function InUse(ops: seq<Op>, n: nat, k: nat): (s: set<nat>)
    requires n > 0
  {
    set i | 0 <= i < k && Since(ops, n, i) != []
  }

  lemma {:induction false} UsedAreInUse(mlen: nat, ops: seq<Op>, n: nat, k: nat)
    requires k <= n && n > 0 && mlen > 0
    ensures CountUsed(Runs(mlen, ops, n)[..k]) == |InUse(ops, n, k)|
  {
    hide *;
    InUseStep(ops, n, k);
    if k == 0 {
      CountUsedNone(Runs(mlen, ops, n));
    } else {
      UsedAreInUse(mlen, ops, n, k - 1);
      RunKeeps(mlen, ops, n, k - 1);
      RunsAt(mlen, ops, n, k - 1);
      CountUsedStep(Runs(mlen, ops, n), k);
    }
  }

  lemma InUseStep(ops: seq<Op>, n: nat, k: nat)
    requires n > 0
    ensures |InUse(ops, n, k)| ==
            if k == 0 then 0 else |InUse(ops, n, k - 1)| + if Since(ops, n, k - 1) != [] then 1 else 0
  {
    hide Since;
    if k == 0 {
      assert InUse(ops, n, 0) == {};
    } else {
      assert InUse(ops, n, k) == InUse(ops, n, k - 1) + if Since(ops, n, k - 1) != [] then {k - 1} else {};
    }
  }

  lemma CountUsedNone(rings: seq<Ring>)
    ensures CountUsed(rings[..0]) == 0
  {
  }

  lemma CountUsedStep(rings: seq<Ring>, k: nat)
    requires 0 < k <= |rings|
    ensures CountUsed(rings[..k]) == CountUsed(rings[..k - 1]) + if rings[k - 1].hist != [] then 1 else 0
  {
    assert rings[..k][..k - 1] == rings[..k - 1];
  }

  /** What can be read of one instance. */
  method Read(v: Value, idx: nat, k: nat) returns (value: Option<Vec>, time: Time, num: nat)
    requires v.Valid() && v.inst != []
    ensures var r := v.Rings()[Wrap(idx, |v.inst|)];
            && (value.None? <==> r.hist == []) && num == NumSamps(r)
            && (k < Min(|r.hist|, v.mlen) ==>
                  value == Some(r.hist[|r.hist| - 1 - k].value) && time == r.hist[|r.hist| - 1 - k].time)
  {
    hide *;
    MlenIs(v, Wrap(idx, |v.inst|));
    AtIs(v, idx);
    var back: int := k;
    value := v.GetValue(idx, -back);
    time := v.GetTime(idx, -back);
    num := v.GetNumSamps(idx);
  }

  /** The promise of the histories, end to end: after any operations, offset -k reads the k-th most recent of
      the samples set since the reset, for all samples the shortest history had room for; the number of
      samples is right unless a wrapped history was outgrown; and the instances in use are counted. */
  method Session(vlen: nat, mlen: nat, n: nat, ops: seq<Op>, idx: nat, k: nat)
    returns (value: Option<Vec>, time: Time, num: nat, active: nat)
    requires 0 < vlen < 128 && mlen > 0 && n > 0 && forall op :: op in ops ==> Fits(op, vlen)
    ensures var all := Since(ops, n, Wrap(idx, n));
            && (value.None? <==> all == [])
            && (k < Min(|all|, mlen) ==> value == Some(all[|all| - 1 - k].value) && time == all[|all| - 1 - k].time)
    ensures var r := Run(mlen, ops, n, Wrap(idx, n));
            num == Min(|r.hist|, r.mlen) <==> !Overcounts(mlen, ops, n, Wrap(idx, n))
    ensures (forall op :: op in ops ==> !Grows(op)) ==> num == Min(|Since(ops, n, Wrap(idx, n))|, mlen)
    ensures active == |InUse(ops, n, n)|
  {
    hide *;
    var v := new Value(vlen, mlen, n);
    BlankSize(n, mlen);
    Replay(v, ops);
    RunsAt(mlen, ops, n, Wrap(idx, n));
    MlenIs(v, Wrap(idx, n));
    v.ActiveAreUsed();
    UsedAreInUse(mlen, ops, n, n);
    assert v.Rings()[..n] == v.Rings();
    active := v.numActive;
    value, time, num := Read(v, idx, k);
    RunReads(mlen, ops, n, Wrap(idx, n), k);
  }

  lemma BlankSize(n: nat, mlen: nat)
    ensures |Blank(n, mlen)| == n
  {
  }

  lemma RunsAt(mlen: nat, ops: seq<Op>, n: nat, i: nat)
    requires i < n
    ensures |Runs(mlen, ops, n)| == n && Runs(mlen, ops, n)[i] == Run(mlen, ops, n, i)
  {
  }

  /** What a run leaves to be read of one instance. */
  lemma RunReads(mlen: nat, ops: seq<Op>, n: nat, i: nat, k: nat)
    requires n > 0 && mlen > 0
    ensures var r, all := Run(mlen, ops, n, i), Since(ops, n, i);
            && (r.hist == [] <==> all == [])
            && (k < Min(|all|, mlen) ==>
                  k < Min(|r.hist|, r.mlen) && r.hist[|r.hist| - 1 - k] == all[|all| - 1 - k])
            && (NumSamps(r) == Min(|r.hist|, r.mlen) <==> !Overcounts(mlen, ops, n, i))
            && ((forall op :: op in ops ==> !Grows(op)) ==> NumSamps(r) == Min(|all|, mlen))
  {
    hide Since, Run, Overcounts, SuffixOf, RingOk, Grows;
    RunKeeps(mlen, ops, n, i);
    NumSampsRightIff(mlen, ops, n, i);
    if k < Min(|Since(ops, n, i)|, mlen) { ReadsLatest(mlen, ops, n, i, k); }
    if forall op :: op in ops ==> !Grows(op) { RunExact(mlen, ops, n, i); }
  }

  lemma AtIs(v: Value, idx: nat)
    requires v.inst != []
    ensures v.At(idx) == v.inst[Wrap(idx, |v.inst|)] && v.At(idx).Contents() == v.Rings()[Wrap(idx, |v.inst|)]
    ensures v.At(idx).Contents().hist == v.At(idx).hist
  {
  }

  lemma MlenIs(v: Value, i: nat)
    requires v.Valid() && i < |v.inst|
    ensures v.Rings()[i].mlen == v.mlen
  {
  }
}
