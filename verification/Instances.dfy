/**
 The instances of a local signal: an array sorted by id, in which each instance also carries the index of
 its value buffer.  Ids are small enough for the comparison to be the usual order.
 */
module Instances {
  import opened Wrappers

  const MAX_INST: nat := 128

  datatype Inst = Inst(id: nat, idx: nat)

  predicate SortedById(s: seq<Inst>) {
    forall i, j :: 0 <= i < j < |s| ==> s[i].id < s[j].id
  }

  function Ids(s: seq<Inst>): set<nat> {
    set i | 0 <= i < |s| :: s[i].id
  }

  /** The buffer indices are 0 to n - 1 in some order. */
  ghost predicate Numbered(s: seq<Inst>) {
    && (forall i :: 0 <= i < |s| ==> s[i].idx < |s|)
    && (forall i, j :: 0 <= i < j < |s| ==> s[i].idx != s[j].idx)
  }

  // ---------- counting ----------

  lemma {:induction false} SmallSet(s: set<nat>, n: nat)
    requires forall x :: x in s ==> x < n
    ensures |s| <= n
  {
    if n == 0 {
      assert s == {};
    } else {
      SmallSet(s - {n - 1}, n - 1);
      assert |s| <= |s - {n - 1}| + 1;
    }
  }

  lemma {:induction false} CoveringSet(s: set<nat>, k: nat)
    requires forall x: nat :: x < k ==> x in s
    ensures |s| >= k
  {
    if k > 0 {
      CoveringSet(s - {k - 1}, k - 1);
      assert |s| == |s - {k - 1}| + 1;
    }
  }

  function Indices(s: seq<Inst>): set<nat> {
    set i | 0 <= i < |s| :: s[i].idx
  }

  lemma {:induction false} IndexCount(s: seq<Inst>)
    requires forall i, j :: 0 <= i < j < |s| ==> s[i].idx != s[j].idx
    ensures |Indices(s)| == |s|
  {
    if s != [] {
      IndexCount(s[..|s| - 1]);
      assert Indices(s) == Indices(s[..|s| - 1]) + {s[|s| - 1].idx};
      assert s[|s| - 1].idx !in Indices(s[..|s| - 1]);
    }
  }

  /** Pigeonhole: n different indices below n leave none out. */
  lemma EveryIndexUsed(s: seq<Inst>, k: nat)
    requires Numbered(s) && k < |s|
    ensures k in Indices(s)
  {
    IndexCount(s);
    if k !in Indices(s) {
      SmallSet(Indices(s) + {k}, |s|);
    }
  }

  lemma {:induction false} IdCount(s: seq<Inst>)
    ensures |Ids(s)| <= |s|
  {
    if s != [] {
      IdCount(s[..|s| - 1]);
      assert Ids(s) == Ids(s[..|s| - 1]) + {s[|s| - 1].id};
    }
  }

  /** When all of 0 .. k - 1 are ids, there are at least k instances. */
  lemma UsedBelow(s: seq<Inst>, k: nat)
    requires forall x: nat :: x < k ==> x in Ids(s)
    ensures k <= |s|
  {
    CoveringSet(Ids(s), k);
    IdCount(s);
  }

  // ---------- the sorted array ----------

  /** Position of the first instance whose id is larger. */
  function Slot(s: seq<Inst>, id: nat): (k: nat)
    ensures k <= |s| && (k < |s| ==> s[k].id > id)
    ensures forall i :: 0 <= i < k ==> s[i].id <= id
  {
    if s == [] || s[0].id > id then 0 else 1 + Slot(s[1..], id)
  }

  /** What sorting makes of a sorted array with one instance appended. */
  function Insert(s: seq<Inst>, x: Inst): seq<Inst> {
    s[..Slot(s, x.id)] + [x] + s[Slot(s, x.id)..]
  }

  lemma InsertAt(s: seq<Inst>, x: Inst)
    ensures |Insert(s, x)| == |s| + 1 && Insert(s, x)[Slot(s, x.id)] == x
    ensures forall i :: 0 <= i < Slot(s, x.id) ==> Insert(s, x)[i] == s[i]
    ensures forall i :: Slot(s, x.id) < i <= |s| ==> Insert(s, x)[i] == s[i - 1]
  {
  }

  lemma InsertKeepsOrder(s: seq<Inst>, x: Inst)
    requires SortedById(s) && x.id !in Ids(s)
    ensures SortedById(Insert(s, x))
  {
    InsertAt(s, x);
    hide Insert;
    assert forall i :: 0 <= i < |s| ==> s[i].id in Ids(s);
  }

  lemma InsertKeepsNumbers(s: seq<Inst>, id: nat)
    requires Numbered(s)
    ensures Numbered(Insert(s, Inst(id, |s|)))
  {
    InsertAt(s, Inst(id, |s|));
    hide Insert;
  }

  lemma InsertAddsId(s: seq<Inst>, x: Inst)
    ensures Ids(Insert(s, x)) == Ids(s) + {x.id}
    ensures forall y :: y in s ==> y in Insert(s, x)
  {
    InsertAt(s, x);
    hide Insert;
    var r, k := Insert(s, x), Slot(s, x.id);
    forall i | 0 <= i < |s| ensures s[i] in r && s[i].id in Ids(r) {
      assert r[if i < k then i else i + 1] == s[i];
    }
    forall i | 0 <= i < |r| ensures r[i].id in Ids(s) + {x.id} {
      if i != k { assert s[if i < k then i else i - 1].id in Ids(s); }
    }
    assert r[k].id in Ids(r);
  }

  // ---------- reservation ----------

  /** The least id not in use, looked for from k on. */
  function LeastUnused(s: seq<Inst>, k: nat := 0): (id: nat)
    requires forall x: nat :: x < k ==> x in Ids(s)
    ensures id >= k && id !in Ids(s) && forall x: nat :: x < id ==> x in Ids(s)
    decreases |s| - k
  {
    if k in Ids(s) then
      UsedBelow(s, k + 1);
      LeastUnused(s, k + 1)
    else k
  }

  /** Reserve the given id or the least unused one, unless the signal is full or the id is taken. */
  function Reserved(s: seq<Inst>, id: Option<nat>): seq<Inst> {
    if |s| >= MAX_INST || (id.Some? && id.value in Ids(s)) then s
    else Insert(s, Inst(if id.Some? then id.value else LeastUnused(s), |s|))
  }

  function ReservedAll(s: seq<Inst>, ids: seq<Option<nat>>): seq<Inst> {
    if ids == [] then s else Reserved(ReservedAll(s, ids[..|ids| - 1]), ids[|ids| - 1])
  }

  ghost predicate WellFormed(s: seq<Inst>) {
    |s| <= MAX_INST && SortedById(s) && Numbered(s)
  }

  lemma ReservedKeeps(s: seq<Inst>, id: Option<nat>)
    requires WellFormed(s)
    ensures WellFormed(Reserved(s, id)) && Ids(s) <= Ids(Reserved(s, id))
    ensures |Reserved(s, id)| == |s| + if |s| >= MAX_INST || (id.Some? && id.value in Ids(s)) then 0 else 1
    ensures id.Some? && |s| < MAX_INST ==> Ids(Reserved(s, id)) == Ids(s) + {id.value}
    ensures id.None? && |s| < MAX_INST ==> Ids(Reserved(s, id)) == Ids(s) + {LeastUnused(s)}
  {
    hide SortedById, Numbered, Insert, Ids;
    if |s| < MAX_INST && !(id.Some? && id.value in Ids(s)) {
      var x := Inst(if id.Some? then id.value else LeastUnused(s), |s|);
      InsertKeepsOrder(s, x);
      InsertKeepsNumbers(s, x.id);
      InsertAddsId(s, x);
      InsertAt(s, x);
    }
  }

  lemma ReservedNone(s: seq<Inst>)
    ensures ReservedAll(s, []) == s
  {
  }

  lemma ReservedMore(s: seq<Inst>, ids: seq<Option<nat>>, id: Option<nat>)
    ensures ReservedAll(s, ids + [id]) == Reserved(ReservedAll(s, ids), id)
  {
    assert (ids + [id])[..|ids|] == ids;
  }

  lemma SpareKeeps(s: seq<Inst>, id: nat)
    requires WellFormed(s) && |s| == 1
    ensures WellFormed([s[0].(id := id)]) && s[0].idx == 0
  {
  }

  /** The given ids are all in use afterwards, while there is room. */
  lemma {:induction false} ReservedAllGiven(s: seq<Inst>, ids: seq<Option<nat>>)
    requires WellFormed(s) && |s| + |ids| <= MAX_INST && forall i :: 0 <= i < |ids| ==> ids[i].Some?
    ensures WellFormed(ReservedAll(s, ids)) && |ReservedAll(s, ids)| <= |s| + |ids|
    ensures Ids(ReservedAll(s, ids)) == Ids(s) + set i | 0 <= i < |ids| :: ids[i].value
    decreases |ids|
  {
    hide WellFormed, Ids, Reserved;
    if ids != [] {
      var k := |ids| - 1;
      ReservedAllGiven(s, ids[..k]);
      ReservedKeeps(ReservedAll(s, ids[..k]), ids[k]);
      assert forall i :: 0 <= i < k ==> ids[..k][i] == ids[i];
    }
  }

  /** Without ids, n reservations use up the n least ids that were free. */
  lemma {:induction false} ReservedAllLeast(s: seq<Inst>, ids: seq<Option<nat>>)
    requires WellFormed(s) && |s| + |ids| <= MAX_INST && forall i :: 0 <= i < |ids| ==> ids[i].None?
    ensures WellFormed(ReservedAll(s, ids)) && |ReservedAll(s, ids)| == |s| + |ids|
    ensures Ids(s) <= Ids(ReservedAll(s, ids))
    ensures forall x, y: nat :: x in Ids(ReservedAll(s, ids)) && x !in Ids(s) && y < x ==> y in Ids(ReservedAll(s, ids))
    decreases |ids|
  {
    hide WellFormed, Ids, Reserved;
    if ids != [] {
      var k := |ids| - 1;
      ReservedAllLeast(s, ids[..k]);
      var prev := ReservedAll(s, ids[..k]);
      ReservedKeeps(prev, ids[k]);
      forall x, y: nat | x in Ids(Reserved(prev, ids[k])) && x !in Ids(s) && y < x ensures y in Ids(prev) {
        if x !in Ids(prev) { assert x == LeastUnused(prev); }
      }
    }
  }

  // ---------- removal ----------

  /** The instances left when the one at position i goes: later ones move down, and larger buffer indices
      are lowered by one. */
  function Lowered(x: Inst, idx: nat): Inst {
    if x.idx > idx then x.(idx := x.idx - 1) else x
  }

  function Renumber(s: seq<Inst>, idx: nat): seq<Inst> {
    seq(|s|, i requires 0 <= i < |s| => Lowered(s[i], idx))
  }

  function Removed(s: seq<Inst>, i: nat): seq<Inst>
    requires i < |s|
  {
    Renumber(s[..i] + s[i + 1..], s[i].idx)
  }

  lemma RemovedAt(s: seq<Inst>, i: nat)
    requires i < |s|
    ensures |Removed(s, i)| == |s| - 1
    ensures forall j :: 0 <= j < i ==> Removed(s, i)[j] == Lowered(s[j], s[i].idx)
    ensures forall j :: i < j < |s| ==> Removed(s, i)[j - 1] == Lowered(s[j], s[i].idx)
  {
  }

  lemma RemovedKeepsOrder(s: seq<Inst>, i: nat)
    requires SortedById(s) && i < |s|
    ensures SortedById(Removed(s, i))
  {
    var r := Removed(s, i);
    RemovedAt(s, i);
    hide Removed;
    forall j, k | 0 <= j < k < |r| ensures r[j].id < r[k].id {
      var j', k' := if j < i then j else j + 1, if k < i then k else k + 1;
      assert r[j].id == s[j'].id && r[k].id == s[k'].id;
    }
  }

  lemma RemovedKeepsNumbers(s: seq<Inst>, i: nat)
    requires Numbered(s) && i < |s|
    ensures Numbered(Removed(s, i))
  {
    hide Removed;
    RemovedAt(s, i);
    var r := Removed(s, i);
    forall j | 0 <= j < |r| ensures r[j].idx < |r| {
      LoweredInRange(s, i, if j < i then j else j + 1);
    }
    forall j, k | 0 <= j < k < |r| ensures r[j].idx != r[k].idx {
      LoweredDiffer(s, i, if j < i then j else j + 1, if k < i then k else k + 1);
    }
  }

  lemma LoweredDiffer(s: seq<Inst>, i: nat, j: nat, k: nat)
    requires Numbered(s) && i < |s| && j < |s| && k < |s| && i != j && j != k && k != i
    ensures Lowered(s[j], s[i].idx).idx != Lowered(s[k], s[i].idx).idx
  {
    assert s[j].idx != s[k].idx && s[j].idx != s[i].idx && s[k].idx != s[i].idx;
  }

  lemma RemovedIds(s: seq<Inst>, i: nat)
    requires SortedById(s) && i < |s|
    ensures Ids(Removed(s, i)) == Ids(s) - {s[i].id}
  {
    var r := Removed(s, i);
    RemovedAt(s, i);
    hide Removed;
    forall j | 0 <= j < |r| ensures r[j].id in Ids(s) - {s[i].id} {
      assert s[if j < i then j else j + 1].id in Ids(s);
    }
    forall j | 0 <= j < |s| && j != i ensures s[j].id in Ids(r) {
      assert r[if j < i then j else j - 1].id in Ids(r);
    }
  }

  function Drop(values: seq<nat>, b: nat): seq<nat>
    requires b < |values|
  {
    values[..b] + values[b + 1..]
  }

  lemma LoweredInRange(s: seq<Inst>, i: nat, k: nat)
    requires Numbered(s) && i < |s| && k < |s| && k != i
    ensures Lowered(s[k], s[i].idx).idx < |s| - 1
  {
    assert s[k].idx != s[i].idx;
  }

  /** Instance k still reads its own buffer once instance i and the buffer at position i are gone. */
  predicate Follows(s: seq<Inst>, i: nat, k: nat, values: seq<nat>)
    requires Numbered(s) && i < |s| && k < |s| && k != i && |values| == |s|
  {
    LoweredInRange(s, i, k);
    Drop(values, i)[Lowered(s[k], s[i].idx).idx] == values[s[k].idx]
  }

  /** Dropping the buffer at the array position of the removed instance, as the code does, is right for
      all values exactly when that position is also the instance's buffer index. */
  lemma ValuesFollowIff(s: seq<Inst>, i: nat)
    requires Numbered(s) && i < |s|
    ensures s[i].idx == i <==>
            forall k, values: seq<nat> :: 0 <= k < |s| && k != i && |values| == |s| ==> Follows(s, i, k, values)
  {
    if s[i].idx != i {
      EveryIndexUsed(s, i);
      var k :| 0 <= k < |s| && s[k].idx == i;
      var values := seq(|s|, n => n);
      assert !Follows(s, i, k, values);
    } else {
      forall k, values: seq<nat> | 0 <= k < |s| && k != i && |values| == |s| ensures Follows(s, i, k, values) {
        LoweredInRange(s, i, k);
        assert s[k].idx != s[i].idx;
      }
    }
  }

  // ---------- the signal, updated in place ----------

  function Asked(num: nat, ids: Option<seq<nat>>): (r: seq<Option<nat>>)
    requires ids.Some? ==> |ids.value| == num
    ensures |r| == num && forall i :: 0 <= i < num ==> r[i] == if ids.Some? then Some(ids.value[i]) else None
  {
    seq(num, i requires 0 <= i < num => if ids.Some? then Some(ids.value[i]) else None)
  }

  class LocalSignal {
    var inst: seq<Inst>
    var useInst: bool

    ghost predicate Valid()
      reads this
    {
      WellFormed(inst)
    }

    /** A new signal has the given number of instances, or one default instance that is not used by id. */
    constructor (num: Option<nat>)
      ensures Valid()
      ensures num.None? ==> !useInst && inst == [Inst(0, 0)]
      ensures num.Some? ==> inst == ReservedAll([], Asked(num.value, None)) && (useInst <==> num.value > 0)
    {
      inst, useInst := [], false;
      new;
      if num.Some? {
        var asked := Asked(num.value, None);
        assert asked[0..] == asked && (num.value == 0 ==> asked == []);
        var _ := ReserveInst(num.value, None, false);
      } else {
        var _ := ReserveInst(1, None, false);
        var asked := Asked(1, None);
        assert asked[0..] == [None] && asked[0..][..0] == asked[..0];
        useInst := false;
      }
    }

    /** Binary search; a signal without instances by id has one default instance that matches any id. */
    method FindInstById(id: nat) returns (r: Option<nat>)
      requires Valid()
      ensures r.Some? ==> r.value < |inst| && (useInst ==> inst[r.value].id == id) && (!useInst ==> r.value == 0)
      ensures r.None? <==> inst == [] || (useInst && id !in Ids(inst))
    {
      if inst == [] {
        return None;
      }
      if !useInst {
        return Some(0);
      }
      var lo, hi := 0, |inst|;
      while lo < hi
        invariant 0 <= lo <= hi <= |inst|
        invariant forall i :: 0 <= i < lo ==> inst[i].id < id
        invariant forall i :: hi <= i < |inst| ==> inst[i].id > id
      {
        var mid := (lo + hi) / 2;
        if inst[mid].id == id {
          assert inst[mid].id in Ids(inst);
          return Some(mid);
        }
        if inst[mid].id < id { lo := mid + 1; } else { hi := mid; }
      }
      r := None;
    }

    /** The smallest id no instance has; the search ends because the instances cannot use up more ids
        than there are instances. */
    method LowestUnusedId() returns (id: nat)
      requires Valid()
      ensures id !in Ids(inst) && forall x: nat :: x < id ==> x in Ids(inst)
      ensures id <= |inst|
    {
      id := 0;
      var cont := true;
      while cont
        invariant forall x: nat :: x < id ==> x in Ids(inst)
        invariant !cont ==> id !in Ids(inst)
        decreases |inst| - id, cont
      {
        UsedBelow(inst, id);
        cont := false;
        for i := 0 to |inst|
          invariant !cont && forall j :: 0 <= j < i ==> inst[j].id != id
        {
          if inst[i].id == id {
            assert inst[i].id in Ids(inst);
            cont := true;
            break;
          }
        }
        if cont {
          UsedBelow(inst, id + 1);
          id := id + 1;
        }
      }
      UsedBelow(inst, id);
    }

    /** Add an instance with the given id, or the smallest unused one; -1 if the signal is full or the id
        is taken. */
    method ReserveOne(id: Option<nat>) returns (r: int)
      requires Valid() && useInst
      modifies this`inst
      ensures Valid()
      ensures r == -1 <==> |old(inst)| >= MAX_INST || (id.Some? && id.value in Ids(old(inst)))
      ensures r != -1 ==> r == |old(inst)|
      ensures inst == Reserved(old(inst), id)
    {
      hide Insert, SortedById, Numbered;
      if |inst| >= MAX_INST {
        return -1;
      }
      var new_id: nat;
      if id.Some? {
        var found := FindInstById(id.value);
        if found.Some? {
          return -1;
        }
        new_id := id.value;
      } else {
        new_id := LowestUnusedId();
      }
      hide Ids;
      ghost var was := inst;
      ReservedKeeps(inst, id);
      assert id.None? ==> new_id == LeastUnused(was);
      inst := inst + [Inst(new_id, |inst|)];
      assert inst[..|inst| - 1] == was;
      SortLast();
      r := |inst| - 1;
    }

    /** Sort an array of which only the last instance may be out of place. */
    method SortLast()
      requires inst != []
      modifies this`inst
      ensures inst == Insert(old(inst)[..|old(inst)| - 1], old(inst)[|old(inst)| - 1])
    {
      var last := inst[|inst| - 1];
      var rest := inst[..|inst| - 1];
      var k := 0;
      while k < |rest| && rest[k].id <= last.id
        invariant 0 <= k <= |rest| && Slot(rest, last.id) == k + Slot(rest[k..], last.id)
      {
        assert rest[k..][1..] == rest[k + 1..];
        k := k + 1;
      }
      inst := rest[..k] + [last] + rest[k..];
    }

    /** There is just the default instance, and it is not in use. */
    predicate IsSpare(defaultHasData: bool)
      reads this
    {
      !useInst && |inst| == 1 && inst[0].id == 0 && !defaultHasData
    }

    /** Reserve several instances; an unused default instance takes the first id. */
    method ReserveInst(num: nat, ids: Option<seq<nat>>, defaultHasData: bool) returns (count: nat)
      requires Valid() && (ids.Some? ==> |ids.value| == num)
      modifies this
      ensures Valid() && useInst == old(useInst || num > 0)
      ensures num == 0 ==> count == 0 && inst == old(inst)
      ensures num > 0 ==>
                var skip := if old(!useInst && |inst| == 1 && inst[0].id == 0) && !defaultHasData then 1 else 0;
                var first := if skip == 1 && ids.Some? then [Inst(ids.value[0], 0)] else old(inst);
                inst == ReservedAll(first, Asked(num, ids)[skip..]) && count == |inst| - |first| + skip
    {
      count := 0;
      if num == 0 {
        return;
      }
      var i := 0;
      hide WellFormed, Reserved, ReservedAll, Ids;
      var skip := 0;
      if IsSpare(defaultHasData) {
        if ids.Some? {
          SpareKeeps(inst, ids.value[0]);
          inst := [inst[0].(id := ids.value[0])];
        }
        skip := 1;
      }
      useInst := true;
      count := ReserveFrom(skip, num, ids);
      count := count + skip;
    }

    method ReserveFrom(start: nat, num: nat, ids: Option<seq<nat>>) returns (count: nat)
      requires Valid() && useInst && start <= num && (ids.Some? ==> |ids.value| == num)
      modifies this`inst
      ensures Valid() && inst == ReservedAll(old(inst), Asked(num, ids)[start..])
      ensures |inst| == |old(inst)| + count
    {
      hide WellFormed, Reserved, ReservedAll, Ids;
      ghost var first, asked := inst, Asked(num, ids);
      ReservedNone(first);
      assert asked[start..start] == [];
      count := 0;
      for i := start to num
        invariant Valid() && inst == ReservedAll(first, asked[start..i]) && |inst| == |first| + count
      {
        ReservedMore(first, asked[start..i], asked[i]);
        assert asked[start..i + 1] == asked[start..i] + [asked[i]];
        ReservedKeeps(inst, asked[i]);
        var result := ReserveOne(if ids.Some? then Some(ids.value[i]) else None);
        if result != -1 {
          count := count + 1;
        }
      }
      assert asked[start..num] == asked[start..];
    }

    /** Remove the instance with this id, if there is one, and renumber the buffer indices. */
    method RemoveInst(id: nat)
      requires Valid()
      modifies this`inst
      ensures Valid()
      ensures !useInst || id !in Ids(old(inst)) ==> inst == old(inst)
      ensures useInst && id in Ids(old(inst)) ==> exists i ::
                0 <= i < |old(inst)| && old(inst)[i].id == id && inst == Removed(old(inst), i)
      ensures useInst ==> Ids(inst) == Ids(old(inst)) - {id}
    {
      if !useInst {
        return;
      }
      var i := 0;
      while i < |inst| && inst[i].id != id
        invariant 0 <= i <= |inst| && forall j :: 0 <= j < i ==> inst[j].id != id
      {
        i := i + 1;
      }
      if i >= |inst| {
        return;
      }
      RemoveAt(i);
    }

    method RemoveAt(i: nat)
      requires Valid() && i < |inst|
      modifies this`inst
      ensures Valid() && inst == Removed(old(inst), i) && Ids(inst) == Ids(old(inst)) - {old(inst)[i].id}
      ensures old(inst)[i].id in Ids(old(inst))
    {
      RemovedKeepsOrder(inst, i);
      RemovedKeepsNumbers(inst, i);
      RemovedIds(inst, i);
      RemovedAt(inst, i);
      var idx := inst[i].idx;
      inst := inst[..i] + inst[i + 1..];
      LowerIndices(idx);
    }

    method LowerIndices(idx: nat)
      modifies this`inst
      ensures inst == Renumber(old(inst), idx)
    {
      for k := 0 to |inst|
        invariant |inst| == |old(inst)|
        invariant forall j :: 0 <= j < k ==> inst[j] == Lowered(old(inst)[j], idx)
        invariant forall j :: k <= j < |inst| ==> inst[j] == old(inst)[j]
      {
        if inst[k].idx > idx {
          inst := inst[k := inst[k].(idx := inst[k].idx - 1)];
        }
      }
    }
  }
}
