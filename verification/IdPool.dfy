/**
 The pool of instance id maps of a device.  A record is on the active list of one signal group or on the
 reserve list, and is shared by local users (LID count) and remote users (GID count).  An indirect record
 forwards a remote id to the record whose GID equals its LID.  Records are addressed by handles, the
 model's pointers.
 */
module IdPool {
  import opened Wrappers

  type Handle = nat
  type Id = nat

  datatype IdMap = IdMap(lid: Id, gid: Id, lidRefs: int, gidRefs: int, indirect: bool, remapped: bool)

  /** `active` has one list per signal group. */
  datatype Pool = Pool(recs: map<Handle, IdMap>, active: seq<seq<Handle>>, reserve: seq<Handle>)

  // ---------- lists ----------

  function Without(list: seq<Handle>, h: Handle): (r: seq<Handle>)
    ensures forall x :: x in r ==> x in list
    ensures |r| == |list| - if h in list then 1 else 0
  {
    if list == [] then [] else if list[0] == h then list[1..] else [list[0]] + Without(list[1..], h)
  }

  /** First record of the list with the given GID. */
  function FindGid(recs: map<Handle, IdMap>, list: seq<Handle>, gid: Id): (r: Option<Handle>)
    requires forall h :: h in list ==> h in recs
    ensures r.Some? ==> r.value in list && recs[r.value].gid == gid
    ensures r.None? ==> forall h :: h in list ==> recs[h].gid != gid
  {
    if list == [] then None
    else if recs[list[0]].gid == gid then Some(list[0]) else FindGid(recs, list[1..], gid)
  }

  /** First record of the list with the given LID that local code still uses. */
  function FindLid(recs: map<Handle, IdMap>, list: seq<Handle>, lid: Id): (r: Option<Handle>)
    requires forall h :: h in list ==> h in recs
    ensures r.Some? ==> r.value in list && recs[r.value].lid == lid && recs[r.value].lidRefs > 0
    ensures r.None? ==> forall h :: h in list ==> recs[h].lid != lid || recs[h].lidRefs <= 0
  {
    if list == [] then None
    else if recs[list[0]].lid == lid && recs[list[0]].lidRefs > 0 then Some(list[0])
    else FindLid(recs, list[1..], lid)
  }

  // ---------- the pool invariant ----------

  predicate Distinct(list: seq<Handle>) {
    forall i, j :: 0 <= i < j < |list| ==> list[i] != list[j]
  }

  /** Every record is on exactly one list. */
  ghost predicate OneList(p: Pool) {
    && Distinct(p.reserve)
    && (forall g :: 0 <= g < |p.active| ==> Distinct(p.active[g]))
    && (forall g, h :: 0 <= g < |p.active| && h in p.active[g] ==> h in p.recs && h !in p.reserve)
    && (forall f, g, h :: 0 <= f < g < |p.active| && h in p.active[f] ==> h !in p.active[g])
    && (forall h :: h in p.reserve ==> h in p.recs)
    && (forall h :: h in p.recs ==> h in p.reserve || IsActive(p, h))
  }

  ghost predicate IsActive(p: Pool, h: Handle) {
    exists g :: 0 <= g < |p.active| && h in p.active[g]
  }

  /** Counts are not negative, and a direct record is active exactly while one of them is positive. */
  ghost predicate Counted(p: Pool) {
    && (forall h :: h in p.recs ==> p.recs[h].lidRefs >= 0 && p.recs[h].gidRefs >= 0)
    && (forall g, h :: 0 <= g < |p.active| && h in p.active[g] && h in p.recs && !p.recs[h].indirect ==>
          p.recs[h].lidRefs > 0 || p.recs[h].gidRefs > 0)
    && (forall h :: h in p.reserve && h in p.recs && !p.recs[h].indirect ==>
          p.recs[h].lidRefs == 0 && p.recs[h].gidRefs == 0)
  }

  ghost predicate Ok(p: Pool) {
    OneList(p) && Counted(p)
  }

  /** Both records are indirect and the first forwards to the second. */
  predicate Chains(recs: map<Handle, IdMap>, i: Handle, m: Handle) {
    i in recs && m in recs && recs[i].indirect && recs[m].indirect && recs[i].lid == recs[m].gid
  }

  /** No indirect record of a group forwards to an indirect one. */
  ghost predicate NoChains(p: Pool) {
    forall g, i, m :: 0 <= g < |p.active| && i in p.active[g] && m in p.active[g] ==> !Chains(p.recs, i, m)
  }

  // ---------- operations ----------

  function SetRec(p: Pool, h: Handle, r: IdMap): Pool {
    p.(recs := p.recs[h := r])
  }

  /** A new, empty record on the reserve list; `h` is its address. */
  function Reserve(p: Pool, h: Handle): Pool {
    p.(recs := p.recs[h := IdMap(0, 0, 0, 0, false, false)], reserve := [h] + p.reserve)
  }

  /** Activate the first reserve record; `fresh` is the address of a new one if the reserve is empty. */
  function Add(p: Pool, g: nat, lid: Id, gid: Id, indirect: bool, unused: Handle): (r: (Pool, Handle))
    requires g < |p.active| && forall h :: h in p.reserve ==> h in p.recs
  {
    var p := if p.reserve == [] then Reserve(p, unused) else p;
    var h := p.reserve[0];
    (Pool(p.recs[h := IdMap(lid, gid, 1, 0, indirect, p.recs[h].remapped)],
          p.active[g := [h] + p.active[g]], p.reserve[1..]), h)
  }

  /** Move a record from the active list to the reserve, if it is there. */
  function Remove(p: Pool, g: nat, h: Handle): Pool
    requires g < |p.active|
  {
    if h in p.active[g] then p.(active := p.active[g := Without(p.active[g], h)], reserve := [h] + p.reserve) else p
  }

  function IncrLid(p: Pool, h: Handle): Pool
    requires h in p.recs
  {
    SetRec(p, h, p.recs[h].(lidRefs := p.recs[h].lidRefs + 1))
  }

  function IncrGid(p: Pool, h: Handle): Pool
    requires h in p.recs
  {
    SetRec(p, h, p.recs[h].(gidRefs := p.recs[h].gidRefs + 1))
  }

  function Decr(n: int): int {
    if n - 1 <= 0 then 0 else n - 1
  }

  function LidDecref(p: Pool, g: nat, h: Handle): (Pool, bool)
    requires g < |p.active| && h in p.recs
  {
    var r := p.recs[h].(lidRefs := Decr(p.recs[h].lidRefs));
    if r.lidRefs == 0 && r.gidRefs <= 0 then (Remove(SetRec(p, h, r), g, h), true) else (SetRec(p, h, r), false)
  }

  /** The record an indirect record forwards to. */
  function Target(p: Pool, g: nat, h: Handle): Option<Handle>
    requires g < |p.active| && h in p.recs && forall x :: x in p.active[g] ==> x in p.recs
  {
    FindGid(p.recs, p.active[g], p.recs[h].lid)
  }

  /** The record forwards, if at all, to a direct one. */
  predicate TargetDirect(p: Pool, g: nat, h: Handle)
    requires g < |p.active| && h in p.recs && forall x :: x in p.active[g] ==> x in p.recs
  {
    p.recs[h].indirect ==> var t := Target(p, g, h); t.Some? ==> !p.recs[t.value].indirect
  }

  /** Dropping the last reference of an indirect record first drops one of its target's. */
  function GidDecref(p: Pool, g: nat, h: Handle): (Pool, bool)
    requires g < |p.active| && h in p.recs && (forall x :: x in p.active[g] ==> x in p.recs) && TargetDirect(p, g, h)
    decreases p.recs[h].indirect
  {
    var r := p.recs[h].(gidRefs := Decr(p.recs[h].gidRefs));
    var q := SetRec(p, h, r);
    if r.gidRefs != 0 || r.lidRefs > (if r.indirect then 1 else 0) then (q, false)
    else if !r.indirect then (Remove(q, g, h), true)
    else
      SameTarget(p, g, h, r);
      var t := Target(q, g, h);
      var q' := if t.None? then q
                else GidDecref(SetRec(q, t.value, q.recs[t.value].(remapped := false)), g, t.value).0;
      (Remove(q', g, h), true)
  }

  lemma {:induction false} SameGids(recs: map<Handle, IdMap>, more: map<Handle, IdMap>, list: seq<Handle>, gid: Id)
    requires forall h :: h in list ==> h in recs && h in more && more[h].gid == recs[h].gid
    ensures FindGid(recs, list, gid) == FindGid(more, list, gid)
  {
    if list != [] { SameGids(recs, more, list[1..], gid); }
  }

  lemma SameTarget(p: Pool, g: nat, h: Handle, r: IdMap)
    requires g < |p.active| && h in p.recs && (forall x :: x in p.active[g] ==> x in p.recs)
    requires r.gid == p.recs[h].gid && r.lid == p.recs[h].lid
    ensures Target(SetRec(p, h, r), g, h) == Target(p, g, h)
  {
    SameGids(p.recs, p.recs[h := r], p.active[g], r.lid);
  }

  // ---------- what every operation keeps ----------

  lemma {:induction false} WithoutMeaning(list: seq<Handle>, h: Handle)
    requires Distinct(list)
    ensures Distinct(Without(list, h)) && forall x :: x in Without(list, h) <==> x in list && x != h
  {
    if list != [] {
      assert Distinct(list[1..]) && list[0] !in list[1..];
      WithoutMeaning(list[1..], h);
    }
  }

  /** The rest of a list keeps its order. */
  lemma {:induction false} WithoutAt(list: seq<Handle>, i: nat)
    requires Distinct(list) && i < |list|
    ensures Without(list, list[i]) == list[..i] + list[i + 1..]
  {
    if i > 0 {
      DistinctTail(list);
      assert list[0] != list[i];
      hide Distinct;
      TailSlices(list, i);
      WithoutAt(list[1..], i - 1);
    }
  }

  lemma TailSlices(list: seq<Handle>, i: nat)
    requires 0 < i < |list|
    ensures var tail := list[1..];
            && tail[i - 1] == list[i] && |tail| == |list| - 1
            && list[..i] + list[i + 1..] == [list[0]] + (tail[..i - 1] + tail[i - 1 + 1..])
  {
    var tail := list[1..];
    assert list[..i] == [list[0]] + tail[..i - 1];
    assert list[i + 1..] == tail[i..];
  }

  lemma DistinctTail(list: seq<Handle>)
    requires Distinct(list) && list != []
    ensures Distinct(list[1..])
  {
    assert forall j, k :: 0 <= j < k < |list| - 1 ==> list[1..][j] == list[j + 1] && list[1..][k] == list[k + 1];
  }

  /** A lookup finds the first record that qualifies. */
  lemma {:induction false} FindGidFirst(recs: map<Handle, IdMap>, list: seq<Handle>, gid: Id, i: nat)
    requires (forall h :: h in list ==> h in recs) && i < |list| && recs[list[i]].gid == gid
    requires forall j :: 0 <= j < i ==> recs[list[j]].gid != gid
    ensures FindGid(recs, list, gid) == Some(list[i])
  {
    if i > 0 { FindGidFirst(recs, list[1..], gid, i - 1); }
  }

  lemma {:induction false} FindLidFirst(recs: map<Handle, IdMap>, list: seq<Handle>, lid: Id, i: nat)
    requires (forall h :: h in list ==> h in recs) && i < |list|
    requires recs[list[i]].lid == lid && recs[list[i]].lidRefs > 0
    requires forall j :: 0 <= j < i ==> recs[list[j]].lid != lid || recs[list[j]].lidRefs <= 0
    ensures FindLid(recs, list, lid) == Some(list[i])
  {
    if i > 0 { FindLidFirst(recs, list[1..], lid, i - 1); }
  }

  /** Replacing a record by one that fits its list keeps the invariant. */
  lemma SetRecOk(p: Pool, h: Handle, r: IdMap)
    requires Ok(p) && IsActive(p, h) && r.lidRefs >= 0 && r.gidRefs >= 0
    requires !r.indirect ==> r.lidRefs > 0 || r.gidRefs > 0
    ensures Ok(SetRec(p, h, r)) && IsActive(SetRec(p, h, r), h)
  {
    var q := SetRec(p, h, r);
    forall x | x in q.recs ensures x in q.reserve || IsActive(q, x) {
      if x !in p.reserve {
        var g :| 0 <= g < |p.active| && x in p.active[g];
        assert x in q.active[g];
      }
    }
    var g :| 0 <= g < |p.active| && h in p.active[g];
    assert h in q.active[g];
  }

  /** Moving a record out of use keeps the invariant, once its counts allow it. */
  lemma RemoveOk(p: Pool, g: nat, h: Handle)
    requires OneList(p) && g < |p.active| && h in p.active[g]
    requires forall x :: x in p.recs ==> p.recs[x].lidRefs >= 0 && p.recs[x].gidRefs >= 0
    requires !p.recs[h].indirect ==> p.recs[h].lidRefs == 0 && p.recs[h].gidRefs == 0
    requires forall f, x :: 0 <= f < |p.active| && x in p.active[f] && x != h && x in p.recs && !p.recs[x].indirect ==>
               p.recs[x].lidRefs > 0 || p.recs[x].gidRefs > 0
    requires forall x :: x in p.reserve && x in p.recs && !p.recs[x].indirect ==>
               p.recs[x].lidRefs == 0 && p.recs[x].gidRefs == 0
    ensures Ok(Remove(p, g, h)) && h in Remove(p, g, h).reserve && !IsActive(Remove(p, g, h), h)
    ensures forall x :: x != h ==> (IsActive(Remove(p, g, h), x) <==> IsActive(p, x))
  {
    var q := Remove(p, g, h);
    WithoutMeaning(p.active[g], h);
    DistinctCons(h, p.reserve);
    forall x | x != h ensures IsActive(q, x) <==> IsActive(p, x) {
      if IsActive(p, x) {
        var f :| 0 <= f < |p.active| && x in p.active[f];
        assert x in q.active[f];
      }
      if IsActive(q, x) {
        var f :| 0 <= f < |q.active| && x in q.active[f];
        assert x in p.active[f];
      }
    }
  }

  lemma ReserveOk(p: Pool, h: Handle)
    requires Ok(p) && h !in p.recs
    ensures Ok(Reserve(p, h))
  {
    SameActive(p, Reserve(p, h));
  }

  /** The first reserve record, overwritten, at the head of the active list. */
  function Activate(p: Pool, g: nat, r: IdMap): Pool
    requires g < |p.active| && p.reserve != []
  {
    Pool(p.recs[p.reserve[0] := r], p.active[g := [p.reserve[0]] + p.active[g]], p.reserve[1..])
  }

  lemma DistinctCons(h: Handle, list: seq<Handle>)
    ensures Distinct([h] + list) <==> Distinct(list) && h !in list
  {
    var all := [h] + list;
    assert forall i :: 0 <= i < |list| ==> all[i + 1] == list[i];
    if Distinct(all) {
      forall i, j | 0 <= i < j < |list| ensures list[i] != list[j] { assert all[i + 1] != all[j + 1]; }
      forall i | 0 <= i < |list| ensures list[i] != h { assert all[0] != all[i + 1]; }
    }
  }

  lemma ActivateOneList(p: Pool, g: nat, r: IdMap)
    requires OneList(p) && g < |p.active| && p.reserve != []
    ensures OneList(Activate(p, g, r)) && !IsActive(p, p.reserve[0])
  {
    hide Distinct;
    var q, h := Activate(p, g, r), p.reserve[0];
    assert p.reserve == [h] + q.reserve && h in p.reserve;
    DistinctCons(h, q.reserve);
    DistinctCons(h, p.active[g]);
    forall x | x in q.recs ensures x in q.reserve || IsActive(q, x) {
      if x == h {
        assert h in q.active[g];
      } else if x !in p.reserve {
        var f :| 0 <= f < |p.active| && x in p.active[f];
        assert x in q.active[f];
      }
    }
    forall f, x | 0 <= f < |q.active| && x in q.active[f]
      ensures x in q.recs && x !in q.reserve && (x != h ==> x in p.active[f]) && (x == h ==> f == g)
    {
    }
  }

  lemma ActivateOk(p: Pool, g: nat, r: IdMap)
    requires Ok(p) && g < |p.active| && p.reserve != [] && r.lidRefs == 1 && r.gidRefs == 0
    ensures Ok(Activate(p, g, r)) && !IsActive(p, p.reserve[0])
  {
    ActivateOneList(p, g, r);
    var q, h := Activate(p, g, r), p.reserve[0];
    hide OneList, Distinct;
    assert p.reserve == [h] + q.reserve;
  }

  /** An addition takes the first reserve record, or a new one, to the head of its group's list. */
  lemma AddLists(p: Pool, g: nat, lid: Id, gid: Id, indirect: bool, unused: Handle)
    requires Ok(p) && g < |p.active| && unused !in p.recs
    ensures var (q, h) := Add(p, g, lid, gid, indirect, unused);
            && h == (if p.reserve == [] then unused else p.reserve[0])
            && q.active == p.active[g := [h] + p.active[g]]
            && q.reserve == if p.reserve == [] then [] else p.reserve[1..]
  {
    hide Ok;
  }

  /** A new record goes to the head of the reserve, without references. */
  lemma ReserveMeaning(p: Pool, h: Handle)
    requires h !in p.recs
    ensures var q := Reserve(p, h);
            && q.active == p.active && q.reserve == [h] + p.reserve && q.recs == p.recs[h := q.recs[h]]
            && q.recs[h].lidRefs == 0 && q.recs[h].gidRefs == 0 && !q.recs[h].indirect && !q.recs[h].remapped
  {
  }

  lemma AddOk(p: Pool, g: nat, lid: Id, gid: Id, indirect: bool, unused: Handle)
    requires Ok(p) && g < |p.active| && unused !in p.recs
    ensures var (q, h) := Add(p, g, lid, gid, indirect, unused);
            && Ok(q) && |q.active| == |p.active| && q.active == p.active[g := [h] + p.active[g]] && !IsActive(p, h)
            && q.recs[h].lid == lid && q.recs[h].gid == gid && q.recs[h].indirect == indirect
            && q.recs[h].lidRefs == 1 && q.recs[h].gidRefs == 0
            && (forall x :: x in p.recs && x != h ==> x in q.recs && q.recs[x] == p.recs[x])
  {
    var p1 := if p.reserve == [] then Reserve(p, unused) else p;
    if p.reserve == [] { ReserveOk(p, unused); }
    SameActive(p, p1);
    ActivateOk(p1, g, IdMap(lid, gid, 1, 0, indirect, p1.recs[p1.reserve[0]].remapped));
  }

  /** Dropping a local reference: one less, never below zero; the record moves exactly when that leaves it
      without any reference, and nothing else changes. */
  lemma LidDecrefOk(p: Pool, g: nat, h: Handle)
    requires Ok(p) && g < |p.active| && h in p.active[g]
    ensures var (q, moved) := LidDecref(p, g, h);
            && Ok(q) && (moved <==> !IsActive(q, h)) && (moved <==> h in q.reserve)
            && (forall x :: x != h ==> (IsActive(q, x) <==> IsActive(p, x)))
            && (moved <==> p.recs[h].lidRefs <= 1 && p.recs[h].gidRefs == 0)
            && q.recs == p.recs[h := p.recs[h].(lidRefs := if p.recs[h].lidRefs <= 1 then 0 else p.recs[h].lidRefs - 1)]
            && q.active == (if moved then p.active[g := Without(p.active[g], h)] else p.active)
            && q.reserve == (if moved then [h] + p.reserve else p.reserve)
  {
    var r := p.recs[h].(lidRefs := Decr(p.recs[h].lidRefs));
    var q := SetRec(p, h, r);
    assert IsActive(p, h);
    if r.lidRefs == 0 && r.gidRefs <= 0 {
      assert OneList(q) by { OneListSetRec(p, h, r); }
      RemoveOk(q, g, h);
      SameActive(p, q);
    } else {
      SetRecOk(p, h, r);
      SameActive(p, q);
    }
  }

  lemma SameActive(p: Pool, q: Pool)
    requires p.active == q.active
    ensures forall x :: IsActive(p, x) <==> IsActive(q, x)
  {
    forall x ensures IsActive(p, x) <==> IsActive(q, x) {
      if g :| 0 <= g < |p.active| && x in p.active[g] { assert x in q.active[g]; }
      if g :| 0 <= g < |q.active| && x in q.active[g] { assert x in p.active[g]; }
    }
  }

  lemma OneListSetRec(p: Pool, h: Handle, r: IdMap)
    requires OneList(p) && h in p.recs
    ensures OneList(SetRec(p, h, r))
  {
    SameActive(p, SetRec(p, h, r));
  }

  lemma DropDirectOk(p: Pool, g: nat, h: Handle)
    requires Ok(p) && g < |p.active| && h in p.active[g] && !p.recs[h].indirect
    ensures var (q, moved) := GidDecref(p, g, h);
            && Ok(q) && (moved <==> !IsActive(q, h)) && |q.active| == |p.active|
            && (moved <==> p.recs[h].lidRefs == 0 && Decr(p.recs[h].gidRefs) == 0)
            && q.recs == p.recs[h := p.recs[h].(gidRefs := Decr(p.recs[h].gidRefs))]
            && (forall x :: x != h ==> (IsActive(q, x) <==> IsActive(p, x)))
            && (forall x :: x != h ==> (x in q.active[g] <==> x in p.active[g]))
  {
    var r := p.recs[h].(gidRefs := Decr(p.recs[h].gidRefs));
    var q := SetRec(p, h, r);
    assert IsActive(p, h);
    SameActive(p, q);
    if r.gidRefs == 0 && r.lidRefs <= 0 {
      OneListSetRec(p, h, r);
      RemoveOk(q, g, h);
      WithoutMeaning(q.active[g], h);
    } else {
      SetRecOk(p, h, r);
    }
  }

  lemma OneLess(n: int)
    ensures Decr(n) == if n <= 1 then 0 else n - 1
  {
  }

  /** Dropping a remote reference of a direct record: one less, never below zero; the record moves exactly
      when that leaves it without any reference, and nothing else changes. */
  lemma GidDecrefDirect(p: Pool, g: nat, h: Handle)
    requires Ok(p) && g < |p.active| && h in p.active[g] && !p.recs[h].indirect
    ensures var (q, moved) := GidDecref(p, g, h);
            && Ok(q) && (moved <==> !IsActive(q, h))
            && (moved <==> p.recs[h].lidRefs == 0 && p.recs[h].gidRefs <= 1)
            && q.recs == p.recs[h := p.recs[h].(gidRefs := if p.recs[h].gidRefs <= 1 then 0 else p.recs[h].gidRefs - 1)]
            && q.active == (if moved then p.active[g := Without(p.active[g], h)] else p.active)
            && q.reserve == (if moved then [h] + p.reserve else p.reserve)
            && (forall x :: x != h ==> (IsActive(q, x) <==> IsActive(p, x)))
  {
    DropDirectOk(p, g, h);
    OneLess(p.recs[h].gidRefs);
    hide Decr, OneList, IsActive, Without, Distinct, Counted;
  }

  /** The last remote reference of an indirect record is dropped. */
  predicate ReleasesIndirect(p: Pool, h: Handle)
    requires h in p.recs
  {
    p.recs[h].indirect && p.recs[h].gidRefs <= 1 && p.recs[h].lidRefs <= 1
  }

  /** Taking an indirect record out of use, whatever its counts. */
  lemma RemoveIndirectOk(p: Pool, g: nat, h: Handle)
    requires Ok(p) && g < |p.active| && h in p.active[g] && p.recs[h].indirect
    ensures Ok(Remove(p, g, h)) && !IsActive(Remove(p, g, h), h)
    ensures forall x :: x != h ==> (IsActive(Remove(p, g, h), x) <==> IsActive(p, x))
  {
    RemoveOk(p, g, h);
  }

  /** The pool just before the record itself is moved: its count is zero and its target is released. */
  function Released(p: Pool, g: nat, h: Handle): Pool
    requires g < |p.active| && h in p.active[g] && (forall x :: x in p.active[g] ==> x in p.recs)
    requires TargetDirect(p, g, h)
    requires p.recs[h].indirect
  {
    var q := SetRec(p, h, p.recs[h].(gidRefs := 0));
    match Target(p, g, h)
    case None => q
    case Some(t) => GidDecref(SetRec(q, t, q.recs[t].(remapped := false)), g, t).0
  }

  lemma ReleasesTarget(p: Pool, g: nat, h: Handle, t: Handle)
    requires Ok(p) && g < |p.active| && h in p.active[g] && TargetDirect(p, g, h) && p.recs[h].indirect
    requires Target(p, g, h) == Some(t)
    ensures var q, left := Released(p, g, h), Decr(p.recs[t].gidRefs);
            && Ok(q) && |q.active| == |p.active| && h in q.active[g] && t != h
            && q.recs == p.recs[h := p.recs[h].(gidRefs := 0)][t := p.recs[t].(remapped := false, gidRefs := left)]
            && (IsActive(q, t) <==> p.recs[t].lidRefs > 0 || left > 0)
  {
    var r := p.recs[h].(gidRefs := 0);
    var q := SetRec(p, h, r);
    var z := p.recs[t].(remapped := false);
    assert IsActive(p, h) && IsActive(q, t) && t in p.active[g];
    assert z.lidRefs >= 0 && z.gidRefs >= 0 && !z.indirect && (z.lidRefs > 0 || z.gidRefs > 0) && t != h;
    assert forall x :: x in p.active[g] ==> x in p.recs;
    SetRecOk(p, h, r);
    SameTarget(p, g, h, r);
    hide Ok, OneList, Counted, FindGid, IsActive, TargetDirect, GidDecref;
    SetRecOk(q, t, z);
    DropDirectOk(SetRec(q, t, z), g, t);
    LastUpdate(q.recs, t, z, z.(gidRefs := Decr(z.gidRefs)));
  }

  lemma LastUpdate(recs: map<Handle, IdMap>, t: Handle, z: IdMap, y: IdMap)
    ensures recs[t := z][t := y] == recs[t := y]
  {
  }

  lemma ReleasesNone(p: Pool, g: nat, h: Handle)
    requires Ok(p) && g < |p.active| && h in p.active[g] && TargetDirect(p, g, h) && p.recs[h].indirect
    requires Target(p, g, h) == None
    ensures var q := Released(p, g, h);
            Ok(q) && |q.active| == |p.active| && h in q.active[g] && q.recs == p.recs[h := p.recs[h].(gidRefs := 0)]
  {
    assert IsActive(p, h);
    SetRecOk(p, h, p.recs[h].(gidRefs := 0));
  }

  /** Releasing an indirect record clears its target's remapped flag, drops one of the target's remote
      references, moves the target as well if that was its last reference, and moves the record. */
  lemma GidDecrefIndirect(p: Pool, g: nat, h: Handle)
    requires Ok(p) && g < |p.active| && h in p.active[g] && TargetDirect(p, g, h) && ReleasesIndirect(p, h)
    ensures var (q, moved) := GidDecref(p, g, h);
            && Ok(q) && moved && !IsActive(q, h)
            && match Target(p, g, h)
               case None => q.recs == p.recs[h := p.recs[h].(gidRefs := 0)]
               case Some(t) =>
                 var left := if p.recs[t].gidRefs <= 1 then 0 else p.recs[t].gidRefs - 1;
                 && q.recs == p.recs[h := p.recs[h].(gidRefs := 0)][t := p.recs[t].(remapped := false, gidRefs := left)]
                 && (IsActive(q, t) <==> p.recs[t].lidRefs > 0 || left > 0)
  {
    ReleasesAndMoves(p, g, h);
    assert forall x :: x in p.active[g] ==> x in p.recs;
    match Target(p, g, h) {
      case None => ReleasesNone(p, g, h);
      case Some(t) =>
        OneLess(p.recs[t].gidRefs);
        ReleasesTarget(p, g, h, t);
    }
    hide Released, Ok, GidDecref, Decr, FindGid, IsActive;
    RemoveIndirectOk(Released(p, g, h), g, h);
  }

  lemma ReleasesAndMoves(p: Pool, g: nat, h: Handle)
    requires Ok(p) && g < |p.active| && h in p.active[g] && TargetDirect(p, g, h) && ReleasesIndirect(p, h)
    ensures GidDecref(p, g, h) == (Remove(Released(p, g, h), g, h), true)
  {
    OneLess(p.recs[h].gidRefs);
    SameTarget(p, g, h, p.recs[h].(gidRefs := 0));
    hide Decr, FindGid, Counted;
  }

  lemma GidDecrefOk(p: Pool, g: nat, h: Handle)
    requires Ok(p) && g < |p.active| && h in p.active[g] && TargetDirect(p, g, h)
    ensures var (q, moved) := GidDecref(p, g, h);
            && Ok(q) && (moved <==> !IsActive(q, h))
            && (moved <==> p.recs[h].gidRefs <= 1 && p.recs[h].lidRefs <= if p.recs[h].indirect then 1 else 0)
            && (!moved ==>
                  q == p.(recs := p.recs[h := p.recs[h].(gidRefs := if p.recs[h].gidRefs <= 1 then 0
                                                                    else p.recs[h].gidRefs - 1)]))
  {
    if !p.recs[h].indirect {
      GidDecrefDirect(p, g, h);
    } else if ReleasesIndirect(p, h) {
      GidDecrefIndirect(p, g, h);
    } else {
      KeptIndirect(p, g, h);
    }
    hide Ok, GidDecref, IsActive, TargetDirect;
  }

  lemma KeptIndirect(p: Pool, g: nat, h: Handle)
    requires Ok(p) && g < |p.active| && h in p.active[g] && TargetDirect(p, g, h)
    requires p.recs[h].indirect && !ReleasesIndirect(p, h)
    ensures var (q, moved) := GidDecref(p, g, h);
            && Ok(q) && !moved && IsActive(q, h)
            && q == p.(recs := p.recs[h := p.recs[h].(gidRefs := if p.recs[h].gidRefs <= 1 then 0
                                                                 else p.recs[h].gidRefs - 1)])
  {
    var r := p.recs[h].(gidRefs := Decr(p.recs[h].gidRefs));
    OneLess(p.recs[h].gidRefs);
    KeptStep(p, g, h);
    assert IsActive(p, h);
    SetRecOk(p, h, r);
    hide GidDecref, Decr, Ok;
  }

  lemma KeptStep(p: Pool, g: nat, h: Handle)
    requires g < |p.active| && h in p.recs && (forall x :: x in p.active[g] ==> x in p.recs) && TargetDirect(p, g, h)
    requires p.recs[h].indirect && !ReleasesIndirect(p, h)
    ensures GidDecref(p, g, h) == (SetRec(p, h, p.recs[h].(gidRefs := Decr(p.recs[h].gidRefs))), false)
  {
    OneLess(p.recs[h].gidRefs);
    hide TargetDirect, Target, Remove;
  }

  // ---------- chains of indirection ----------

  lemma NoChainsTargetDirect(p: Pool, g: nat, h: Handle)
    requires OneList(p) && NoChains(p) && g < |p.active| && h in p.active[g]
    ensures TargetDirect(p, g, h)
  {
    var t := Target(p, g, h);
    if t.Some? { assert !Chains(p.recs, h, t.value); }
  }

  /** Setting up an indirection keeps chains out exactly when no indirect record of the group forwards to
      the new GID or has the new LID as its GID, and the record does not forward to itself. */
  lemma AddKeepsNoChainsIff(p: Pool, g: nat, lid: Id, gid: Id, indirect: bool, unused: Handle)
    requires Ok(p) && NoChains(p) && g < |p.active| && unused !in p.recs
    ensures NoChains(Add(p, g, lid, gid, indirect, unused).0) <==>
            (indirect ==> lid != gid && forall m :: m in p.active[g] && p.recs[m].indirect ==>
                            p.recs[m].lid != gid && p.recs[m].gid != lid)
  {
    var (q, h) := Add(p, g, lid, gid, indirect, unused);
    AddOk(p, g, lid, gid, indirect, unused);
    var fine := indirect ==> lid != gid && forall m :: m in p.active[g] && p.recs[m].indirect ==>
                                             p.recs[m].lid != gid && p.recs[m].gid != lid;
    forall f, x | 0 <= f < |p.active| && x in p.active[f] ensures x != h && q.recs[x] == p.recs[x] {
      assert IsActive(p, x);
    }
    if NoChains(q) && indirect {
      assert h in q.active[g] && !Chains(q.recs, h, h);
      forall m | m in p.active[g] && p.recs[m].indirect ensures p.recs[m].lid != gid && p.recs[m].gid != lid {
        assert m in q.active[g] && !Chains(q.recs, m, h) && !Chains(q.recs, h, m);
      }
    }
    if fine {
      forall f, i, m | 0 <= f < |q.active| && i in q.active[f] && m in q.active[f] ensures !Chains(q.recs, i, m) {
        if i != h && m != h { assert !Chains(p.recs, i, m); }
      }
    }
  }

  /** Three records: 0 is direct with GID 10, 1 is direct with GID 30, and 2 forwards GID 20 to record 0. */
  function Forwarding(): Pool {
    Pool(map[0 := IdMap(1, 10, 1, 1, false, true), 1 := IdMap(3, 30, 1, 0, false, false),
             2 := IdMap(10, 20, 1, 1, true, false)], [[2, 1, 0]], [])
  }

  lemma ForwardingOk()
    ensures Ok(Forwarding()) && NoChains(Forwarding())
  {
    var ops := ForwardingReached();
    RunGood(Empty(1), ops);
  }

  /** The condition can fail: when a second indirection claims a GID that is already forwarded to, the
      first one now forwards to an indirect record. */
  lemma IndirectionsCanChain()
    ensures Ok(Forwarding()) && NoChains(Forwarding())
    ensures var q := Add(Forwarding(), 0, 30, 10, true, 9).0;
            Ok(q) && !NoChains(q) && 2 in q.active[0] && !TargetDirect(q, 0, 2)
  {
    hide Ok, NoChains, IsActive;
    var p := Forwarding();
    ForwardingOk();
    AddOk(p, 0, 30, 10, true, 9);
    AddKeepsNoChainsIff(p, 0, 30, 10, true, 9);
    assert 2 in p.active[0] && p.recs[2].indirect && p.recs[2].lid == 10;
    var q := Add(p, 0, 30, 10, true, 9).0;
    assert q.active[0] == [9] + p.active[0] && q.active[0][0] == 9;
    assert FindGid(q.recs, q.active[0], 10) == Some(9);
  }

  // ---------- runs ----------

  /** q has the same records as p up to counts and flags, and no longer active lists. */
  ghost predicate Shrinks(p: Pool, q: Pool) {
    && |q.active| == |p.active| && q.recs.Keys == p.recs.Keys
    && (forall x :: x in p.recs ==> q.recs[x].lid == p.recs[x].lid && q.recs[x].gid == p.recs[x].gid
                                    && q.recs[x].indirect == p.recs[x].indirect)
    && (forall g, x :: 0 <= g < |p.active| && x in q.active[g] ==> x in p.active[g])
  }

  lemma ShrinksKeepsNoChains(p: Pool, q: Pool)
    requires NoChains(p) && Shrinks(p, q)
    ensures NoChains(q)
  {
    forall g, i, m | 0 <= g < |q.active| && i in q.active[g] && m in q.active[g] ensures !Chains(q.recs, i, m) {
      assert !Chains(p.recs, i, m);
    }
  }

  lemma GidDecrefShrinks(p: Pool, g: nat, h: Handle)
    requires g < |p.active| && h in p.recs && (forall x :: x in p.active[g] ==> x in p.recs) && TargetDirect(p, g, h)
    ensures Shrinks(p, GidDecref(p, g, h).0)
    decreases p.recs[h].indirect
  {
    var r := p.recs[h].(gidRefs := Decr(p.recs[h].gidRefs));
    var q := SetRec(p, h, r);
    if ReleasesIndirect(p, h) {
      SameTarget(p, g, h, r);
      match Target(q, g, h) {
        case None =>
        case Some(t) =>
          GidDecrefShrinks(SetRec(q, t, q.recs[t].(remapped := false)), g, t);
      }
    }
  }

  /** `New` and `Forward` add a direct and an indirect record, the latter with its first remote user. */
  datatype Op =
    | New(group: nat, lid: Id, gid: Id, unused: Handle)
    | Forward(group: nat, target: Handle, gid: Id, unused: Handle)
    | UseLid(group: nat, h: Handle)
    | UseGid(group: nat, h: Handle)
    | DropLid(group: nat, h: Handle)
    | DropGid(group: nat, h: Handle)

  /** Operations address active records; an indirection is set up for a direct record and a GID that
      nothing forwards to, such that no indirect record claims the target's GID. */
  ghost predicate Enabled(p: Pool, op: Op) {
    && op.group < |p.active|
    && match op
       case New(_, _, _, unused) => unused !in p.recs
       case Forward(g, x, gid, unused) =>
         && unused !in p.recs && x in p.active[g] && x in p.recs && !p.recs[x].indirect && gid != p.recs[x].gid
         && forall m :: m in p.active[g] && m in p.recs && p.recs[m].indirect ==>
              p.recs[m].lid != gid && p.recs[m].gid != p.recs[x].gid
       case UseLid(g, h) => h in p.active[g]
       case UseGid(g, h) => h in p.active[g]
       case DropLid(g, h) => h in p.active[g]
       case DropGid(g, h) => h in p.active[g]
  }

  ghost predicate Good(p: Pool) {
    Ok(p) && NoChains(p)
  }

  ghost function Step(p: Pool, op: Op): Pool
    requires Good(p) && Enabled(p, op)
  {
    match op
    case New(g, lid, gid, unused) => Add(p, g, lid, gid, false, unused).0
    case Forward(g, x, gid, unused) =>
      AddOk(p, g, p.recs[x].gid, gid, true, unused);
      var (q, h) := Add(p, g, p.recs[x].gid, gid, true, unused);
      Link(q, h, x)
    case UseLid(_, h) => IncrLid(p, h)
    case UseGid(_, h) => IncrGid(p, h)
    case DropLid(g, h) => LidDecref(p, g, h).0
    case DropGid(g, h) => NoChainsTargetDirect(p, g, h); GidDecref(p, g, h).0
  }

  lemma StepGood(p: Pool, op: Op)
    requires Good(p) && Enabled(p, op)
    ensures Good(Step(p, op)) && |Step(p, op).active| == |p.active|
  {
    hide Good, Distinct;
    match op {
      case New(g, lid, gid, unused) => NewGood(p, g, lid, gid, unused);
      case Forward(g, x, gid, unused) => ForwardGood(p, g, x, gid, unused);
      case UseLid(g, h) => UseLidGood(p, g, h);
      case UseGid(g, h) => UseGidGood(p, g, h);
      case DropLid(g, h) => DropLidGood(p, g, h);
      case DropGid(g, h) => DropGidGood(p, g, h);
    }
  }

  lemma NewGood(p: Pool, g: nat, lid: Id, gid: Id, unused: Handle)
    requires Good(p) && g < |p.active| && unused !in p.recs
    ensures var q := Add(p, g, lid, gid, false, unused).0; Good(q) && |q.active| == |p.active|
  {
    AddOk(p, g, lid, gid, false, unused);
    AddKeepsNoChainsIff(p, g, lid, gid, false, unused);
    hide Ok, NoChains, Add;
  }

  lemma UseLidGood(p: Pool, g: nat, h: Handle)
    requires Good(p) && g < |p.active| && h in p.active[g]
    ensures h in p.recs && Good(IncrLid(p, h)) && |IncrLid(p, h).active| == |p.active|
  {
    assert IsActive(p, h);
    UseGood(p, h, p.recs[h].(lidRefs := p.recs[h].lidRefs + 1));
  }

  lemma UseGidGood(p: Pool, g: nat, h: Handle)
    requires Good(p) && g < |p.active| && h in p.active[g]
    ensures h in p.recs && Good(IncrGid(p, h)) && |IncrGid(p, h).active| == |p.active|
  {
    assert IsActive(p, h);
    UseGood(p, h, p.recs[h].(gidRefs := p.recs[h].gidRefs + 1));
  }

  lemma DropLidGood(p: Pool, g: nat, h: Handle)
    requires Good(p) && g < |p.active| && h in p.active[g]
    ensures h in p.recs
    ensures var q := LidDecref(p, g, h).0; Good(q) && |q.active| == |p.active|
  {
    LidDecrefOk(p, g, h);
    ShrinksKeepsNoChains(p, LidDecref(p, g, h).0);
    hide Ok, NoChains;
  }

  lemma DropGidGood(p: Pool, g: nat, h: Handle)
    requires Good(p) && g < |p.active| && h in p.active[g]
    ensures h in p.recs && TargetDirect(p, g, h)
    ensures var q := GidDecref(p, g, h).0; Good(q) && |q.active| == |p.active|
  {
    NoChainsTargetDirect(p, g, h);
    GidDecrefOk(p, g, h);
    GidDecrefShrinks(p, g, h);
    ShrinksKeepsNoChains(p, GidDecref(p, g, h).0);
    hide Ok, NoChains, GidDecref;
  }

  lemma UseGood(p: Pool, h: Handle, r: IdMap)
    requires Good(p) && IsActive(p, h) && r.lidRefs >= 0 && r.gidRefs >= 0 && (r.lidRefs > 0 || r.gidRefs > 0)
    requires h in p.recs && r.lid == p.recs[h].lid && r.gid == p.recs[h].gid && r.indirect == p.recs[h].indirect
    ensures Good(SetRec(p, h, r)) && IsActive(SetRec(p, h, r), h)
  {
    SetRecOk(p, h, r);
    ShrinksKeepsNoChains(p, SetRec(p, h, r));
  }

  /** What setting up an indirection does to the two records once the new one is active. */
  function Link(q: Pool, h: Handle, x: Handle): Pool
    requires h in q.recs && x in q.recs
  {
    IncrGid(IncrGid(SetRec(q, x, q.recs[x].(remapped := true)), h), x)
  }

  lemma UseAgain(p: Pool, h: Handle, y: Handle)
    requires Good(p) && IsActive(p, h) && h in p.recs && IsActive(p, y)
    requires p.recs[h].lidRefs >= 0 && p.recs[h].gidRefs >= 0
    ensures Good(IncrGid(p, h)) && IsActive(IncrGid(p, h), y) && |IncrGid(p, h).active| == |p.active|
  {
    UseGood(p, h, p.recs[h].(gidRefs := p.recs[h].gidRefs + 1));
    SameActive(p, IncrGid(p, h));
  }

  lemma LinkGood(q: Pool, h: Handle, x: Handle)
    requires Good(q) && IsActive(q, h) && IsActive(q, x) && h in q.recs && x in q.recs && !q.recs[x].indirect
    ensures Good(Link(q, h, x)) && |Link(q, h, x).active| == |q.active|
  {
    assert forall y :: y in q.recs ==> q.recs[y].lidRefs >= 0 && q.recs[y].gidRefs >= 0;
    assert q.recs[x].lidRefs > 0 || q.recs[x].gidRefs > 0;
    hide Ok, NoChains, IsActive;
    var q1 := SetRec(q, x, q.recs[x].(remapped := true));
    UseGood(q, x, q.recs[x].(remapped := true));
    SameActive(q, q1);
    UseAgain(q1, h, x);
    UseAgain(IncrGid(q1, h), x, x);
  }

  lemma ForwardGood(p: Pool, g: nat, x: Handle, gid: Id, unused: Handle)
    requires Good(p) && Enabled(p, Forward(g, x, gid, unused))
    ensures Good(Step(p, Forward(g, x, gid, unused)))
    ensures |Step(p, Forward(g, x, gid, unused)).active| == |p.active|
  {
    AddOk(p, g, p.recs[x].gid, gid, true, unused);
    AddKeepsNoChainsIff(p, g, p.recs[x].gid, gid, true, unused);
    var (q, h) := Add(p, g, p.recs[x].gid, gid, true, unused);
    assert x in q.active[g] && h in q.active[g] && IsActive(p, x) && IsActive(q, x) && IsActive(q, h);
    hide Ok, NoChains, IsActive, Add;
    LinkGood(q, h, x);
  }

  ghost predicate ValidRun(p: Pool, ops: seq<Op>)
    requires Good(p)
    decreases |ops|
  {
    ops == [] || (Enabled(p, ops[0]) && (StepGood(p, ops[0]); ValidRun(Step(p, ops[0]), ops[1..])))
  }

  ghost function After(p: Pool, ops: seq<Op>): Pool
    requires Good(p) && ValidRun(p, ops)
    decreases |ops|
  {
    if ops == [] then p else StepGood(p, ops[0]); After(Step(p, ops[0]), ops[1..])
  }

  lemma {:induction false} RunGood(p: Pool, ops: seq<Op>)
    requires Good(p) && ValidRun(p, ops)
    ensures Good(After(p, ops)) && |After(p, ops).active| == |p.active|
    decreases |ops|
  {
    if ops != [] {
      StepGood(p, ops[0]);
      RunGood(Step(p, ops[0]), ops[1..]);
    }
  }

  function Empty(groups: nat): Pool {
    Pool(map[], seq(groups, _ => []), [])
  }

  /** Over every run each record is on exactly one list, counts stay non-negative, direct records are
      active exactly while used, and an indirect record forwards only to direct ones. */
  lemma PoolRuns(groups: nat, ops: seq<Op>)
    requires Good(Empty(groups)) && ValidRun(Empty(groups), ops)
    ensures var p := After(Empty(groups), ops);
            && OneList(p) && Counted(p)
            && forall g, h :: 0 <= g < |p.active| && h in p.active[g] ==> TargetDirect(p, g, h)
  {
    RunGood(Empty(groups), ops);
    var p := After(Empty(groups), ops);
    forall g, h | 0 <= g < |p.active| && h in p.active[g] ensures TargetDirect(p, g, h) {
      NoChainsTargetDirect(p, g, h);
    }
  }

  lemma EmptyGood(groups: nat)
    ensures Good(Empty(groups))
  {
  }

  const FIRST := Pool(map[0 := IdMap(1, 10, 1, 0, false, false)], [[0]], [])
  const SECOND := Pool(map[0 := IdMap(1, 10, 1, 0, false, false), 1 := IdMap(3, 30, 1, 0, false, false)], [[1, 0]], [])

  lemma FirstStep()
    ensures Good(Empty(1)) && Enabled(Empty(1), New(0, 1, 10, 0)) && Step(Empty(1), New(0, 1, 10, 0)) == FIRST
  {
    EmptyGood(1);
    var a: seq<Handle> := [];
    assert [0] + a == [0] && ([0] + a)[1..] == a;
    assert Empty(1).active == [a] && [a][0 := [0]] == [[0]];
  }

  lemma SecondStep()
    requires Good(FIRST)
    ensures Enabled(FIRST, New(0, 3, 30, 1)) && Step(FIRST, New(0, 3, 30, 1)) == SECOND
  {
    var r: seq<Handle> := [];
    assert [1] + [0] == [1, 0] && ([1] + r)[1..] == r && FIRST.active[0 := [1, 0]] == [[1, 0]];
  }

  lemma ThirdStep()
    requires Good(SECOND)
    ensures Enabled(SECOND, Forward(0, 0, 20, 2)) && Step(SECOND, Forward(0, 0, 20, 2)) == Forwarding()
  {
    ThirdAdd();
    assert Link(THIRD, 2, 0) == Forwarding();
    hide Add, Good;
  }

  const THIRD := Pool(SECOND.recs[2 := IdMap(10, 20, 1, 0, true, false)], [[2, 1, 0]], [])

  lemma ThirdAdd()
    ensures Add(SECOND, 0, 10, 20, true, 2) == (THIRD, 2)
  {
    var r: seq<Handle> := [];
    assert [2] + [1, 0] == [2, 1, 0] && ([2] + r)[1..] == r;
    assert SECOND.active[0 := [2, 1, 0]] == [[2, 1, 0]];
    LastUpdate(SECOND.recs, 2, IdMap(0, 0, 0, 0, false, false), IdMap(10, 20, 1, 0, true, false));
  }

  lemma Prepend(p: Pool, op: Op, ops: seq<Op>)
    requires Good(p) && Enabled(p, op) && Good(Step(p, op)) && ValidRun(Step(p, op), ops)
    ensures ValidRun(p, [op] + ops) && After(p, [op] + ops) == After(Step(p, op), ops)
  {
    assert ([op] + ops)[1..] == ops;
    hide Good, Enabled, Step;
  }

  /** The pool of the counterexample is reached by two new maps and one indirection. */
  lemma ForwardingReached() returns (ops: seq<Op>)
    ensures Good(Empty(1)) && ValidRun(Empty(1), ops) && After(Empty(1), ops) == Forwarding()
  {
    hide Good, Enabled, Step, Forwarding;
    FirstStep();
    StepGood(Empty(1), New(0, 1, 10, 0));
    SecondStep();
    StepGood(FIRST, New(0, 3, 30, 1));
    ThirdStep();
    StepGood(SECOND, Forward(0, 0, 20, 2));
    ops := [];
    Prepend(SECOND, Forward(0, 0, 20, 2), ops);
    ops := [Forward(0, 0, 20, 2)] + ops;
    Prepend(FIRST, New(0, 3, 30, 1), ops);
    ops := [New(0, 3, 30, 1)] + ops;
    Prepend(Empty(1), New(0, 1, 10, 0), ops);
    ops := [New(0, 1, 10, 0)] + ops;
  }
}
