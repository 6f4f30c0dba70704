/**
 The id map lists of a device, updated in place, with each operation proved against its pure step.
 */
module IdMapTable {
  import opened Wrappers
  import opened IdPool

  class IdMaps {
    var recs: map<Handle, IdMap>
    var active: seq<seq<Handle>>
    var reserve: seq<Handle>

    ghost function Value(): Pool
      reads this
    {
      Pool(recs, active, reserve)
    }

    ghost predicate Valid()
      reads this
    {
      && (forall g, h :: 0 <= g < |active| && h in active[g] ==> h in recs)
      && (forall h :: h in reserve ==> h in recs)
    }

    constructor (groups: nat)
      ensures Valid() && Value() == Empty(groups)
    {
      recs, active, reserve := map[], seq(groups, _ => []), [];
    }

    method ReserveIdMap(unused: Handle)
      requires Valid() && unused !in recs
      modifies this
      ensures Valid() && Value() == Reserve(old(Value()), unused)
    {
      recs := recs[unused := IdMap(0, 0, 0, 0, false, false)];
      reserve := [unused] + reserve;
    }

    method AddIdMap(g: nat, lid: Id, gid: Id, indirect: bool, unused: Handle) returns (h: Handle)
      requires Valid() && g < |active| && unused !in recs
      modifies this
      ensures Valid() && (Value(), h) == Add(old(Value()), g, lid, gid, indirect, unused)
    {
      if reserve == [] {
        ReserveIdMap(unused);
      }
      h := reserve[0];
      recs := recs[h := IdMap(lid, gid, 1, 0, indirect, recs[h].remapped)];
      reserve := reserve[1..];
      active := active[g := [h] + active[g]];
    }

    /** Walk the active list and relink the record, if found, to the reserve. */
    method RemoveIdMap(g: nat, h: Handle)
      requires Valid() && g < |active|
      modifies this
      ensures Valid() && Value() == Remove(old(Value()), g, h)
    {
      var list := active[g];
      var i := 0;
      while i < |list|
        invariant 0 <= i <= |list| && h !in list[..i] && Value() == old(Value())
      {
        if list[i] == h {
          WithoutAt(list, i);
          active := active[g := list[..i] + list[i + 1..]];
          reserve := [h] + reserve;
          return;
        }
        i := i + 1;
      }
      assert list[..i] == list;
    }

    static lemma {:induction false} WithoutAt(list: seq<Handle>, i: nat)
      requires i < |list| && list[i] !in list[..i]
      ensures Without(list, list[i]) == list[..i] + list[i + 1..]
      decreases i
    {
      if i > 0 {
        assert list[..i][0] == list[0] && list[1..][..i - 1] == list[..i][1..];
        WithoutAt(list[1..], i - 1);
        assert [list[0]] + list[1..][..i - 1] == list[..i];
      }
    }

    method GetByGid(g: nat, gid: Id) returns (r: Option<Handle>)
      requires Valid() && g < |active|
      ensures r == FindGid(recs, active[g], gid)
    {
      var list := active[g];
      var i := 0;
      while i < |list|
        invariant 0 <= i <= |list| && FindGid(recs, list[i..], gid) == FindGid(recs, list, gid)
      {
        if recs[list[i]].gid == gid {
          return Some(list[i]);
        }
        i := i + 1;
      }
      r := None;
    }

    method GetByLid(g: nat, lid: Id) returns (r: Option<Handle>)
      requires Valid() && g < |active|
      ensures r == FindLid(recs, active[g], lid)
    {
      var list := active[g];
      var i := 0;
      while i < |list|
        invariant 0 <= i <= |list| && FindLid(recs, list[i..], lid) == FindLid(recs, list, lid)
      {
        if recs[list[i]].lid == lid && recs[list[i]].lidRefs > 0 {
          return Some(list[i]);
        }
        i := i + 1;
      }
      r := None;
    }

    method LidDecref(g: nat, h: Handle) returns (moved: bool)
      requires Valid() && g < |active| && h in recs
      modifies this
      ensures Valid() && (Value(), moved) == IdPool.LidDecref(old(Value()), g, h)
    {
      ghost var was := recs;
      recs := recs[h := recs[h].(lidRefs := recs[h].lidRefs - 1)];
      moved := false;
      if recs[h].lidRefs <= 0 {
        LastUpdate(was, h, recs[h], recs[h].(lidRefs := 0));
        recs := recs[h := recs[h].(lidRefs := 0)];
        if recs[h].gidRefs <= 0 {
          RemoveIdMap(g, h);
          moved := true;
        }
      }
    }

    method GidDecref(g: nat, h: Handle) returns (moved: bool)
      requires Valid() && g < |active| && h in recs && TargetDirect(Value(), g, h)
      modifies this
      ensures Valid() && (Value(), moved) == IdPool.GidDecref(old(Value()), g, h)
      decreases recs[h].indirect
    {
      ghost var p := Value();
      recs := recs[h := recs[h].(gidRefs := recs[h].gidRefs - 1)];
      moved := false;
      if recs[h].gidRefs <= 0 {
        LastUpdate(p.recs, h, recs[h], recs[h].(gidRefs := 0));
        recs := recs[h := recs[h].(gidRefs := 0)];
        if recs[h].lidRefs <= if recs[h].indirect then 1 else 0 {
          if recs[h].indirect {
            SameTarget(p, g, h, recs[h]);
            var target := GetByGid(g, recs[h].lid);
            assert target == Target(p, g, h);
            if target.Some? {
              assert !p.recs[target.value].indirect && target.value != h;
              recs := recs[target.value := recs[target.value].(remapped := false)];
              var _ := GidDecref(g, target.value);
            }
          }
          RemoveIdMap(g, h);
          moved := true;
        }
      }
    }
  }
}
