/**
 The reference counts over whole runs: those of an active record are what the operations since it became
 active leave, counted from the operations themselves.
 */
module IdCounts {
  import opened Wrappers
  import opened IdPool

  datatype Refs = Refs(lid: int, gid: int)

  /** The record that the next addition activates. */
  function Activated(p: Pool, unused: Handle): Handle {
    if p.reserve == [] then unused else p.reserve[0]
  }

  /** The operation drops the last remote reference of an indirect record whose target is h. */
  ghost predicate ReleasesFor(p: Pool, op: Op, h: Handle)
    requires Good(p) && Enabled(p, op)
  {
    && op.DropGid? && op.h in p.recs && p.recs[op.h].indirect && p.recs[op.h].gidRefs <= 1 && p.recs[op.h].lidRefs <= 1
    && FirstWithGid(p, op.group, p.recs[op.h].lid, h)
  }

  /** h is the first record of its group with the given GID. */
  ghost predicate FirstWithGid(p: Pool, g: nat, gid: Id, h: Handle)
    requires g < |p.active|
  {
    exists i :: && 0 <= i < |p.active[g]| && p.active[g][i] == h && h in p.recs && p.recs[h].gid == gid
                && forall j :: 0 <= j < i ==> p.active[g][j] in p.recs && p.recs[p.active[g][j]].gid != gid
  }

  /** What one operation makes of the counts of record h. */
  ghost function Counted(p: Pool, op: Op, h: Handle, r: Refs): Refs
    requires Good(p) && Enabled(p, op)
  {
    match op
    case New(_, _, _, unused) => if h == Activated(p, unused) then Refs(1, 0) else r
    case Forward(_, x, _, unused) =>
      if h == Activated(p, unused) then Refs(1, 1) else if h == x then Refs(r.lid, r.gid + 1) else r
    case UseLid(_, x) => if h == x then Refs(r.lid + 1, r.gid) else r
    case UseGid(_, x) => if h == x then Refs(r.lid, r.gid + 1) else r
    case DropLid(_, x) => if h == x then Refs(if r.lid <= 1 then 0 else r.lid - 1, r.gid) else r
    case DropGid(_, x) =>
      if h == x || ReleasesFor(p, op, h) then Refs(r.lid, if r.gid <= 1 then 0 else r.gid - 1) else r
  }

  ghost function Tally(p: Pool, ops: seq<Op>, h: Handle, r: Refs): Refs
    requires Good(p) && ValidRun(p, ops)
    decreases |ops|
  {
    if ops == [] then r else
    StepGood(p, ops[0]);
    Tally(Step(p, ops[0]), ops[1..], h, Counted(p, ops[0], h, r))
  }

  ghost predicate Agrees(p: Pool, h: Handle, r: Refs) {
    IsActive(p, h) ==> h in p.recs && p.recs[h].lidRefs == r.lid && p.recs[h].gidRefs == r.gid
  }

  lemma NewAgrees(p: Pool, g: nat, lid: Id, gid: Id, indirect: bool, unused: Handle, h: Handle, r: Refs)
    requires Ok(p) && g < |p.active| && unused !in p.recs && Agrees(p, h, r)
    ensures var (q, x) := Add(p, g, lid, gid, indirect, unused);
            && x == Activated(p, unused) && Agrees(q, h, if h == x then Refs(1, 0) else r)
  {
    AddOk(p, g, lid, gid, indirect, unused);
    var (q, x) := Add(p, g, lid, gid, indirect, unused);
    hide Ok, Good;
    if h != x && IsActive(q, h) {
      var f :| 0 <= f < |q.active| && h in q.active[f];
      assert h in p.active[f];
      assert IsActive(p, h);
    }
  }

  /** Setting up an indirection marks the target as remapped and gives both records a remote user. */
  lemma ForwardMeaning(p: Pool, g: nat, x: Handle, gid: Id, unused: Handle)
    requires Good(p) && Enabled(p, Forward(g, x, gid, unused))
    ensures var q, h := Step(p, Forward(g, x, gid, unused)), Activated(p, unused);
            && h in q.recs && h != x && q.active == p.active[g := [h] + p.active[g]]
            && q.recs[h].lid == p.recs[x].gid && q.recs[h].gid == gid && q.recs[h].indirect
            && q.recs[h].lidRefs == 1 && q.recs[h].gidRefs == 1
            && x in q.recs && q.recs[x] == p.recs[x].(remapped := true, gidRefs := p.recs[x].gidRefs + 1)
            && forall y :: y in p.recs && y != h && y != x ==> y in q.recs && q.recs[y] == p.recs[y]
  {
    AddOk(p, g, p.recs[x].gid, gid, true, unused);
    assert IsActive(p, x);
    hide Ok, NoChains;
  }

  lemma ForwardAgrees(p: Pool, g: nat, x: Handle, gid: Id, unused: Handle, h: Handle, r: Refs)
    requires Good(p) && Enabled(p, Forward(g, x, gid, unused)) && Agrees(p, h, r)
    ensures Agrees(Step(p, Forward(g, x, gid, unused)), h, Counted(p, Forward(g, x, gid, unused), h, r))
  {
    ForwardMeaning(p, g, x, gid, unused);
    var q := Step(p, Forward(g, x, gid, unused));
    assert IsActive(p, x);
    ActiveInPool(p, h);
    hide Step, Good, Ok;
    if h != Activated(p, unused) && IsActive(q, h) {
      var f :| 0 <= f < |q.active| && h in q.active[f];
      assert h in p.active[f];
      assert IsActive(p, h);
    }
  }

  lemma ActiveInPool(p: Pool, h: Handle)
    requires Good(p)
    ensures IsActive(p, h) ==> h in p.recs
  {
  }

  lemma DropLidAgrees(p: Pool, g: nat, x: Handle, h: Handle, r: Refs)
    requires Good(p) && Enabled(p, DropLid(g, x)) && Agrees(p, h, r)
    ensures Agrees(Step(p, DropLid(g, x)), h, Counted(p, DropLid(g, x), h, r))
  {
    LidDecrefOk(p, g, x);
    assert IsActive(p, x);
    hide Ok, Good, LidDecref;
  }

  lemma TargetIsFirst(p: Pool, g: nat, x: Handle, h: Handle)
    requires Good(p) && g < |p.active| && x in p.active[g] && x in p.recs
    requires forall y :: y in p.active[g] ==> y in p.recs
    ensures FirstWithGid(p, g, p.recs[x].lid, h) <==> Target(p, g, x) == Some(h)
  {
    FindIsFirst(p.recs, p.active[g], p.recs[x].lid, h);
  }

  lemma {:induction false} FindIsFirst(recs: map<Handle, IdMap>, list: seq<Handle>, gid: Id, h: Handle)
    requires forall y :: y in list ==> y in recs
    ensures (exists i :: 0 <= i < |list| && list[i] == h && recs[h].gid == gid
                         && forall j :: 0 <= j < i ==> recs[list[j]].gid != gid)
            <==> FindGid(recs, list, gid) == Some(h)
  {
    if i :| 0 <= i < |list| && list[i] == h && recs[h].gid == gid
            && forall j :: 0 <= j < i ==> recs[list[j]].gid != gid {
      FindGidFirst(recs, list, gid, i);
    }
    if FindGid(recs, list, gid) == Some(h) {
      var i := FirstPosition(recs, list, gid);
      FindGidFirst(recs, list, gid, i);
    }
  }

  /** Position of the first record with the GID. */
  function FirstPosition(recs: map<Handle, IdMap>, list: seq<Handle>, gid: Id): (i: nat)
    requires (forall y :: y in list ==> y in recs) && exists y :: y in list && recs[y].gid == gid
    ensures i < |list| && recs[list[i]].gid == gid && forall j :: 0 <= j < i ==> recs[list[j]].gid != gid
  {
    if recs[list[0]].gid == gid then 0 else 1 + FirstPosition(recs, list[1..], gid)
  }

  lemma DropGidRecs(p: Pool, g: nat, x: Handle, h: Handle)
    requires Good(p) && g < |p.active| && x in p.active[g] && h in p.recs && TargetDirect(p, g, x)
    ensures var q := GidDecref(p, g, x).0;
            && h in q.recs && q.recs[h].lidRefs == p.recs[h].lidRefs
            && q.recs[h].gidRefs == if h == x || (ReleasesIndirect(p, x) && Target(p, g, x) == Some(h))
                                    then if p.recs[h].gidRefs <= 1 then 0 else p.recs[h].gidRefs - 1
                                    else p.recs[h].gidRefs
  {
    assert forall y :: y in p.active[g] ==> y in p.recs;
    hide Ok, GidDecref, Target, NoChains, TargetDirect;
    if !p.recs[x].indirect {
      GidDecrefDirect(p, g, x);
    } else if ReleasesIndirect(p, x) {
      ReleaseRecs(p, g, x, h);
    } else {
      GidDecrefOk(p, g, x);
    }
  }

  lemma ReleaseRecs(p: Pool, g: nat, x: Handle, h: Handle)
    requires Good(p) && g < |p.active| && x in p.active[g] && h in p.recs && TargetDirect(p, g, x)
    requires (forall y :: y in p.active[g] ==> y in p.recs) && ReleasesIndirect(p, x)
    ensures var q := GidDecref(p, g, x).0;
            && h in q.recs && q.recs[h].lidRefs == p.recs[h].lidRefs
            && q.recs[h].gidRefs == if h == x || Target(p, g, x) == Some(h)
                                    then if p.recs[h].gidRefs <= 1 then 0 else p.recs[h].gidRefs - 1
                                    else p.recs[h].gidRefs
  {
    NotOwnTarget(p, g, x);
    GidDecrefIndirect(p, g, x);
    hide *;
  }

  lemma NotOwnTarget(p: Pool, g: nat, x: Handle)
    requires Good(p) && g < |p.active| && x in p.active[g] && TargetDirect(p, g, x) && ReleasesIndirect(p, x)
    ensures Target(p, g, x) != Some(x) && p.recs[x].gidRefs >= 0
  {
  }

  lemma DropGidAgrees(p: Pool, g: nat, x: Handle, h: Handle, r: Refs)
    requires Good(p) && Enabled(p, DropGid(g, x)) && Agrees(p, h, r)
    ensures Agrees(Step(p, DropGid(g, x)), h, Counted(p, DropGid(g, x), h, r))
  {
    NoChainsTargetDirect(p, g, x);
    GidDecrefShrinks(p, g, x);
    TargetIsFirst(p, g, x, h);
    assert IsActive(p, x);
    ActiveInPool(p, h);
    ActiveInPool(p, x);
    if h in p.recs { DropGidRecs(p, g, x, h); }
    StaysActive(p, GidDecref(p, g, x).0, h);
    hide Good, GidDecref, Target, FirstWithGid, TargetDirect, Shrinks, IsActive, ReleasesIndirect;
  }

  lemma StaysActive(p: Pool, q: Pool, h: Handle)
    requires Shrinks(p, q)
    ensures IsActive(q, h) ==> IsActive(p, h)
  {
    if IsActive(q, h) {
      var f :| 0 <= f < |q.active| && h in q.active[f];
      assert h in p.active[f];
    }
  }

  lemma StepAgrees(p: Pool, op: Op, h: Handle, r: Refs)
    requires Good(p) && Enabled(p, op) && Agrees(p, h, r)
    ensures Agrees(Step(p, op), h, Counted(p, op, h, r))
  {
    hide Ok, NoChains, Agrees;
    match op
    case New(g, lid, gid, unused) => NewAgrees(p, g, lid, gid, false, unused, h, r);
    case Forward(g, x, gid, unused) => ForwardAgrees(p, g, x, gid, unused, h, r);
    case UseLid(g, x) => UseAgrees(p, op, x, h, r);
    case UseGid(g, x) => UseAgrees(p, op, x, h, r);
    case DropLid(g, x) => DropLidAgrees(p, g, x, h, r);
    case DropGid(g, x) => DropGidAgrees(p, g, x, h, r);
  }

  lemma UseAgrees(p: Pool, op: Op, x: Handle, h: Handle, r: Refs)
    requires Good(p) && Enabled(p, op) && Agrees(p, h, r) && (op == UseLid(op.group, x) || op == UseGid(op.group, x))
    ensures Agrees(Step(p, op), h, Counted(p, op, h, r))
  {
    assert IsActive(p, x);
    SameActive(p, Step(p, op));
    hide Ok, NoChains;
  }

  lemma {:induction false} TallyAgrees(p: Pool, ops: seq<Op>, h: Handle, r: Refs)
    requires Good(p) && ValidRun(p, ops) && Agrees(p, h, r)
    ensures Agrees(After(p, ops), h, Tally(p, ops, h, r))
    decreases |ops|
  {
    hide Good, Agrees, Counted, Enabled, Step;
    if ops != [] {
      StepGood(p, ops[0]);
      StepAgrees(p, ops[0], h, r);
      TallyAgrees(Step(p, ops[0]), ops[1..], h, Counted(p, ops[0], h, r));
    }
  }

  /** In every run the counts of each active record are what the additions, uses and drops since it became
      active leave: none is forgotten, none is dropped twice. */
  lemma CountsAreTallied(groups: nat, ops: seq<Op>, h: Handle)
    requires Good(Empty(groups)) && ValidRun(Empty(groups), ops) && IsActive(After(Empty(groups), ops), h)
    ensures var p := After(Empty(groups), ops);
            h in p.recs && Refs(p.recs[h].lidRefs, p.recs[h].gidRefs) == Tally(Empty(groups), ops, h, Refs(0, 0))
  {
    TallyAgrees(Empty(groups), ops, h, Refs(0, 0));
  }
}
