/**
 What each handshake message and each push makes of a record and sends, and that a modification that one end
 accepts reaches the other.
 */
module MapModify {
  import opened Wrappers
  import opened MapEndpoint
  import opened MapHandshake

  /** The version of a record that has taken over the properties of a message. */
  function Taken(e: Endpoint, v: Option<nat>, c: Context): nat {
    if v.Some? then v.value else if c.bumps then e.version + 1 else e.version
  }

  // ---------- modifications ----------

  /** The end in charge of an active map takes over a modification that is not older than its record, and tells
      its peer exactly when that has changed something. */
  lemma ModificationTaken(e: Endpoint, v: Option<nat>, c: Context)
    requires e.here && e.active && e.ready && c.inCharge && !(v.Some? && v.value < e.version)
    ensures var (f, out) := HandleMapMod(e, v, c);
            && f == e.(version := if v.Some? then v.value else if c.bumps then e.version + 1 else e.version)
            && out == if c.changes || c.bumps || f.version != e.version then [Mapped(Other(e.role), false, f)] else []
  {
  }

  /** Any other modification changes and sends nothing. */
  lemma ModificationIgnored(e: Endpoint, v: Option<nat>, c: Context)
    requires e.here && !(e.active && c.inCharge && !(v.Some? && v.value < e.version))
    ensures HandleMapMod(e, v, c) == (e, [])
  {
  }

  /** A request for a map that is active at its destination is a modification, if the destination is in charge,
      and else goes on to the source, once for each of its slots; at the source it is ignored. */
  lemma RequestForActive(e: Endpoint, meta: bool, v: Option<nat>, c: Context)
    requires e.slots != [] && e.here && e.active && e.ready
    ensures var (f, out) := HandleMap(e, meta, v, c);
            && (e.role == Source ==> f == e && out == [])
            && (e.role == Destination && !c.inCharge ==>
                  f == e && |out| == |e.slots| - 1 && forall o :: o in out ==> o == MapMod(Source, v))
            && (e.role == Destination && c.inCharge && !(v.Some? && v.value < e.version) ==>
                  && f == e.(version := if v.Some? then v.value else if c.bumps then e.version + 1 else e.version)
                  && out == if c.changes || c.bumps || f.version != e.version
                            then [Mapped(Source, false, f)] else [])
            && (e.role == Destination && c.inCharge && v.Some? && v.value < e.version ==> f == e && out == [])
  {
    if c.inCharge && !(v.Some? && v.value < e.version) {
      ModificationTaken(e, v, c);
    } else if c.inCharge {
      ModificationIgnored(e, v, c);
    }
    hide HandleMapMod;
  }

  // ---------- the negotiation ----------

  /** A request makes an inactive destination hold the map, take over the request's version unless it is
      outdated, and ask the source, once there is a link. */
  lemma RequestForInactive(e: Endpoint, meta: bool, v: Option<nat>, c: Context)
    requires e.slots != [] && e.role == Destination && !e.active
    ensures var (f, out) := HandleMap(e, meta, v, c);
            && f.here && !f.active && f.pushed == (e.pushed || Linked(e))
            && f.version == (if v.Some? && v.value < e.version then e.version else Taken(e, v, c))
            && out == if Linked(e) then [MapTo(Source, true, f.version)] else []
  {
    SetKeepsLinks(e.(here := true), meta, v, c);
    assert Linked(e.(here := true)) == Linked(e);
    hide Linked, AllKnown;
  }

  lemma SetKeepsLinks(e: Endpoint, meta: bool, v: Option<nat>, c: Context)
    ensures Linked(SetFromMsg(e, meta, v, c)) == Linked(e)
  {
    LearnKeeps(e);
    hide AllKnown;
  }

  /** Asked by its peer, an end holds the map, takes over the version unless it is active or the message is
      outdated, and answers with its record exactly when that is ready. */
  lemma Asked(e: Endpoint, meta: bool, v: nat, c: Context)
    ensures var (f, out) := HandleMapTo(e, meta, v, c);
            && f.here && f.active == e.active && f.pushed == (e.pushed || f.ready)
            && f.version == (if e.active || v < e.version then e.version else v)
            && out == if f.ready then [Mapped(Other(e.role), true, f)] else []
  {
    hide AllKnown;
  }

  /** A peer's confirmation makes a record that is ready active, once, and is answered then; its version is
      taken over unless it is outdated or the properties are not to be applied. */
  lemma Confirmed(e: Endpoint, withSig: bool, v: nat, c: Context)
    ensures var (f, out) := HandleMapped(e, withSig, v, c);
            && f.here == e.here && f.version == (if e.here && c.apply && v >= e.version then v else e.version)
            && (f.active <==> e.active || (e.here && f.ready)) && f.pushed == (e.pushed || (f.active && !e.active))
            && out == if f.active && !e.active then [Mapped(Other(e.role), false, f)] else []
  {
    hide AllKnown;
  }

  /** A push raises the version, and sends a modification to both ends or a request. */
  lemma Pushes(e: Endpoint)
    ensures var (f, out) := PushRecord(e);
            && f.version == e.version + 1 && f.pushed && f.active == e.active && f.here == e.here
            && (f.ready <==> e.ready || (!e.active && AllKnown(e.slots)))
            && out == if e.active then [MapMod(Source, Some(f.version)), MapMod(Destination, Some(f.version))]
                      else [Map(e.role == Source, Some(f.version))]
  {
    hide AllKnown;
  }

  /** Everything about every slot is known: its device, its signal and, unless it is local, its link. */
  predicate KnowsAll(e: Endpoint) {
    forall i :: 0 <= i < |e.slots| ==>
      e.slots[i].devKnown && e.slots[i].sigKnown && (e.slots[i].isLocal || e.slots[i].linkKnown)
  }

  lemma KnowsAllIff(e: Endpoint)
    ensures AllKnown(e.slots) <==> KnowsAll(e)
  {
    if AllKnown(e.slots) {
      forall i | 0 <= i < |e.slots| ensures MetadataOk(e.slots[i]) {
        assert e.slots[i] in e.slots;
      }
    }
  }

  lemma LinkedIff(e: Endpoint)
    ensures Linked(e) <==> forall i :: 0 <= i < |e.slots| ==> e.slots[i].isLocal || e.slots[i].linkKnown
  {
    if Linked(e) {
      forall i | 0 <= i < |e.slots| ensures e.slots[i].isLocal || e.slots[i].linkKnown {
        assert e.slots[i] in e.slots;
      }
    }
  }

  /** The peer's metadata concerns its own signals: it becomes known for every remote slot, and nothing else. */
  lemma MetadataArrives(e: Endpoint)
    ensures Learn(e) == e.(slots := Learn(e).slots) && |Learn(e).slots| == |e.slots|
    ensures forall i :: 0 <= i < |e.slots| ==>
              && Learn(e).slots[i].sigKnown == (e.slots[i].sigKnown || !e.slots[i].isLocal)
              && Learn(e).slots[i] == e.slots[i].(sigKnown := Learn(e).slots[i].sigKnown)
  {
  }

  /** A check of the status makes a record READY exactly when everything is known, and changes nothing else. */
  lemma StatusChecked(e: Endpoint)
    ensures UpdateStatus(e) == e.(ready := e.ready || KnowsAll(e))
  {
    KnowsAllIff(e);
    hide AllKnown;
  }

  /** In every run a record that is READY knows everything about its slots. */
  lemma ReadyKnowsAll(s0: State, acts: seq<Action>, r: Role)
    requires Initial(s0) && ValidRun(s0, acts) && End(After(s0, acts), r).ready
    ensures KnowsAll(End(After(s0, acts), r))
  {
    InvRun(s0, acts);
    KnowsAllIff(End(After(s0, acts), r));
    hide AllKnown;
  }

  // ---------- an accepted modification reaches the peer ----------

  lemma SetGrows(e: Endpoint, meta: bool, v: Option<nat>, c: Context)
    ensures SetFromMsg(e, meta, v, c).version >= e.version
  {
    hide AllKnown;
  }

  lemma HandleVersionGrows(e: Endpoint, m: Msg, c: Context)
    requires e.slots != []
    ensures Handle(e, m, c).0.version >= e.version
  {
    var f, v := e.(here := true), VersionOf(m);
    match m {
      case Map(meta, _) =>
        SetGrows(f, meta, v, c);
        SetGrows(f, false, v, c);
      case MapTo(_, meta, _) => Asked(e, meta, v.value, c);
      case Mapped(_, withSig, _) => Confirmed(e, withSig, v.value, c);
      case MapMod(_, _) =>
        SetGrows(f, c.apply, v, c);
        SetGrows(e, false, v, c);
        SetGrows(f, false, v, c);
    }
    hide AllKnown, Linked, SetFromMsg, HandleMapTo, HandleMapped;
  }

  lemma VersionGrows(s: State, a: Action, r: Role)
    requires Shape(s) && Enabled(s, a)
    ensures End(Next(s, a), r).version >= End(s, r).version
  {
    if a.Deliver? { HandleVersionGrows(End(s, Target(s.net[a.index])), s.net[a.index], a.context); }
    hide Handle, AllKnown, Linked;
  }

  /** r has the version, or a confirmation with it is on its way there. */
  ghost predicate Reaching(s: State, r: Role, v: nat) {
    End(s, r).version >= v || exists m :: m in s.net && m.Mapped? && m.to == r && m.sender.version >= v
  }

  /** Confirmations delivered at r are applied there: r's peer owns the properties. */
  ghost predicate Applied(s: State, acts: seq<Action>, r: Role)
    requires Shape(s) && ValidRun(s, acts)
    decreases |acts|
  {
    acts == [] || ((acts[0].Deliver? && s.net[acts[0].index].Mapped? && s.net[acts[0].index].to == r ==>
                      acts[0].context.apply)
                   && Applied(Next(s, acts[0]), acts[1..], r))
  }

  lemma ReachingNext(s: State, a: Action, r: Role, v: nat)
    requires Shape(s) && Inv(s) && Enabled(s, a) && Reaching(s, r, v) && End(s, r).here
    requires a.Deliver? && s.net[a.index].Mapped? && s.net[a.index].to == r ==> a.context.apply
    ensures Reaching(Next(s, a), r, v) && End(Next(s, a), r).here
  {
    var t := Next(s, a);
    VersionGrows(s, a, r);
    if a.Deliver? {
      var m := s.net[a.index];
      HandleKeeps(End(s, Target(m)), m, a.context);
      if m.Mapped? { Confirmed(End(s, m.to), m.withSig, m.sender.version, a.context); }
    } else if Internal(a) {
      ActKeeps(s, a);
    }
    hide Handle, HandleMapped, Act, Inv, AllKnown, Linked;
    if End(t, r).version < v {
      var m :| m in s.net && m.Mapped? && m.to == r && m.sender.version >= v;
      assert a.Deliver? ==> m in Without(s.net, a.index);
      assert m in t.net;
    }
  }

  lemma {:induction false} ReachingRun(s: State, acts: seq<Action>, r: Role, v: nat)
    requires Shape(s) && Inv(s) && ValidRun(s, acts) && Reaching(s, r, v) && End(s, r).here && Applied(s, acts, r)
    ensures Reaching(After(s, acts), r, v)
    decreases |acts|
  {
    hide Inv, Reaching, Next, Enabled;
    if acts != [] {
      InvNext(s, acts[0]);
      ReachingNext(s, acts[0], r, v);
      ReachingRun(Next(s, acts[0]), acts[1..], r, v);
    }
  }

  /** In every run, once the end in charge of an active map has accepted a modification, both ends have that
      version or a newer one when all is quiet. */
  lemma ModificationArrives(s0: State, acts: seq<Action>, k: nat, c: Context, more: seq<Action>)
    requires Initial(s0) && ValidRun(s0, acts)
    requires var s := After(s0, acts);
             && k < |s.net| && s.net[k].MapMod? && c.inCharge
             && var e, v := End(s, s.net[k].to), s.net[k].version;
                && e.active && !(v.Some? && v.value < e.version)
                && (c.changes || c.bumps || (v.Some? && v.value != e.version))
    requires var s := After(s0, acts); var t := Next(s, Deliver(k, c));
             ValidRun(t, more) && Applied(t, more, Other(s.net[k].to)) && After(t, more).net == []
    ensures var s := After(s0, acts); var u := After(Next(s, Deliver(k, c)), more);
            var version := Taken(End(s, s.net[k].to), s.net[k].version, c);
            u.src.version >= version && u.dst.version >= version
  {
    InvRun(s0, acts);
    var s := After(s0, acts);
    var t, m := Next(s, Deliver(k, c)), s.net[k];
    var e := End(s, m.to);
    InvNext(s, Deliver(k, c));
    ModificationTaken(e, m.version, c);
    var version := Taken(e, m.version, c);
    var f := e.(version := version);
    assert t.net == Without(s.net, k) + [Mapped(Other(m.to), false, f)];
    assert Mapped(Other(m.to), false, f) in t.net;
    hide Inv, HandleMapMod, Next, Applied;
    StaysReaching(t, more, m.to, version);
    ReachingRun(t, more, Other(m.to), version);
  }

  lemma {:induction false} StaysReaching(s: State, acts: seq<Action>, r: Role, v: nat)
    requires Shape(s) && ValidRun(s, acts) && End(s, r).version >= v
    ensures End(After(s, acts), r).version >= v
    decreases |acts|
  {
    hide Next, Enabled;
    if acts != [] {
      VersionGrows(s, acts[0], r);
      StaysReaching(Next(s, acts[0]), acts[1..], r, v);
    }
  }
}
