/**
 Runs of the /map, /mapTo, /mapped negotiation between the two endpoints of a map.  Messages in flight
 may be delivered in any order; users may ask for the map, create, change, push or refresh it at any time,
 links come up, and signal metadata arrives on its own.
 */
module MapHandshake {
  import opened Wrappers
  import opened MapEndpoint

  /** An occasion on which an endpoint looked at its record: a delivery, or a push by its user; `before` is
      the endpoint as it was. */
  datatype Event =
    | Got(at: Role, msg: Msg, context: Context, before: Endpoint)
    | Pushed(at: Role, before: Endpoint)

  /** `log` lists what has happened to the records so far. */
  datatype State = State(src: Endpoint, dst: Endpoint, net: seq<Msg>, log: seq<Event>)

  datatype Action =
    | Deliver(index: nat, context: Context)
    | Request(meta: bool, version: Option<nat>)
    | Modify(version: Option<nat>)
    | Create(at: Role)
    | Edit(at: Role)
    | Push(at: Role)
    | Refresh(at: Role)
    | LinkUp(at: Role)
    | SignalInfo(at: Role, slot: nat)
    | Publish(at: Role)

  /** The action takes place at one end. */
  predicate Internal(a: Action) {
    !a.Deliver? && !a.Request? && !a.Modify?
  }

  function End(s: State, r: Role): Endpoint {
    if r == Source then s.src else s.dst
  }

  function Set(s: State, r: Role, e: Endpoint): State {
    if r == Source then s.(src := e) else s.(dst := e)
  }

  function Target(m: Msg): Role {
    if m.Map? then Destination else m.to
  }

  ghost predicate IsNew(e: Endpoint, r: Role) {
    && e.role == r && e.slots != [] && !e.here && !e.ready && !e.active && !e.pushed && e.version == 0
    && forall s :: s in e.slots ==> s.devKnown && (s.isLocal ==> s.sigKnown)
  }

  ghost predicate Initial(s: State) {
    IsNew(s.src, Source) && IsNew(s.dst, Destination) && s.net == [] && s.log == []
  }

  ghost predicate Shape(s: State) {
    && s.src.role == Source && s.dst.role == Destination && s.src.slots != [] && s.dst.slots != []
  }

  ghost predicate Enabled(s: State, a: Action) {
    match a
    case Deliver(k, _) => k < |s.net|
    case Request(_, _) => true
    case Modify(_) => true
    case Create(r) => !End(s, r).here
    case Edit(r) => End(s, r).here
    case Push(r) => End(s, r).here
    case Refresh(r) => End(s, r).here
    case LinkUp(r) => !Linked(End(s, r))
    case SignalInfo(r, k) => k < |End(s, r).slots|
    case Publish(r) => End(s, r).here && End(s, r).ready
  }

  function Without(net: seq<Msg>, k: nat): seq<Msg>
    requires k < |net|
  {
    net[..k] + net[k + 1..]
  }

  function Receive(s: State, k: nat, c: Context): State
    requires k < |s.net| && s.src.slots != [] && s.dst.slots != []
  {
    var m := s.net[k];
    var r := Target(m);
    var (e, out) := Handle(End(s, r), m, c);
    Set(s, r, e).(net := Without(s.net, k) + out, log := s.log + [Got(r, m, c, End(s, r))])
  }

  /** What one end does by itself, and what it sends. */
  function Act(e: Endpoint, a: Action): (Endpoint, seq<Msg>)
    requires Internal(a) && e.role == a.at && (a.SignalInfo? ==> a.slot < |e.slots|)
  {
    var peer := Other(e.role);
    match a
    case Create(_) => (e.(here := true), [])
    case Edit(_) => (e.(version := e.version + 1), [])
    case Push(_) => PushRecord(e)
    case Refresh(_) => (e.(pushed := true), [MapTo(peer, true, e.version), MapTo(e.role, false, e.version)])
    case LinkUp(_) =>
      if e.here then (Link(e).(pushed := true), [MapTo(peer, true, e.version)]) else (Link(e), [])
    case SignalInfo(_, k) => (e.(slots := e.slots[k := LearnSlot(e.slots[k])]), [])
    case Publish(_) => (e, [Mapped(peer, false, e)])
  }

  function ActAt(s: State, a: Action): State
    requires Internal(a) && End(s, a.at).role == a.at
    requires a.SignalInfo? ==> a.slot < |End(s, a.at).slots|
  {
    var (e, out) := Act(End(s, a.at), a);
    Set(s, a.at, e).(net := s.net + out, log := if a.Push? then s.log + [Pushed(a.at, End(s, a.at))] else s.log)
  }

  ghost function Next(s: State, a: Action): State
    requires Shape(s) && Enabled(s, a)
    ensures Shape(Next(s, a))
  {
    hide UpdateStatus, AllKnown, Linked, SetFromMsg;
    match a
    case Deliver(k, c) => HandleShape(End(s, Target(s.net[k])), s.net[k], c); Receive(s, k, c)
    case Request(meta, v) => s.(net := s.net + [Map(meta, v)])
    case Modify(v) => s.(net := s.net + [MapMod(Source, v), MapMod(Destination, v)])
    case _ => ActAt(s, a)
  }

  lemma SetShape(e: Endpoint, meta: bool, v: Option<nat>, c: Context)
    ensures var f := SetFromMsg(e, meta, v, c);
            && f.role == e.role && |f.slots| == |e.slots| && f.here == e.here && f.active == e.active
            && f.pushed == e.pushed && (e.ready ==> f.ready)
  {
  }

  lemma HandleShape(e: Endpoint, m: Msg, c: Context)
    requires e.slots != []
    ensures Handle(e, m, c).0.role == e.role && |Handle(e, m, c).0.slots| == |e.slots|
  {
    forall f: Endpoint, meta, v ensures var g := SetFromMsg(f, meta, v, c); g.role == f.role && |g.slots| == |f.slots| {
      SetShape(f, meta, v, c);
    }
    hide SetFromMsg, AllKnown, Linked, Outdated;
  }

  ghost predicate ValidRun(s: State, acts: seq<Action>)
    requires Shape(s)
    decreases |acts|
  {
    acts == [] || (Enabled(s, acts[0]) && ValidRun(Next(s, acts[0]), acts[1..]))
  }

  ghost function After(s: State, acts: seq<Action>): State
    requires Shape(s) && ValidRun(s, acts)
    ensures Shape(After(s, acts))
    decreases |acts|
  {
    if acts == [] then s else After(Next(s, acts[0]), acts[1..])
  }

  // ---------- safety: ACTIVE only after a READY peer's /mapped ----------

  /** The message was sent to r by r's peer, with that peer READY and all its slots known. */
  predicate FromReadyPeer(m: Msg, r: Role) {
    m.Mapped? && m.to == r && m.sender.role == Other(r) && m.sender.ready && AllKnown(m.sender.slots)
  }

  ghost predicate HeardReadyPeer(s: State, r: Role) {
    exists ev :: ev in s.log && ev.Got? && ev.at == r && FromReadyPeer(ev.msg, r)
  }

  ghost predicate Sane(e: Endpoint) {
    && (e.ready ==> e.pushed && AllKnown(e.slots)) && (e.active ==> e.ready)
    && (e.pushed ==> e.here) && (!e.here ==> e.version == 0)
  }

  ghost predicate EndOk(s: State, r: Role) {
    var e := End(s, r);
    && e.role == r && e.slots != [] && Sane(e)
    && (e.active ==> End(s, Other(r)).ready && HeardReadyPeer(s, r))
  }

  ghost predicate Inv(s: State) {
    && EndOk(s, Source) && EndOk(s, Destination)
    && (forall m :: m in s.net && m.Mapped? ==> FromReadyPeer(m, m.to) && End(s, Other(m.to)).ready)
  }

  /** What one handler call guarantees to the endpoint, and about what it sends. */
  ghost predicate Keeps(e: Endpoint, e': Endpoint, out: seq<Msg>) {
    && e'.role == e.role && |e'.slots| == |e.slots| && Sane(e') && Linked(e') == Linked(e)
    && (e.here ==> e'.here) && (e.pushed ==> e'.pushed) && (e.ready ==> e'.ready) && (e.active ==> e'.active)
    && (forall o :: o in out ==> o.Mapped? || o.MapTo? || o.MapMod?)
    && (forall o :: o in out && o.Mapped? ==> e'.ready && o.to == Other(e.role) && o.sender == e')
  }

  lemma SetKeeps(e: Endpoint, meta: bool, v: Option<nat>, c: Context)
    requires e.ready ==> AllKnown(e.slots)
    ensures var f := SetFromMsg(e, meta, v, c);
            && f.role == e.role && |f.slots| == |e.slots| && f.here == e.here && f.active == e.active
            && f.pushed == e.pushed && (e.ready ==> f.ready) && (f.ready ==> AllKnown(f.slots))
            && Linked(f) == Linked(e)
  {
    LearnKeeps(e);
    hide AllKnown, Learn;
  }

  lemma MapKeeps(e: Endpoint, meta: bool, v: Option<nat>, c: Context)
    requires e.slots != [] && Sane(e)
    ensures var (e', out) := HandleMap(e, meta, v, c); Keeps(e, e', out) && e'.active == e.active
  {
    SetKeeps(e.(here := true), meta, v, c);
    SetKeeps(e.(here := true), false, v, c);
    KnownIsLinked(SetFromMsg(e.(here := true), meta, v, c));
    hide AllKnown, Learn, Linked, SetFromMsg;
  }

  lemma MapToKeeps(e: Endpoint, meta: bool, v: nat, c: Context)
    requires e.slots != [] && Sane(e)
    ensures var (e', out) := HandleMapTo(e, meta, v, c); Keeps(e, e', out) && e'.active == e.active
  {
    SetKeeps(e.(here := true), meta, Some(v), c);
    hide AllKnown, Learn, Linked, SetFromMsg;
  }

  lemma MappedKeeps(e: Endpoint, withSig: bool, v: nat, c: Context)
    requires e.slots != [] && Sane(e)
    ensures var (e', out) := HandleMapped(e, withSig, v, c); Keeps(e, e', out)
  {
    LearnKeeps(e);
    SetKeeps(e, true, Some(v), c);
    SetKeeps(Learn(e), true, Some(v), c);
    hide AllKnown, Linked, SetFromMsg;
  }

  lemma HandleKeeps(e: Endpoint, m: Msg, c: Context)
    requires e.slots != [] && Sane(e)
    ensures var (e', out) := Handle(e, m, c);
            Keeps(e, e', out) && (e'.active && !e.active ==> m.Mapped?)
  {
    match m
    case Map(meta, v) => MapKeeps(e, meta, v, c);
    case MapTo(_, meta, v) => MapToKeeps(e, meta, v, c);
    case Mapped(_, withSig, sender) => MappedKeeps(e, withSig, sender.version, c);
    case MapMod(_, v) =>
      if e.here { ModKeeps(e, v, c); } else { MapKeeps(e, c.apply, v, c); }
  }

  lemma ModKeeps(e: Endpoint, v: Option<nat>, c: Context)
    requires e.slots != [] && Sane(e) && e.here
    ensures var (e', out) := HandleMapMod(e, v, c); Keeps(e, e', out) && e'.active == e.active
  {
    SetKeeps(e, false, v, c);
    hide AllKnown, Learn, Linked, SetFromMsg;
  }

  lemma KnownIsLinked(e: Endpoint)
    ensures AllKnown(e.slots) ==> Linked(e)
  {
    if AllKnown(e.slots) {
      forall s | s in e.slots ensures s.isLocal || s.linkKnown {
        assert MetadataOk(s);
      }
    }
  }

  lemma LearnKeeps(e: Endpoint)
    ensures Learn(e) == e.(slots := Learn(e).slots) && |Learn(e).slots| == |e.slots|
    ensures AllKnown(e.slots) ==> AllKnown(Learn(e).slots)
    ensures Linked(e) == Linked(Learn(e))
  {
    var f := Learn(e);
    if AllKnown(e.slots) {
      forall s | s in f.slots ensures MetadataOk(s) {
        var i :| 0 <= i < |f.slots| && f.slots[i] == s;
        assert e.slots[i] in e.slots;
      }
    }
    if Linked(e) {
      forall s | s in f.slots ensures s.isLocal || s.linkKnown {
        var i :| 0 <= i < |f.slots| && f.slots[i] == s;
        assert e.slots[i] in e.slots;
      }
    } else {
      var i :| 0 <= i < |e.slots| && !(e.slots[i].isLocal || e.slots[i].linkKnown);
      assert f.slots[i] in f.slots;
    }
  }

  lemma LinkKeeps(e: Endpoint)
    ensures AllKnown(e.slots) ==> AllKnown(Link(e).slots)
    ensures Linked(Link(e))
  {
    var f := Link(e);
    forall s | s in f.slots ensures s.isLocal || s.linkKnown {
      var i :| 0 <= i < |f.slots| && f.slots[i] == s;
    }
    if AllKnown(e.slots) {
      forall s | s in f.slots ensures MetadataOk(s) {
        var i :| 0 <= i < |f.slots| && f.slots[i] == s;
        assert e.slots[i] in e.slots;
      }
    }
  }

  /** The same for what an end does by itself. */
  lemma ActKeeps(s: State, a: Action)
    requires Shape(s) && Inv(s) && Enabled(s, a) && Internal(a)
    ensures var e := End(s, a.at); var (e', out) := Act(e, a);
            && e'.role == e.role && |e'.slots| == |e.slots| && Sane(e') && (e.here ==> e'.here)
            && (e.pushed ==> e'.pushed) && (e.ready ==> e'.ready) && e'.active == e.active
            && (forall o :: o in out && o.Mapped? ==> e'.ready && o.to == Other(e.role) && o.sender == e')
  {
    var e := End(s, a.at);
    LinkKeeps(e);
    if a.SignalInfo? {
      var f := Act(e, a).0;
      forall x | x in f.slots && AllKnown(e.slots) ensures MetadataOk(x) {
        assert e.slots[a.slot] in e.slots;
      }
    }
  }

  lemma InvNext(s: State, a: Action)
    requires Shape(s) && Inv(s) && Enabled(s, a)
    ensures Inv(Next(s, a))
  {
    hide Handle, Act, AllKnown;
    var t := Next(s, a);
    var r: Role;
    var out: seq<Msg>;
    if a.Deliver? {
      r := Target(s.net[a.index]);
      HandleKeeps(End(s, r), s.net[a.index], a.context);
      out := Handle(End(s, r), s.net[a.index], a.context).1;
      assert t.net == Without(s.net, a.index) + out;
      assert t.log[|s.log|] == Got(r, s.net[a.index], a.context, End(s, r));
      assert s.net[a.index] in s.net;
    } else if a.Request? {
      out := [Map(a.meta, a.version)];
      assert t.net == s.net + out;
    } else if a.Modify? {
      out := [MapMod(Source, a.version), MapMod(Destination, a.version)];
      assert t.net == s.net + out;
    } else {
      ActKeeps(s, a);
      out := Act(End(s, a.at), a).1;
      assert t.net == s.net + out;
    }
    forall x | x in t.net && x.Mapped? ensures FromReadyPeer(x, x.to) && End(t, Other(x.to)).ready {
      assert x in s.net || x in out;
    }
    forall p | HeardReadyPeer(s, p) ensures HeardReadyPeer(t, p) {
      var ev :| ev in s.log && ev.Got? && ev.at == p && FromReadyPeer(ev.msg, p);
      assert ev in t.log;
    }
  }

  lemma {:induction false} InvRun(s: State, acts: seq<Action>)
    requires Shape(s) && Inv(s) && ValidRun(s, acts)
    ensures Inv(After(s, acts))
    decreases |acts|
  {
    if acts != [] {
      InvNext(s, acts[0]);
      InvRun(Next(s, acts[0]), acts[1..]);
    }
  }

  /** In every run an endpoint is ACTIVE only if it is READY itself and has been delivered a /mapped that
      its peer sent while READY, with every slot's metadata known. */
  lemma ActiveOnlyAfterReadyPeer(s: State, acts: seq<Action>, r: Role)
    requires Initial(s) && ValidRun(s, acts) && End(After(s, acts), r).active
    ensures var t := After(s, acts); End(t, r).ready && AllKnown(End(t, r).slots) && HeardReadyPeer(t, r)
  {
    InvRun(s, acts);
  }

  // ---------- termination: deliveries alone come to an end ----------

  /** Cost of a message still to be delivered, for a map with the given number of sources. */
  function Weight(m: Msg, sources: nat): nat {
    match m
    case Mapped(_, _, _) => 1
    case MapTo(_, _, _) => 2
    case MapMod(_, _) => 3
    case Map(_, _) => 3 * sources + 3
  }

  function Total(net: seq<Msg>, sources: nat): nat {
    if net == [] then 0 else Weight(net[0], sources) + Total(net[1..], sources)
  }

  function Dormant(e: Endpoint): nat {
    if e.active then 0 else 1
  }

  function Measure(s: State): nat
    requires s.dst.slots != []
  {
    Total(s.net, |s.dst.slots| - 1) + Dormant(s.src) + Dormant(s.dst)
  }

  lemma {:induction false} TotalConcat(a: seq<Msg>, b: seq<Msg>, sources: nat)
    ensures Total(a + b, sources) == Total(a, sources) + Total(b, sources)
  {
    if a == [] {
      assert a + b == b;
    } else {
      TotalConcat(a[1..], b, sources);
      assert (a + b)[1..] == a[1..] + b;
    }
  }

  lemma TotalWithout(net: seq<Msg>, k: nat, sources: nat)
    requires k < |net|
    ensures Total(Without(net, k), sources) + Weight(net[k], sources) == Total(net, sources)
  {
    TotalConcat(net[..k], net[k + 1..], sources);
    TotalConcat(net[..k], net[k..], sources);
    assert net == net[..k] + net[k..] && net[k..][1..] == net[k + 1..];
  }

  lemma {:induction false} TotalRepeat(net: seq<Msg>, m: Msg, sources: nat)
    requires forall i :: 0 <= i < |net| ==> net[i] == m
    ensures Total(net, sources) == |net| * Weight(m, sources)
  {
    if net != [] {
      TotalRepeat(net[1..], m, sources);
    }
  }

  /** What a handler sends, and the dormancy it ends, costs less than the message it consumed. */
  lemma HandleCost(e: Endpoint, m: Msg, c: Context, sources: nat)
    requires e.slots != [] && Sane(e)
    requires e.role == Target(m) && (e.role == Destination ==> sources == |e.slots| - 1)
    ensures var (e', out) := Handle(e, m, c);
            Total(out, sources) + Dormant(e') < Weight(m, sources) + Dormant(e)
  {
    var (e', out) := Handle(e, m, c);
    if m.Map? && e.active && !c.inCharge {
      TotalRepeat(out, MapMod(Source, m.version), sources);
    } else {
      assert |out| <= 1;
      assert out != [] ==> Total(out, sources) == Weight(out[0], sources) + Total([], sources);
    }
  }

  lemma DeliveryLowersMeasure(s: State, k: nat, c: Context)
    requires Shape(s) && Inv(s) && k < |s.net|
    ensures |Receive(s, k, c).dst.slots| == |s.dst.slots|
    ensures Measure(Receive(s, k, c)) < Measure(s)
  {
    var m, sources := s.net[k], |s.dst.slots| - 1;
    var (e, out) := Handle(End(s, Target(m)), m, c);
    HandleKeeps(End(s, Target(m)), m, c);
    HandleCost(End(s, Target(m)), m, c, sources);
    TotalWithout(s.net, k, sources);
    TotalConcat(Without(s.net, k), out, sources);
  }

  /** The negotiation goes quiet: left alone, a reachable state admits at most `Measure` deliveries. */
  lemma {:induction false} DeliveriesAreBounded(s: State, acts: seq<Action>)
    requires Shape(s) && Inv(s) && ValidRun(s, acts)
    requires forall a :: a in acts ==> a.Deliver?
    ensures |acts| <= Measure(s)
    decreases |acts|
  {
    if acts != [] {
      assert acts[0] in acts;
      DeliveryLowersMeasure(s, acts[0].index, acts[0].context);
      InvNext(s, acts[0]);
      DeliveriesAreBounded(Next(s, acts[0]), acts[1..]);
    }
  }
}
