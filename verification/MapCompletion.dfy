/**
 When a negotiation that has gone quiet has succeeded.  A delivery is wasted when the message is older than
 the record: then not even the status of the record is checked.
 */
module MapCompletion {
  import opened Wrappers
  import opened MapEndpoint
  import opened MapHandshake

  /** The endpoint has a record of the map and its link is up. */
  predicate Armed(e: Endpoint) {
    e.here && Linked(e)
  }

  predicate Grounded(e: Endpoint) {
    forall s :: s in e.slots ==> s.devKnown && (s.isLocal ==> s.sigKnown)
  }

  // ---------- what was discarded ----------

  /** The handler looks at the record's properties. */
  predicate Examines(e: Endpoint, m: Msg) {
    match m
    case Map(_, _) => e.role == Destination
    case MapTo(_, _, _) => true
    case Mapped(_, _, _) => e.here
    case MapMod(_, _) => !e.here && e.role == Destination
  }

  predicate Brings(m: Msg, c: Context) {
    match m
    case Map(meta, _) => meta
    case MapTo(_, meta, _) => meta
    case Mapped(_, withSig, _) => withSig || c.apply
    case MapMod(_, _) => c.apply
  }

  /** Message and record together know everything about all slots. */
  predicate Known(ev: Event) {
    match ev
    case Got(_, m, c, e) => Examines(e, m) && AllKnown((if Brings(m, c) then Learn(e) else e).slots)
    case Pushed(_, e) => AllKnown(e.slots)
  }

  /** The message was older than the record and its properties were to be taken over. */
  predicate Discarded(ev: Event) {
    ev.Got? && Outdated(ev.before, VersionOf(ev.msg)) && !(ev.msg.Mapped? && !ev.context.apply)
  }

  /** The end has looked at its record when everything was known, without a discarded message in hand. */
  ghost predicate Checked(s: State, r: Role) {
    exists ev :: ev in s.log && ev.at == r && Known(ev) && !Discarded(ev)
  }

  ghost predicate ReadyIsChecked(s: State) {
    (s.src.ready <==> Checked(s, Source)) && (s.dst.ready <==> Checked(s, Destination))
  }

  lemma LearnCompletes(e: Endpoint)
    requires Grounded(e) && Linked(e)
    ensures AllKnown(Learn(e).slots)
  {
    var f := Learn(e);
    forall s | s in f.slots ensures MetadataOk(s) {
      var i :| 0 <= i < |f.slots| && f.slots[i] == s;
      assert e.slots[i] in e.slots;
    }
  }

  lemma LearnKeepsGrounded(e: Endpoint)
    requires Grounded(e)
    ensures Grounded(Learn(e)) && Grounded(Link(e))
  {
    forall s | s in Learn(e).slots || s in Link(e).slots ensures s.devKnown && (s.isLocal ==> s.sigKnown) {
      var i :| 0 <= i < |e.slots| && (Learn(e).slots[i] == s || Link(e).slots[i] == s);
      assert e.slots[i] in e.slots;
    }
  }

  lemma LearnTwice(e: Endpoint)
    ensures Learn(Learn(e)) == Learn(e)
  {
  }

  /** A handler makes the endpoint READY exactly when the message counts. */
  lemma HandleReady(e: Endpoint, m: Msg, c: Context)
    requires e.slots != [] && Sane(e) && e.role == Target(m)
    ensures var ev := Got(e.role, m, c, e);
            Handle(e, m, c).0.ready <==> e.ready || (Known(ev) && !Discarded(ev))
  {
    LearnTwice(e);
    LearnKeeps(e);
    var f := e.(here := true);
    assert Learn(f).slots == Learn(e).slots;
    hide AllKnown, Linked, Learn;
  }

  lemma CheckedNext(s: State, a: Action)
    requires Shape(s) && Inv(s) && Enabled(s, a) && ReadyIsChecked(s)
    ensures ReadyIsChecked(Next(s, a))
  {
    hide Known, Discarded, Handle, UpdateStatus;
    var t := Next(s, a);
    forall r: Role ensures End(t, r).ready <==> Checked(t, r) {
      if a.Deliver? && r == Target(s.net[a.index]) {
        var m := s.net[a.index];
        HandleReady(End(s, r), m, a.context);
        LogGrows(s, t, Got(r, m, a.context, End(s, r)), r);
      } else if a.Deliver? {
        LogGrows(s, t, Got(Other(r), s.net[a.index], a.context, End(s, Other(r))), r);
      } else if a.Push? {
        PushReady(End(s, a.at));
        LogGrows(s, t, Pushed(a.at, End(s, a.at)), r);
      } else {
        assert t.log == s.log && End(t, r).ready == End(s, r).ready;
      }
    }
    assert End(t, Source).ready <==> Checked(t, Source);
    assert End(t, Destination).ready <==> Checked(t, Destination);
  }

  lemma PushReady(e: Endpoint)
    requires Sane(e) && e.here
    ensures PushRecord(e).0.ready <==> e.ready || Known(Pushed(e.role, e))
    ensures !Discarded(Pushed(e.role, e))
  {
  }

  lemma LogGrows(s: State, t: State, ev: Event, r: Role)
    requires t.log == s.log + [ev]
    ensures Checked(t, r) <==> Checked(s, r) || (ev.at == r && Known(ev) && !Discarded(ev))
  {
    assert t.log[|s.log|] == ev;
    forall x | x in s.log ensures x in t.log { }
  }

  // ---------- something helpful is always in flight, or was discarded ----------

  /** A message that makes its receiver answer or activate, whatever the receiver already knew, unless it
      is discarded. */
  predicate Helps(m: Msg) {
    m.Map? || (m.MapTo? && m.meta) || (m.Mapped? && m.withSig)
  }

  predicate Wakes(m: Msg, r: Role) {
    m.Mapped? && m.to == r
  }

  /** A message that would have made a record READY was discarded, and nothing has made it READY since. */
  ghost predicate Snubbed(s: State) {
    exists ev :: ev in s.log && Known(ev) && Discarded(ev) && !End(s, ev.at).ready
  }

  ghost predicate HelpUnderWay(net: seq<Msg>) {
    exists m :: m in net && Helps(m)
  }

  ghost predicate WakeUnderWay(net: seq<Msg>, r: Role) {
    exists m :: m in net && Wakes(m, r)
  }

  /** A request for the map is on its way to r. */
  ghost predicate CallUnderWay(net: seq<Msg>, r: Role) {
    exists m :: m in net && (m.Map? || (m.MapTo? && m.meta && m.to == r))
  }

  /** Both ends have a record and a link, at least one has spoken, and none is active. */
  ghost predicate Negotiating(s: State) {
    Armed(s.src) && Armed(s.dst) && !s.src.active && !s.dst.active && (s.src.pushed || s.dst.pushed)
  }

  ghost predicate Progress(s: State) {
    && (Negotiating(s) ==> HelpUnderWay(s.net) || Snubbed(s))
    && (forall r :: End(s, r).active && !End(s, Other(r)).active ==> WakeUnderWay(s.net, Other(r)))
    && (forall r :: !End(s, r).here && Armed(End(s, Other(r))) && End(s, Other(r)).pushed ==> CallUnderWay(s.net, r))
    && (forall m :: m in s.net && m.MapTo? ==>
          if m.meta then End(s, Other(m.to)).here else End(s, m.to).pushed)
    && Grounded(s.src) && Grounded(s.dst)
  }

  /** How a handler drives the negotiation forward. */
  ghost predicate Advances(e: Endpoint, ev: Event, e': Endpoint, out: seq<Msg>)
    requires ev.Got?
  {
    && Grounded(e')
    && (Helps(ev.msg) && Armed(e) && !e.active && !e'.active ==>
          HelpUnderWay(out) || (Known(ev) && Discarded(ev) && !e'.ready))
    && (e'.ready && !e.ready && !e'.active ==> HelpUnderWay(out))
    && (e'.pushed && !e.pushed && !e'.active ==> HelpUnderWay(out))
    && (e'.here && !e.here && Linked(e) && (ev.msg.MapTo? ==> ev.msg.meta) ==> HelpUnderWay(out))
    && (e'.active && !e.active ==> WakeUnderWay(out, Other(e.role)))
    && (ev.msg.Mapped? && e.ready ==> e'.active)
    && (!e.active && e'.here && Linked(e) && (ev.msg.Map? || (ev.msg.MapMod? && !e.here)) ==>
          CallUnderWay(out, Source))
    && (ev.msg.MapMod? && e.here ==> e'.pushed == e.pushed)
    && (ev.msg.Map? || ev.msg.MapTo? ==> e'.here)
    && (forall o :: o in out && o.MapTo? ==> o.meta && o.to == Other(e.role) && e'.here)
  }

  lemma SetGrounded(e: Endpoint, meta: bool, v: Option<nat>, c: Context)
    requires Grounded(e)
    ensures Grounded(SetFromMsg(e, meta, v, c))
  {
    LearnKeepsGrounded(e);
    hide Learn, AllKnown, Outdated;
  }

  lemma MapAdvances(e: Endpoint, ev: Event)
    requires e.slots != [] && Grounded(e) && Sane(e) && e.role == Destination
    requires ev.Got? && ev.before == e && (ev.msg.Map? || (ev.msg.MapMod? && !e.here && !Helps(ev.msg)))
    ensures var meta := if ev.msg.Map? then ev.msg.meta else ev.context.apply;
            var (e', out) := HandleMap(e, meta, VersionOf(ev.msg), ev.context);
            Advances(e, ev, e', out)
  {
    var meta := if ev.msg.Map? then ev.msg.meta else ev.context.apply;
    var v, c, f := VersionOf(ev.msg), ev.context, e.(here := true);
    var g := SetFromMsg(f, meta, v, c);
    SetGrounded(f, meta, v, c);
    SetGrounded(f, false, v, c);
    SetKeeps(f, meta, v, c);
    KnownIsLinked(g);
    hide AllKnown, SetFromMsg, Known;
    var out := HandleMap(e, meta, v, c).1;
    assert !e.active && Linked(g) ==> out[0] == MapTo(Source, true, g.version) && out[0] in out;
  }

  lemma MapToAdvances(e: Endpoint, ev: Event)
    requires e.slots != [] && Grounded(e) && Sane(e) && ev.Got? && ev.before == e && ev.msg.MapTo?
    ensures var (e', out) := HandleMapTo(e, ev.msg.meta, ev.msg.asOf, ev.context);
            Advances(e, ev, e', out)
  {
    var m, c, f := ev.msg, ev.context, e.(here := true);
    SetGrounded(f, m.meta, Some(m.asOf), c);
    SetKeeps(f, m.meta, Some(m.asOf), c);
    if Linked(e) { LearnCompletes(e); }
    assert Learn(f).slots == Learn(e).slots;
    hide AllKnown, Linked, Learn, Grounded;
    var out := HandleMapTo(e, m.meta, m.asOf, c).1;
    assert out != [] ==> out[0] in out;
  }

  lemma MappedAdvances(e: Endpoint, ev: Event)
    requires e.slots != [] && Grounded(e) && Sane(e) && ev.Got? && ev.before == e && ev.msg.Mapped?
    ensures var (e', out) := HandleMapped(e, ev.msg.withSig, ev.msg.sender.version, ev.context);
            Advances(e, ev, e', out)
  {
    var m, c := ev.msg, ev.context;
    var v := Some(m.sender.version);
    LearnKeeps(e);
    LearnKeepsGrounded(e);
    SetGrounded(e, true, v, c);
    SetGrounded(Learn(e), true, v, c);
    if Linked(e) { LearnCompletes(e); }
    LearnTwice(e);
    hide AllKnown, Linked, Learn, Grounded;
    var out := HandleMapped(e, m.withSig, m.sender.version, c).1;
    assert out != [] ==> out[0] in out;
  }

  lemma HandleAdvances(e: Endpoint, m: Msg, c: Context)
    requires e.slots != [] && Grounded(e) && Sane(e) && e.role == Target(m)
    ensures var (e', out) := Handle(e, m, c); Advances(e, Got(e.role, m, c, e), e', out)
  {
    var ev := Got(e.role, m, c, e);
    match m
    case Map(_, _) => MapAdvances(e, ev);
    case MapTo(_, _, _) => MapToAdvances(e, ev);
    case Mapped(_, _, _) => MappedAdvances(e, ev);
    case MapMod(_, v) =>
      if e.here {
        SetGrounded(e, false, v, c);
        SetKeeps(e, false, v, c);
        hide AllKnown, SetFromMsg, Known, Grounded;
      } else if e.role == Destination {
        MapAdvances(e, ev);
      }
  }

  lemma UnderWayGrows(a: seq<Msg>, b: seq<Msg>)
    requires forall m :: m in a ==> m in b
    ensures HelpUnderWay(a) ==> HelpUnderWay(b)
    ensures forall r :: WakeUnderWay(a, r) ==> WakeUnderWay(b, r)
    ensures forall r :: CallUnderWay(a, r) ==> CallUnderWay(b, r)
  {
  }

  /** A discarded message stays unrepaired, or help is on its way. */
  lemma SnubbedStays(s: State, t: State, r: Role)
    requires Snubbed(s) && (forall ev :: ev in s.log ==> ev in t.log)
    requires End(t, Other(r)).ready == End(s, Other(r)).ready
    requires End(t, r).ready && !End(s, r).ready ==> HelpUnderWay(t.net)
    ensures Snubbed(t) || HelpUnderWay(t.net)
  {
    var ev :| ev in s.log && Known(ev) && Discarded(ev) && !End(s, ev.at).ready;
    assert ev in t.log;
  }

  /** Delivering a message that helps gives rise to another one, unless it is discarded. */
  lemma HelpKept(s: State, k: nat, c: Context)
    requires Shape(s) && Inv(s) && Progress(s) && k < |s.net| && Negotiating(Receive(s, k, c))
    ensures HelpUnderWay(Receive(s, k, c).net) || Snubbed(Receive(s, k, c))
  {
    var t, m := Receive(s, k, c), s.net[k];
    var r := Target(m);
    var e := End(s, r);
    var (e', out) := Handle(e, m, c);
    HandleKeeps(e, m, c);
    HandleAdvances(e, m, c);
    var ev := Got(r, m, c, e);
    assert m in s.net && t.log[|s.log|] == ev && ev in t.log;
    hide Handle, Known, Discarded, Grounded, Linked;
    UnderWayGrows(out, t.net);
    forall x | x in s.log ensures x in t.log { }
    if !HelpUnderWay(out) {
      assert Negotiating(s);
      if HelpUnderWay(s.net) {
        var w :| w in s.net && Helps(w);
        assert w != m ==> w in Without(s.net, k) && w in t.net;
      } else {
        SnubbedStays(s, t, r);
      }
    }
  }

  lemma WakeKept(s: State, k: nat, c: Context, p: Role)
    requires Shape(s) && Inv(s) && Progress(s) && k < |s.net|
    requires var t := Receive(s, k, c); End(t, p).active && !End(t, Other(p)).active
    ensures WakeUnderWay(Receive(s, k, c).net, Other(p))
  {
    var t, m := Receive(s, k, c), s.net[k];
    var r := Target(m);
    var e := End(s, r);
    var (e', out) := Handle(e, m, c);
    HandleKeeps(e, m, c);
    HandleAdvances(e, m, c);
    hide Handle, Known, Discarded, Grounded, Linked;
    UnderWayGrows(out, t.net);
    if End(s, p).active {
      var w :| w in s.net && Wakes(w, Other(p));
      assert w != m ==> w in Without(s.net, k) && w in t.net;
    }
  }

  lemma ProgressReceive(s: State, k: nat, c: Context)
    requires Shape(s) && Inv(s) && Progress(s) && k < |s.net|
    ensures Progress(Receive(s, k, c))
  {
    var t, m := Receive(s, k, c), s.net[k];
    var r := Target(m);
    var (e', out) := Handle(End(s, r), m, c);
    HandleKeeps(End(s, r), m, c);
    HandleAdvances(End(s, r), m, c);
    hide Handle, Known, Discarded, Grounded, Linked, Negotiating, HelpUnderWay, WakeUnderWay, CallUnderWay, Snubbed;
    if Negotiating(t) {
      HelpKept(s, k, c);
    }
    forall p | End(t, p).active && !End(t, Other(p)).active ensures WakeUnderWay(t.net, Other(p)) {
      WakeKept(s, k, c, p);
    }
    forall p | !End(t, p).here && Armed(End(t, Other(p))) && End(t, Other(p)).pushed ensures CallUnderWay(t.net, p) {
      CallKept(s, k, c, p);
    }
    forall x | x in t.net && x.MapTo?
      ensures if x.meta then End(t, Other(x.to)).here else End(t, x.to).pushed
    {
      assert x in s.net || x in out;
    }
  }

  /** While one end knows nothing of the map, a request for it stays under way. */
  lemma CallKept(s: State, k: nat, c: Context, p: Role)
    requires Shape(s) && Inv(s) && Progress(s) && k < |s.net|
    requires var t := Receive(s, k, c);
             !End(t, p).here && Armed(End(t, Other(p))) && End(t, Other(p)).pushed
    ensures CallUnderWay(Receive(s, k, c).net, p)
  {
    var t, m, q := Receive(s, k, c), s.net[k], Other(p);
    var r := Target(m);
    var e := End(s, r);
    var (e', out) := Handle(e, m, c);
    HandleKeeps(e, m, c);
    HandleAdvances(e, m, c);
    hide Handle, Known, Discarded, Grounded, Linked;
    UnderWayGrows(out, t.net);
    if r == p || (e.here && e.pushed) {
      var w :| w in s.net && (w.Map? || (w.MapTo? && w.meta && w.to == p));
      assert w != m ==> w in Without(s.net, k);
    } else {
      assert m in s.net;
    }
  }

  /** The action sends out a request for the map. */
  predicate Calls(e: Endpoint, a: Action) {
    a.Refresh? || (a.LinkUp? && e.here) || (a.Push? && !e.active)
  }

  lemma ActAdvances(s: State, a: Action)
    requires Shape(s) && Inv(s) && Enabled(s, a) && Internal(a) && Grounded(End(s, a.at))
    ensures var e := End(s, a.at); var (e', out) := Act(e, a);
            && Grounded(e') && (!a.LinkUp? ==> Linked(e') == Linked(e))
            && (Calls(e, a) ==> HelpUnderWay(out) && CallUnderWay(out, Other(a.at)))
            && (e'.ready && !e.ready ==> Calls(e, a)) && (e'.pushed && !e.pushed ==> Calls(e, a))
            && (e'.here && !e.here ==> a.Create?)
            && (forall o :: o in out && o.MapTo? ==>
                  if o.meta then o.to == Other(a.at) && e'.here else o.to == a.at && e'.pushed)
  {
    var e := End(s, a.at);
    var (e', out) := Act(e, a);
    ActGrounded(s, a);
    assert Calls(e, a) && !a.Push? ==> MapTo(Other(a.at), true, e.version) in out;
    assert Calls(e, a) && a.Push? ==> out[0] in out;
    hide Linked, Grounded, AllKnown;
  }

  lemma HelpAct(s: State, a: Action)
    requires Shape(s) && Inv(s) && Progress(s) && Enabled(s, a) && Internal(a) && Negotiating(ActAt(s, a))
    ensures HelpUnderWay(ActAt(s, a).net) || Snubbed(ActAt(s, a))
  {
    var t, r := ActAt(s, a), a.at;
    ActKeeps(s, a);
    ActAdvances(s, a);
    var out := Act(End(s, r), a).1;
    UnderWayGrows(out, t.net);
    UnderWayGrows(s.net, t.net);
    forall x | x in s.log ensures x in t.log { }
    hide Act, Known, Discarded, Grounded, Linked, HelpUnderWay, WakeUnderWay, CallUnderWay, Snubbed, Calls;
    if Calls(End(s, r), a) {
    } else if a.Create? {
      assert CallUnderWay(s.net, r);
      CallHelps(s.net, r);
    } else if a.LinkUp? {
      LinkUpCalls(End(s, r), a);
    } else if Snubbed(s) {
      SnubbedStays(s, t, r);
    }
  }

  lemma LinkUpCalls(e: Endpoint, a: Action)
    ensures a.LinkUp? && e.here ==> Calls(e, a)
  {
  }

  lemma CallAct(s: State, a: Action, p: Role)
    requires Shape(s) && Inv(s) && Progress(s) && Enabled(s, a) && Internal(a)
    requires var t := ActAt(s, a); !End(t, p).here && Armed(End(t, Other(p))) && End(t, Other(p)).pushed
    ensures CallUnderWay(ActAt(s, a).net, p)
  {
    var t, r := ActAt(s, a), a.at;
    var e := End(s, r);
    ActKeeps(s, a);
    ActAdvances(s, a);
    LinkUpCalls(e, a);
    var out := Act(e, a).1;
    UnderWayGrows(out, t.net);
    UnderWayGrows(s.net, t.net);
    hide Act, Grounded, Linked, CallUnderWay, HelpUnderWay, Calls;
    if r != p && !Calls(e, a) {
      assert e.pushed && e.here;
    }
  }

  lemma ProgressAct(s: State, a: Action)
    requires Shape(s) && Inv(s) && Progress(s) && Enabled(s, a) && Internal(a)
    ensures Progress(ActAt(s, a))
  {
    var t := ActAt(s, a);
    ActKeeps(s, a);
    ActAdvances(s, a);
    UnderWayGrows(s.net, t.net);
    if Negotiating(t) {
      HelpAct(s, a);
    }
    forall p | End(t, p).active && !End(t, Other(p)).active ensures WakeUnderWay(t.net, Other(p)) {
      assert End(s, p).active && !End(s, Other(p)).active;
    }
    forall p | !End(t, p).here && Armed(End(t, Other(p))) && End(t, Other(p)).pushed ensures CallUnderWay(t.net, p) {
      CallAct(s, a, p);
    }
    MapToAct(s, a);
    assert t.src == s.src || t.dst == s.dst;
    hide Act, ActAt, Linked, Negotiating, HelpUnderWay, WakeUnderWay, CallUnderWay, Snubbed, Calls, Inv, Grounded,
      Enabled;
  }

  lemma MapToAct(s: State, a: Action)
    requires Shape(s) && Inv(s) && Progress(s) && Enabled(s, a) && Internal(a)
    ensures var t := ActAt(s, a);
            forall m :: m in t.net && m.MapTo? ==> if m.meta then End(t, Other(m.to)).here else End(t, m.to).pushed
  {
    var t := ActAt(s, a);
    ActKeeps(s, a);
    ActAdvances(s, a);
    var out := Act(End(s, a.at), a).1;
    hide Act, Linked, Negotiating, HelpUnderWay, WakeUnderWay, CallUnderWay, Snubbed, Calls, Grounded, Enabled;
    forall m | m in t.net && m.MapTo? ensures if m.meta then End(t, Other(m.to)).here else End(t, m.to).pushed {
      assert m in s.net || m in out;
    }
  }

  lemma CallHelps(net: seq<Msg>, r: Role)
    requires CallUnderWay(net, r)
    ensures HelpUnderWay(net)
  {
    var m :| m in net && (m.Map? || (m.MapTo? && m.meta && m.to == r));
    assert Helps(m);
  }

  lemma ActGrounded(s: State, a: Action)
    requires Shape(s) && Enabled(s, a) && Internal(a) && Grounded(End(s, a.at))
    ensures var e := End(s, a.at);
            Grounded(Act(e, a).0) && (!a.LinkUp? ==> Linked(Act(e, a).0) == Linked(e))
  {
    var e := End(s, a.at);
    LearnKeepsGrounded(e);
    if a.SignalInfo? {
      SlotInfoKeeps(e, a.slot);
    }
  }

  /** Metadata arriving for one slot neither brings up a link nor takes knowledge away. */
  lemma SlotInfoKeeps(e: Endpoint, k: nat)
    requires k < |e.slots| && Grounded(e)
    ensures var f := e.(slots := e.slots[k := LearnSlot(e.slots[k])]);
            Grounded(f) && Linked(f) == Linked(e)
  {
    var f := e.(slots := e.slots[k := LearnSlot(e.slots[k])]);
    assert e.slots[k] in e.slots && f.slots[k] in f.slots;
    forall x | x in f.slots ensures x in e.slots || x == f.slots[k] { }
    if Linked(f) {
      forall x | x in e.slots ensures x.isLocal || x.linkKnown {
        var i :| 0 <= i < |e.slots| && e.slots[i] == x;
        assert f.slots[i] in f.slots;
      }
    }
  }

  lemma ProgressNext(s: State, a: Action)
    requires Shape(s) && Inv(s) && Progress(s) && Enabled(s, a)
    ensures Progress(Next(s, a))
  {
    match a
    case Deliver(k, c) => ProgressReceive(s, k, c);
    case Request(_, _) =>
      var t := Next(s, a);
      assert t.net[|s.net|].Map? && t.net[|s.net|] in t.net;
      UnderWayGrows(s.net, t.net);
      hide Linked, Grounded;
    case Modify(_) =>
      UnderWayGrows(s.net, Next(s, a).net);
      hide Linked, Grounded;
    case _ => ProgressAct(s, a);
  }

  lemma {:induction false} ProgressRun(s: State, acts: seq<Action>)
    requires Shape(s) && Inv(s) && Progress(s) && ReadyIsChecked(s) && ValidRun(s, acts)
    ensures Inv(After(s, acts)) && Progress(After(s, acts)) && ReadyIsChecked(After(s, acts))
    decreases |acts|
  {
    hide Progress, Inv, ReadyIsChecked;
    if acts != [] {
      InvNext(s, acts[0]);
      ProgressNext(s, acts[0]);
      CheckedNext(s, acts[0]);
      ProgressRun(Next(s, acts[0]), acts[1..]);
    }
  }

  /** Nothing is in flight, both ends hold the map with their link up, and at least one has spoken. */
  ghost predicate Quiet(s: State) {
    s.net == [] && Armed(s.src) && Armed(s.dst) && (s.src.pushed || s.dst.pushed)
  }

  /** A quiet negotiation has made both ends ACTIVE exactly when each end has looked at its record with
      everything known and no outdated message in hand; and if one has not, then because it discarded a
      message that would have told it all. */
  lemma CompleteIffChecked(s: State, acts: seq<Action>)
    requires Initial(s) && ValidRun(s, acts) && Quiet(After(s, acts))
    ensures var t := After(s, acts);
            && (t.src.active && t.dst.active <==> Checked(t, Source) && Checked(t, Destination))
            && (!(t.src.active && t.dst.active) ==>
                  exists ev :: ev in t.log && Known(ev) && Discarded(ev) && !Checked(t, ev.at))
  {
    ProgressRun(s, acts);
    var t := After(s, acts);
    hide Known, Discarded, Armed, ValidRun, After;
    assert End(t, Source).active && !End(t, Destination).active ==> WakeUnderWay(t.net, Destination);
    assert End(t, Destination).active && !End(t, Source).active ==> WakeUnderWay(t.net, Source);
    if !t.src.active && !t.dst.active {
      assert Snubbed(t);
    }
  }

  /** Without a discarded message, whatever the order of requests, links, metadata, changes and
      deliveries, the negotiation cannot stall half way. */
  lemma QuietMeansComplete(s: State, acts: seq<Action>)
    requires Initial(s) && ValidRun(s, acts) && Quiet(After(s, acts))
    requires forall ev :: ev in After(s, acts).log && Known(ev) ==> !Discarded(ev)
    ensures After(s, acts).src.active && After(s, acts).dst.active
  {
    CompleteIffChecked(s, acts);
  }

  const NEAR := Slot(true, true, true, false)
  const FAR := Slot(false, true, false, false)
  const LINKED := Slot(false, true, false, true)
  const KNOWN := Slot(false, true, true, true)
  const ANY := Context(true, true, false, false)

  /** A source that has answered a request of version 1. */
  const ANSWERED := Endpoint(Source, [NEAR, KNOWN], true, true, false, true, 1)

  function Waiting(slots: seq<Slot>, version: nat): Endpoint {
    Endpoint(Destination, slots, true, false, false, true, version)
  }

  /** Last leg: the source answers version 1, the destination is at version 2 and discards the answer. */
  lemma AnswerIsDiscarded(s: State) returns (acts: seq<Action>)
    requires s.src == Endpoint(Source, [NEAR, LINKED], false, false, false, false, 0)
    requires s.dst == Waiting([LINKED, NEAR], 2) && s.net == [MapTo(Source, true, 1)]
    ensures ValidRun(s, acts) && After(s, acts).src == ANSWERED && After(s, acts).net == []
    ensures After(s, acts).dst == Waiting([KNOWN, NEAR], 2)
  {
    assert Learn(s.src).slots == [NEAR, KNOWN] && AllKnown([NEAR, KNOWN]);
    var m := Mapped(Destination, true, ANSWERED);
    var t := s.(src := ANSWERED, net := [m], log := s.log + [Got(Source, s.net[0], ANY, s.src)]);
    assert Next(s, Deliver(0, ANY)) == t;
    assert Learn(t.dst) == Waiting([KNOWN, NEAR], 2);
    var u := t.(dst := Waiting([KNOWN, NEAR], 2), net := [], log := t.log + [Got(Destination, m, ANY, t.dst)]);
    assert Next(t, Deliver(0, ANY)) == u;
    hide Next;
    acts := [];
    Prepend(t, Deliver(0, ANY), acts);
    acts := [Deliver(0, ANY)] + acts;
    Prepend(s, Deliver(0, ANY), acts);
    acts := [Deliver(0, ANY)] + acts;
  }

  /** Middle leg: a request reaches the destination, whose user then changes the map. */
  lemma RequestIsOvertaken(s: State) returns (acts: seq<Action>)
    requires s.src == Endpoint(Source, [NEAR, LINKED], false, false, false, false, 0) && s.net == []
    requires s.dst == Endpoint(Destination, [LINKED, NEAR], false, false, false, false, 0)
    ensures ValidRun(s, acts) && After(s, acts).src == ANSWERED && After(s, acts).net == []
    ensures After(s, acts).dst == Waiting([KNOWN, NEAR], 2)
  {
    var m := Map(false, Some(1));
    var t := s.(net := [m]);
    assert Next(s, Request(false, Some(1))) == t;
    assert LINKED in t.dst.slots && LINKED in Waiting([LINKED, NEAR], 1).slots;
    var u := t.(dst := Waiting([LINKED, NEAR], 1), net := [MapTo(Source, true, 1)],
                log := s.log + [Got(Destination, m, ANY, t.dst)]);
    assert Next(t, Deliver(0, ANY)) == u;
    var w := u.(dst := Waiting([LINKED, NEAR], 2));
    assert Next(u, Edit(Destination)) == w;
    hide Next;
    acts := AnswerIsDiscarded(w);
    Prepend(u, Edit(Destination), acts);
    acts := [Edit(Destination)] + acts;
    Prepend(t, Deliver(0, ANY), acts);
    acts := [Deliver(0, ANY)] + acts;
    Prepend(s, Request(false, Some(1)), acts);
    acts := [Request(false, Some(1))] + acts;
  }

  /** It can stall: when the user of the destination changes the map while the source still answers for the
      earlier version, the answer is discarded and both ends stay inactive. */
  lemma EditStalls() returns (s: State, acts: seq<Action>)
    ensures Initial(s) && ValidRun(s, acts) && Quiet(After(s, acts))
    ensures !After(s, acts).src.active && !After(s, acts).dst.active
  {
    s := State(Endpoint(Source, [NEAR, FAR], false, false, false, false, 0),
               Endpoint(Destination, [FAR, NEAR], false, false, false, false, 0), [], []);
    assert FAR in s.src.slots && FAR in s.dst.slots;
    var t := s.(src := s.src.(slots := [NEAR, LINKED]));
    assert Next(s, LinkUp(Source)) == t;
    var u := t.(dst := t.dst.(slots := [LINKED, NEAR]));
    assert Next(t, LinkUp(Destination)) == u;
    hide Next;
    acts := RequestIsOvertaken(u);
    Prepend(t, LinkUp(Destination), acts);
    acts := [LinkUp(Destination)] + acts;
    Prepend(s, LinkUp(Source), acts);
    acts := [LinkUp(Source)] + acts;
  }

  lemma Prepend(s: State, a: Action, acts: seq<Action>)
    requires Shape(s) && Enabled(s, a) && ValidRun(Next(s, a), acts)
    ensures ValidRun(s, [a] + acts) && After(s, [a] + acts) == After(Next(s, a), acts)
  {
    assert ([a] + acts)[1..] == acts;
  }
}
