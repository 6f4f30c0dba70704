/**
 Runs in which no user of an endpoint creates, changes or pushes the map there: whatever versions requests
 carry and however messages are delayed and reordered, the negotiation succeeds.
 */
module MapUntouched {
  import opened Wrappers
  import opened MapEndpoint
  import opened MapHandshake
  import opened MapCompletion

  predicate ByUser(a: Action) {
    a.Create? || a.Edit? || a.Push?
  }

  predicate Dormant(s: State) {
    !s.src.active && !s.dst.active
  }

  predicate Stamped(m: Msg) {
    m.MapTo? || m.Mapped?
  }

  /** The destination asks the source with the destination's current version. */
  predicate Asks(m: Msg, s: State) {
    m == MapTo(Source, true, s.dst.version)
  }

  /** The source knows of the destination's current version, and the message carries it. */
  predicate Answers(m: Msg, s: State) {
    && s.src.version == s.dst.version
    && ((m.MapTo? && m.meta && m.to == Destination && m.asOf == s.dst.version)
        || (m.Mapped? && m.withSig && m.sender.version == s.dst.version))
  }

  ghost predicate AskUnderWay(s: State) {
    exists m :: m in s.net && Asks(m, s)
  }

  ghost predicate AnswerUnderWay(s: State) {
    exists m :: m in s.net && Answers(m, s)
  }

  /** The destination leads: nothing is newer than its record, the source is asked for its current version,
      and once both are linked a message with that version is under way. */
  ghost predicate Leads(s: State) {
    && s.src.version <= s.dst.version
    && (forall m :: m in s.net && Stamped(m) ==> VersionOf(m).value <= s.dst.version)
    && (s.src.here ==> s.dst.here)
    && (forall m :: m in s.net && m.MapTo? ==> s.dst.here)
    && (Armed(s.dst) ==> (s.src.here && s.src.version == s.dst.version) || AskUnderWay(s))
    && (Armed(s.dst) && Armed(s.src) ==> AskUnderWay(s) || AnswerUnderWay(s))
  }

  /** What a handler does to the version, while the endpoint stays inactive. */
  ghost predicate Versions(e: Endpoint, m: Msg, e': Endpoint, out: seq<Msg>) {
    && e'.version >= e.version
    && (Stamped(m) ==> e'.version == e.version || e'.version == VersionOf(m).value)
    && (m.MapTo? && m.asOf >= e.version ==> e'.version == m.asOf)
    && (forall o :: o in out ==>
          && (o.MapTo? ==> e.role == Destination && o == MapTo(Source, true, e'.version) && e'.here)
          && (o.Mapped? ==> o.sender.version == e'.version))
    && ((m.Map? || (m.MapMod? && !e.here)) && e.role == Destination && Linked(e) ==>
          MapTo(Source, true, e'.version) in out)
    && (m.MapMod? && (e.here || e.role == Source) ==> e' == e && out == [])
    && (m.MapTo? && m.meta && m.asOf >= e.version && Linked(e) ==>
          exists o :: o in out && o.Mapped? && o.withSig && o.sender.version == e'.version)
    && (m.Mapped? ==> out == [] && !(m.withSig && Armed(e) && m.sender.version >= e.version))
    && (e'.here && !e.here ==> !m.Mapped?)
  }

  lemma SetVersion(e: Endpoint, meta: bool, v: Option<nat>, c: Context)
    ensures var f := SetFromMsg(e, meta, v, c);
            && f.version >= e.version && (v.Some? ==> f.version == e.version || f.version == v.value)
            && (v.Some? && v.value >= e.version ==> f.version == v.value)
            && (v.Some? && v.value >= e.version && meta && AllKnown(Learn(e).slots) ==> f.ready)
  {
  }

  lemma MapVersions(e: Endpoint, m: Msg, c: Context, meta: bool)
    requires e.slots != [] && Sane(e) && !e.active && (m.Map? || (m.MapMod? && !e.here)) && e.role == Destination
    ensures var (e', out) := HandleMap(e, meta, VersionOf(m), c); Versions(e, m, e', out)
  {
    var f := e.(here := true);
    SetVersion(f, meta, VersionOf(m), c);
    SetKeeps(f, meta, VersionOf(m), c);
    hide SetFromMsg, Learn, AllKnown, Linked;
    var out := HandleMap(e, meta, VersionOf(m), c).1;
    assert Linked(e) ==> out[0] in out;
  }

  lemma MapToVersions(e: Endpoint, m: Msg, c: Context)
    requires e.slots != [] && Grounded(e) && Sane(e) && !e.active && m.MapTo?
    ensures var (e', out) := HandleMapTo(e, m.meta, m.asOf, c); Versions(e, m, e', out)
  {
    var f := e.(here := true);
    if Linked(e) { LearnCompletes(e); }
    assert Learn(f).slots == Learn(e).slots;
    SetVersion(f, m.meta, Some(m.asOf), c);
    SetKeeps(f, m.meta, Some(m.asOf), c);
    hide SetFromMsg, Learn, AllKnown, Linked;
    var out := HandleMapTo(e, m.meta, m.asOf, c).1;
    assert out != [] ==> out[0] in out;
  }

  lemma MappedVersions(e: Endpoint, m: Msg, c: Context)
    requires e.slots != [] && Grounded(e) && Sane(e) && m.Mapped?
    requires !HandleMapped(e, m.withSig, m.sender.version, c).0.active
    ensures var (e', out) := HandleMapped(e, m.withSig, m.sender.version, c); Versions(e, m, e', out)
  {
    if Linked(e) { LearnCompletes(e); }
    LearnTwice(e);
    LearnKeeps(e);
    SetVersion(e, true, Some(m.sender.version), c);
    SetVersion(Learn(e), true, Some(m.sender.version), c);
    SetShape(e, true, Some(m.sender.version), c);
    SetShape(Learn(e), true, Some(m.sender.version), c);
    hide SetFromMsg, Learn, AllKnown, Linked, Grounded;
  }

  lemma HandleVersions(e: Endpoint, m: Msg, c: Context)
    requires e.slots != [] && Grounded(e) && Sane(e) && e.role == Target(m) && !Handle(e, m, c).0.active
    ensures var (e', out) := Handle(e, m, c); Versions(e, m, e', out)
  {
    HandleKeeps(e, m, c);
    hide Versions, HandleMap, HandleMapTo, HandleMapped;
    match m {
      case Map(meta, v) => MapVersions(e, m, c, meta);
      case MapTo(_, _, _) => MapToVersions(e, m, c);
      case Mapped(_, _, _) => MappedVersions(e, m, c);
      case MapMod(_, _) =>
        if !e.here && e.role == Destination { MapVersions(e, m, c, c.apply); } else { ModVersions(e, m, c); }
    }
  }

  lemma ModVersions(e: Endpoint, m: Msg, c: Context)
    requires e.slots != [] && m.MapMod? && (e.here || e.role == Source) && !Handle(e, m, c).0.active && Sane(e)
    ensures var (e', out) := Handle(e, m, c); Versions(e, m, e', out)
  {
    HandleKeeps(e, m, c);
    hide SetFromMsg, Learn, AllKnown, Linked;
  }

  /** The newest stamps stay below the destination's version. */
  lemma StampsReceive(s: State, k: nat, c: Context)
    requires Shape(s) && Inv(s) && Leads(s) && Grounded(s.src) && Grounded(s.dst) && k < |s.net|
    requires Dormant(s) && Dormant(Receive(s, k, c))
    ensures var t := Receive(s, k, c);
            && s.dst.version <= t.dst.version && t.src.version <= t.dst.version
            && (forall m :: m in t.net && Stamped(m) ==> VersionOf(m).value <= t.dst.version)
            && (t.src.here ==> t.dst.here) && (forall m :: m in t.net && m.MapTo? ==> t.dst.here)
  {
    var t, m := Receive(s, k, c), s.net[k];
    var e := End(s, Target(m));
    HandleVersions(e, m, c);
    HandleKeeps(e, m, c);
    var out := Handle(e, m, c).1;
    assert m in s.net;
    hide Handle, Inv, Grounded, Linked, AskUnderWay, AnswerUnderWay;
    forall x | x in t.net && Stamped(x) ensures VersionOf(x).value <= t.dst.version && (x.MapTo? ==> t.dst.here) {
      assert x in s.net || x in out;
    }
  }

  lemma AskReceived(s: State, k: nat, c: Context)
    requires Shape(s) && Inv(s) && Leads(s) && Grounded(s.src) && Grounded(s.dst) && k < |s.net|
    requires Dormant(s) && Dormant(Receive(s, k, c)) && Armed(Receive(s, k, c).dst)
    ensures var t := Receive(s, k, c);
            (t.src.here && t.src.version == t.dst.version) || AskUnderWay(t)
  {
    var t, m := Receive(s, k, c), s.net[k];
    var e := End(s, Target(m));
    HandleVersions(e, m, c);
    HandleKeeps(e, m, c);
    var out := Handle(e, m, c).1;
    assert m in s.net;
    StampsReceive(s, k, c);
    hide Handle, Inv, Grounded, Linked;
    forall x | x in out ensures x in t.net { }
    if Target(m) == Destination && (t.dst.version > s.dst.version || !s.dst.here) {
      assert MapTo(Source, true, t.dst.version) in t.net;
    } else if AskUnderWay(s) {
      var w :| w in s.net && Asks(w, s);
      assert w != m ==> w in Without(s.net, k) && w in t.net;
    }
  }

  lemma AnswerReceived(s: State, k: nat, c: Context)
    requires Shape(s) && Inv(s) && Leads(s) && Grounded(s.src) && Grounded(s.dst) && k < |s.net|
    requires Dormant(s) && Dormant(Receive(s, k, c)) && Armed(Receive(s, k, c).dst) && Armed(Receive(s, k, c).src)
    ensures AskUnderWay(Receive(s, k, c)) || AnswerUnderWay(Receive(s, k, c))
  {
    var t, m := Receive(s, k, c), s.net[k];
    var r := Target(m);
    var e := End(s, r);
    HandleVersions(e, m, c);
    HandleKeeps(e, m, c);
    var out := Handle(e, m, c).1;
    assert m in s.net;
    StampsReceive(s, k, c);
    AskReceived(s, k, c);
    hide Handle, Inv, Grounded, Linked;
    forall x | x in out ensures x in t.net { }
    if r == Destination && (t.dst.version > s.dst.version || !s.dst.here || m.Map?) {
      assert MapTo(Source, true, t.dst.version) in t.net;
    } else if AskUnderWay(s) {
      var w :| w in s.net && Asks(w, s);
      assert w != m ==> w in Without(s.net, k) && w in t.net;
    } else {
      var w :| w in s.net && Answers(w, s);
      assert w != m ==> w in Without(s.net, k) && w in t.net;
    }
  }

  /** What an end sends by itself carries its version, and asks or answers when it matters. */
  lemma ActSends(s: State, a: Action)
    requires Shape(s) && Inv(s) && Enabled(s, a) && Internal(a) && !ByUser(a)
    ensures var e := End(s, a.at); var (e', out) := Act(e, a);
            && e'.version == e.version && e'.here == e.here && (!a.LinkUp? ==> Linked(e') == Linked(e))
            && (forall x :: x in out && Stamped(x) ==> VersionOf(x).value == e.version && e.here)
            && (a.LinkUp? && e.here ==> MapTo(Other(a.at), true, e.version) in out)
  {
    var e := End(s, a.at);
    if a.SignalInfo? {
      LearnKeepsLinks(e, a.slot);
    }
    hide Linked, LearnSlot, Link;
  }

  lemma LearnKeepsLinks(e: Endpoint, k: nat)
    requires k < |e.slots|
    ensures Linked(e.(slots := e.slots[k := LearnSlot(e.slots[k])])) == Linked(e)
  {
    var f := e.(slots := e.slots[k := LearnSlot(e.slots[k])]);
    assert e.slots[k] in e.slots && f.slots[k] in f.slots;
    forall x | x in f.slots ensures x in e.slots || x == f.slots[k] { }
    forall x | x in e.slots ensures x in f.slots || x == e.slots[k] {
      var i :| 0 <= i < |e.slots| && e.slots[i] == x;
      assert f.slots[i] in f.slots;
    }
  }

  lemma LeadsAct(s: State, a: Action)
    requires Shape(s) && Inv(s) && Enabled(s, a) && Leads(s)
    requires Dormant(s) && Internal(a) && !ByUser(a)
    ensures Leads(ActAt(s, a))
  {
    var t := ActAt(s, a);
    ActSends(s, a);
    var out := Act(End(s, a.at), a).1;
    assert t.net == s.net + out;
    hide Act, Inv, Linked, Enabled, ByUser;
    forall x | x in s.net ensures x in t.net { }
    if AskUnderWay(s) {
      var w :| w in s.net && Asks(w, s);
      assert Asks(w, t) && AskUnderWay(t);
    }
    if AnswerUnderWay(s) {
      var w :| w in s.net && Answers(w, s);
      assert Answers(w, t) && AnswerUnderWay(t);
    }
    if a.LinkUp? && End(s, a.at).here {
      var m := MapTo(Other(a.at), true, End(s, a.at).version);
      assert m in t.net;
      assert a.at == Destination ==> Asks(m, t);
      assert a.at == Source && s.src.version == s.dst.version ==> Answers(m, t);
    }
  }

  lemma LeadsNext(s: State, a: Action)
    requires Shape(s) && Inv(s) && Enabled(s, a) && Leads(s) && Grounded(s.src) && Grounded(s.dst)
    requires Dormant(s) && Dormant(Next(s, a)) && !ByUser(a)
    ensures Leads(Next(s, a))
  {
    var t := Next(s, a);
    if a.Deliver? {
      StampsReceive(s, a.index, a.context);
      if Armed(t.dst) { AskReceived(s, a.index, a.context); }
      if Armed(t.dst) && Armed(t.src) { AnswerReceived(s, a.index, a.context); }
    } else if Internal(a) {
      LeadsAct(s, a);
    } else {
      forall x | x in s.net ensures x in t.net { }
    }
  }

  lemma {:induction false} LeadsRun(s: State, acts: seq<Action>)
    requires Shape(s) && Inv(s) && Progress(s) && ValidRun(s, acts) && forall a :: a in acts ==> !ByUser(a)
    requires Dormant(s) ==> Leads(s)
    ensures var t := After(s, acts); Inv(t) && Progress(t) && (Dormant(t) ==> Leads(t))
    decreases |acts|
  {
    hide Progress, Inv, Leads, ByUser;
    if acts != [] {
      assert acts[0] in acts;
      InvNext(s, acts[0]);
      ProgressNext(s, acts[0]);
      StaysActive(s, acts[0]);
      ProgressGrounds(s);
      if Dormant(Next(s, acts[0])) { LeadsNext(s, acts[0]); }
      LeadsRun(Next(s, acts[0]), acts[1..]);
    }
  }

  lemma ProgressGrounds(s: State)
    requires Progress(s)
    ensures Grounded(s.src) && Grounded(s.dst)
  {
  }

  lemma StaysActive(s: State, a: Action)
    requires Shape(s) && Inv(s) && Enabled(s, a)
    ensures Dormant(Next(s, a)) ==> Dormant(s)
  {
    if a.Deliver? {
      HandleKeeps(End(s, Target(s.net[a.index])), s.net[a.index], a.context);
    } else if Internal(a) {
      ActKeeps(s, a);
    }
  }

  /** Left alone by the users of both ends, every negotiation that goes quiet has made both ends ACTIVE:
      requests of any version, late links and stale, reordered or discarded messages cannot stop it. */
  lemma UntouchedMapsComplete(s: State, acts: seq<Action>)
    requires Initial(s) && ValidRun(s, acts) && forall a :: a in acts ==> !ByUser(a)
    requires var t := After(s, acts); t.net == [] && Armed(t.src) && Armed(t.dst)
    ensures After(s, acts).src.active && After(s, acts).dst.active
  {
    LeadsRun(s, acts);
    var t := After(s, acts);
    assert End(t, Source).active && !End(t, Destination).active ==> WakeUnderWay(t.net, Destination);
    assert End(t, Destination).active && !End(t, Source).active ==> WakeUnderWay(t.net, Source);
  }
}
