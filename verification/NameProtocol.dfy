/**
 Any number of devices, each with its own random id, on one broadcast bus.  A message sent at time t
 reaches every device, its sender included, at some moment of [t, t + delay]; the order of arrival is
 free.  A run is a sequence of enabled actions.
 */
module NameProtocol {
  import opened Wrappers
  import opened NameAllocation

  datatype Packet = Packet(serial: nat, from: nat, to: nat, msg: Message, due: real)

  /** `since[i]` is the time of device i's latest probe, an observation no handler reads. */
  datatype State = State(
    now: real,
    delay: real,
    devs: seq<Device>,
    ids: seq<int>,
    since: seq<real>,
    net: set<Packet>,
    serial: nat)

  datatype Action =
    | Start(dev: nat, ordinal: nat)
    | Deliver(packet: Packet)
    | Check(dev: nat, rnd: nat)
    | Depart(dev: nat, prefix: string, gone: int)
    | Tick(time: real)

  ghost predicate Initial(s: State) {
    && s.delay >= 0.0
    && |s.devs| == |s.ids| == |s.since|
    && (forall i :: 0 <= i < |s.ids| ==> s.ids[i] >= 0)
    && (forall i :: 0 <= i < |s.devs| ==> Unnamed(s.devs[i]))
    && s.net == {}
  }

  predicate Unnamed(d: Device) {
    d == Device(d.prefix, None, 1, d.countTime, NO_HINTS, 0, false, false, false)
  }

  function Broadcast(n: nat, serial: nat, from: nat, msg: Message, due: real): (r: set<Packet>)
    ensures forall p: Packet :: p in r <==>
      p.to < n && p.serial == serial && p.from == from && p.msg == msg && p.due == due
  {
    set to | 0 <= to < n :: Packet(serial, from, to, msg, due)
  }

  /** Device i becomes `d` and sends `msg`, if any, to everyone. */
  function Put(s: State, i: nat, d: Device, msg: Option<Message>): State
    requires i < |s.devs| == |s.since|
  {
    var s := s.(devs := s.devs[i := d]);
    if msg.None? then s else
    s.(net := s.net + Broadcast(|s.devs|, s.serial, i, msg.value, s.now + s.delay),
       serial := s.serial + 1,
       since := if msg.value.Probe? then s.since[i := s.now] else s.since)
  }

  ghost predicate Shape(s: State) {
    |s.devs| == |s.ids| == |s.since|
  }

  ghost predicate Enabled(s: State, a: Action)
    requires Shape(s)
  {
    match a
    case Start(i, ordinal) => i < |s.devs| && s.devs[i].id.None? && ordinal > 0
    case Deliver(p) => p in s.net && p.to < |s.devs|
    case Check(i, _) => i < |s.devs|
    case Depart(i, _, _) => i < |s.devs|
    case Tick(t) => s.now <= t && forall p :: p in s.net ==> t <= p.due
  }

  function Hear(s: State, p: Packet): State
    requires Shape(s) && p.to < |s.devs|
  {
    var i, d, id := p.to, s.devs[p.to], s.ids[p.to];
    match p.msg
    case Probe(name, tempId) =>
      Put(s, i, HearProbe(d, name, tempId, id, s.now),
          if AnswersProbe(d, name, tempId, id) then Some(Registered(name, tempId, Suggestion(d, s.now))) else None)
    case Registered(name, tempId, hint) =>
      Put(s, i, HearRegistered(d, name, tempId, id, hint, s.now),
          if TakesHint(d, name, tempId, id, hint) then Some(Probe(Name(d.prefix, hint), id)) else None)
  }

  ghost function Next(s: State, a: Action): State
    requires Shape(s) && Enabled(s, a)
    ensures Shape(Next(s, a))
  {
    match a
    case Start(i, ordinal) =>
      Put(s, i, ProbeName(s.devs[i], ordinal, s.now), Some(Probe(Name(s.devs[i].prefix, ordinal), s.ids[i])))
    case Deliver(p) => Hear(s.(net := s.net - {p}), p)
    case Check(i, rnd) =>
      var (d, poll) := CheckRegistration(s.devs[i], s.now, rnd);
      Put(s, i, d, match poll
                   case Idle => None
                   case Probing => Some(Probe(Name(d.prefix, d.val), s.ids[i]))
                   case Announcing => Some(Registered(Name(d.prefix, d.val), -1, 0)))
    case Depart(i, prefix, ordinal) => Put(s, i, HearLogout(s.devs[i], prefix, ordinal), None)
    case Tick(t) => s.(now := t)
  }

  ghost predicate ValidRun(s: State, acts: seq<Action>)
    requires Shape(s)
    decreases |acts|
  {
    acts == [] || (Enabled(s, acts[0]) && ValidRun(Next(s, acts[0]), acts[1..]))
  }

  ghost function After(s: State, acts: seq<Action>): State
    requires Shape(s) && ValidRun(s, acts)
    ensures Shape(After(s, acts))
    decreases |acts|
  {
    if acts == [] then s else After(Next(s, acts[0]), acts[1..])
  }

  /** No two devices are locked on the same name. */
  ghost predicate Agreement(s: State) {
    forall a, b :: 0 <= a < b < |s.devs| && s.devs[a].locked && s.devs[b].locked
      ==> s.devs[a].id != s.devs[b].id
  }

  // ---------- the inductive invariant ----------

  /** Packet p is b's current probe, still on its way to a. */
  ghost predicate IsProbe(s: State, p: Packet, a: nat, b: nat)
    requires Shape(s) && b < |s.devs|
  {
    && p.from == b && p.to == a && p.due <= s.since[b] + s.delay
    && s.devs[b].id.Some? && p.msg == Probe(s.devs[b].id.value, s.ids[b])
  }

  /** Packet p is a hint that will make b leave its current name. */
  ghost predicate IsHint(s: State, p: Packet, b: nat)
    requires Shape(s) && b < |s.devs|
  {
    && p.to == b && p.due <= s.since[b] + 2.0 * s.delay
    && s.devs[b].id.Some? && p.msg.Registered? && p.msg.hint > 0
    && p.msg.name == s.devs[b].id.value && p.msg.tempId == s.ids[b]
  }

  ghost predicate Pending(s: State, a: nat, b: nat)
    requires Shape(s) && b < |s.devs|
  {
    exists p :: p in s.net && IsProbe(s, p, a, b)
  }

  ghost predicate Told(s: State, b: nat)
    requires Shape(s) && b < |s.devs|
  {
    exists p :: p in s.net && IsHint(s, p, b)
  }

  /** Device a has counted, or will count before it can lock, two collisions. */
  ghost predicate Doomed(s: State, a: nat)
    requires Shape(s) && a < |s.devs|
  {
    !s.devs[a].locked && s.devs[a].collisions + (if Pending(s, a, a) then 1 else 0) >= 2
  }

  /** One of a and b cannot lock its current name. */
  ghost predicate Covered(s: State, a: nat, b: nat)
    requires Shape(s) && a < |s.devs| && b < |s.devs|
  {
    Pending(s, a, b) || Told(s, b) || Doomed(s, a)
  }

  ghost predicate DeviceOk(s: State, i: nat)
    requires Shape(s) && i < |s.devs|
  {
    var d := s.devs[i];
    && WellFormed(d) && s.ids[i] >= 0 && d.val > 0
    && (d.id.Some? ==> s.since[i] <= d.countTime <= s.now)
    && (d.locked ==> s.now >= s.since[i] + 1.0)
    && (d.id.Some? && !d.locked ==> d.collisions >= 1 || Pending(s, i, i))
  }

  ghost predicate PacketOk(s: State, p: Packet) {
    && s.now <= p.due && p.serial < s.serial
    && (p.msg.Registered? && p.msg.hint > 0 ==> p.msg.hint > p.msg.name.ordinal)
  }

  ghost predicate PairOk(s: State, a: nat, b: nat)
    requires Shape(s) && a < |s.devs| && b < |s.devs|
  {
    a != b && s.devs[a].id.Some? && s.devs[a].id == s.devs[b].id ==> Covered(s, a, b) || Covered(s, b, a)
  }

  ghost predicate Inv(s: State) {
    && Shape(s) && s.delay >= 0.0 && 2.0 * s.delay < 1.0
    && (forall i :: 0 <= i < |s.devs| ==> DeviceOk(s, i))
    && (forall p :: p in s.net ==> PacketOk(s, p))
    && (forall a, b :: 0 <= a < |s.devs| && 0 <= b < |s.devs| ==> PairOk(s, a, b))
  }

  lemma InvInitial(s: State)
    requires Initial(s) && 2.0 * s.delay < 1.0
    ensures Inv(s)
  {
  }

  /** By the time b has locked, its probe and any hint against it have arrived. */
  lemma LockedNotCovered(s: State, a: nat, b: nat)
    requires Inv(s) && a < |s.devs| && b < |s.devs| && s.devs[a].locked && s.devs[b].locked
    ensures !Covered(s, a, b)
  {
    assert DeviceOk(s, b);
    forall p | p in s.net ensures !IsProbe(s, p, a, b) && !IsHint(s, p, b) {
      assert PacketOk(s, p);
    }
  }

  lemma InvAgreement(s: State)
    requires Inv(s)
    ensures Agreement(s)
  {
    forall a, b | 0 <= a < b < |s.devs| && s.devs[a].locked && s.devs[b].locked
      ensures s.devs[a].id != s.devs[b].id
    {
      LockedNotCovered(s, a, b);
      LockedNotCovered(s, b, a);
      assert PairOk(s, a, b) && DeviceOk(s, a);
    }
  }

  /** What a step must leave alone for the claims about other devices to survive: every packet except
      those addressed to i, and every device except i. */
  ghost predicate OnlyTouches(s: State, t: State, i: nat)
    requires Shape(s) && Shape(t)
  {
    && i < |s.devs| == |t.devs| && t.delay == s.delay && t.now == s.now && t.ids == s.ids && s.serial <= t.serial
    && (forall j :: 0 <= j < |s.devs| && j != i ==> t.devs[j] == s.devs[j] && t.since[j] == s.since[j])
    && (forall p :: p in s.net && p.to != i ==> p in t.net)
  }

  /** A step that only touches i keeps the claims that involve other devices. */
  lemma OthersKept(s: State, t: State, i: nat)
    requires Inv(s) && Shape(t) && OnlyTouches(s, t, i)
    ensures forall j :: 0 <= j < |s.devs| && j != i ==> DeviceOk(t, j)
    ensures forall a, b :: 0 <= a < |s.devs| && 0 <= b < |s.devs| && a != i && b != i ==> PairOk(t, a, b)
  {
    forall a, b | 0 <= a < |s.devs| && 0 <= b < |s.devs| && a != i && b != i
      ensures Pending(s, a, b) ==> Pending(t, a, b)
      ensures Told(s, b) ==> Told(t, b)
      ensures Doomed(s, a) ==> Doomed(t, a)
    {
      if p :| p in s.net && IsProbe(s, p, a, b) { assert IsProbe(t, p, a, b); }
      if p :| p in s.net && IsHint(s, p, b) { assert IsHint(t, p, b); }
      if p :| p in s.net && IsProbe(s, p, a, a) { assert IsProbe(t, p, a, a); }
    }
    forall j | 0 <= j < |s.devs| && j != i ensures DeviceOk(t, j) {
      assert DeviceOk(s, j);
    }
    forall a, b | 0 <= a < |s.devs| && 0 <= b < |s.devs| && a != i && b != i ensures PairOk(t, a, b) {
      assert PairOk(s, a, b);
    }
  }

  /** A device that has just broadcast a probe is covered by it, whatever it shares its name with. */
  lemma InvAfterProbe(s: State, t: State, i: nat)
    requires Inv(s) && Shape(t) && OnlyTouches(s, t, i)
    requires t.devs[i].id.Some? && WellFormed(t.devs[i]) && !t.devs[i].locked
    requires t.devs[i].countTime == t.since[i] == s.now && t.serial == s.serial + 1
    requires t.net <= s.net + Broadcast(|s.devs|, s.serial, i, Probe(t.devs[i].id.value, s.ids[i]), s.now + s.delay)
    requires Broadcast(|s.devs|, s.serial, i, Probe(t.devs[i].id.value, s.ids[i]), s.now + s.delay) <= t.net
    ensures Inv(t)
  {
    OthersKept(s, t, i);
    assert DeviceOk(s, i);
    forall a | 0 <= a < |s.devs| ensures Pending(t, a, i) {
      assert IsProbe(t, Packet(s.serial, i, a, Probe(t.devs[i].id.value, s.ids[i]), s.now + s.delay), a, i);
    }
    forall p | p in t.net ensures PacketOk(t, p) {
      if p in s.net { assert PacketOk(s, p); }
    }
    assert DeviceOk(t, i);
  }

  /** A step that keeps i's name and probe, neither lowers its collision count nor locks it, and consumes
      at most a packet that was not the last hope of a pair. */
  lemma InvAfterQuiet(s: State, t: State, i: nat)
    requires Inv(s) && Shape(t) && OnlyTouches(s, t, i) && t.since == s.since
    requires WellFormed(t.devs[i]) && t.devs[i].id == s.devs[i].id && t.devs[i].locked == s.devs[i].locked
    requires t.devs[i].val == s.devs[i].val && DeviceOk(t, i)
    requires forall p :: p in t.net ==> PacketOk(t, p)
    requires forall b :: 0 <= b < |s.devs| && b != i && Pending(s, i, b) && s.devs[b].id == s.devs[i].id
               ==> Pending(t, i, b) || Told(t, b) || Doomed(t, i)
    requires Doomed(s, i) ==> Doomed(t, i)
    requires Told(s, i) ==> Told(t, i)
    ensures Inv(t)
  {
    OthersKept(s, t, i);
    forall b | 0 <= b < |s.devs| && b != i
      ensures Pending(s, b, i) ==> Pending(t, b, i)
      ensures Told(s, b) ==> Told(t, b)
      ensures Doomed(s, b) ==> Doomed(t, b)
    {
      if p :| p in s.net && IsProbe(s, p, b, i) { assert IsProbe(t, p, b, i); }
      if p :| p in s.net && IsHint(s, p, b) { assert IsHint(t, p, b); }
      if p :| p in s.net && IsProbe(s, p, b, b) { assert IsProbe(t, p, b, b); }
    }
    forall a, b | 0 <= a < |s.devs| && 0 <= b < |s.devs| ensures PairOk(t, a, b) {
      assert PairOk(s, a, b);
    }
  }

  lemma InvHearProbe(s: State, p: Packet, name: Name, tempId: int)
    requires Inv(s) && p in s.net && p.to < |s.devs| && p.msg == Probe(name, tempId)
    ensures Inv(Next(s, Deliver(p)))
  {
    var t := Next(s, Deliver(p));
    var i, d := p.to, s.devs[p.to];
    assert DeviceOk(s, i) && PacketOk(s, p);
    if AnswersProbe(d, name, tempId, s.ids[i]) {
      var hint := Registered(name, tempId, Suggestion(d, s.now));
      forall q | q in t.net ensures PacketOk(t, q) {
        if q in s.net { assert PacketOk(s, q); }
      }
      forall a, b | 0 <= a < |s.devs| && 0 <= b < |s.devs| && Pending(s, a, b) && !IsProbe(s, p, a, b)
        ensures Pending(t, a, b)
      {
        var q :| q in s.net && IsProbe(s, q, a, b);
        assert q != p && IsProbe(t, q, a, b);
      }
      forall b | 0 <= b < |s.devs| && IsProbe(s, p, i, b) ensures Told(t, b) {
        assert IsHint(t, Packet(s.serial, i, b, hint, s.now + s.delay), b);
      }
      if Told(s, i) {
        var q :| q in s.net && IsHint(s, q, i);
        assert q != p && IsHint(t, q, i);
      }
      assert DeviceOk(t, i);
      InvAfterQuiet(s, t, i);
    } else if d.id == Some(name) {
      forall q | q in t.net ensures PacketOk(t, q) { assert PacketOk(s, q); }
      forall b | 0 <= b < |s.devs| && Pending(s, i, b) && !IsProbe(s, p, i, b) ensures Pending(t, i, b) {
        var q :| q in s.net && IsProbe(s, q, i, b);
        assert q != p && IsProbe(t, q, i, b);
      }
      if Told(s, i) {
        var q :| q in s.net && IsHint(s, q, i);
        assert q != p && IsHint(t, q, i);
      }
      InvAfterQuiet(s, t, i);
    } else {
      InvDropped(s, p);
      assert t.devs == s.devs;
      assert t == s.(net := s.net - {p});
    }
  }

  /** A packet the receiver ignores because it is about another name can be forgotten. */
  lemma InvDropped(s: State, p: Packet)
    requires Inv(s) && p in s.net && p.to < |s.devs|
    requires s.devs[p.to].id != Some(p.msg.name)
    ensures Inv(s.(net := s.net - {p}))
  {
    var t := s.(net := s.net - {p});
    forall q | q in t.net ensures PacketOk(t, q) { assert PacketOk(s, q); }
    forall a, b | 0 <= a < |s.devs| && 0 <= b < |s.devs|
      ensures s.devs[a].id == s.devs[b].id && Pending(s, a, b) ==> Pending(t, a, b)
      ensures Told(s, b) ==> Told(t, b)
    {
      if s.devs[a].id == s.devs[b].id && Pending(s, a, b) {
        var q :| q in s.net && IsProbe(s, q, a, b);
        assert q != p && IsProbe(t, q, a, b);
      }
      if q :| q in s.net && IsHint(s, q, b) {
        assert q != p && IsHint(t, q, b);
      }
    }
    forall i | 0 <= i < |s.devs| ensures DeviceOk(t, i) { assert DeviceOk(s, i); }
    forall a, b | 0 <= a < |s.devs| && 0 <= b < |s.devs| ensures PairOk(t, a, b) { assert PairOk(s, a, b); }
  }

  lemma InvHearRegistered(s: State, p: Packet, name: Name, tempId: int, hint: int)
    requires Inv(s) && p in s.net && p.to < |s.devs| && p.msg == Registered(name, tempId, hint)
    ensures Inv(Next(s, Deliver(p)))
  {
    var t := Next(s, Deliver(p));
    var i, d := p.to, s.devs[p.to];
    assert DeviceOk(s, i) && PacketOk(s, p);
    if TakesHint(d, name, tempId, s.ids[i], hint) {
      InvAfterProbe(s, t, i);
    } else {
      forall q | q in t.net ensures PacketOk(t, q) { assert PacketOk(s, q); }
      forall b | 0 <= b < |s.devs| && Pending(s, i, b) ensures Pending(t, i, b) {
        var q :| q in s.net && IsProbe(s, q, i, b);
        assert q != p && IsProbe(t, q, i, b);
      }
      if d.locked {
        LockedIsNotTold(s, i);
      } else if q :| q in s.net && IsHint(s, q, i) {
        assert q != p && IsHint(t, q, i);
      }
      InvAfterQuiet(s, t, i);
    }
  }

  lemma LockedIsNotTold(s: State, i: nat)
    requires Inv(s) && i < |s.devs| && s.devs[i].locked
    ensures !Told(s, i)
  {
    LockedNotCovered(s, i, i);
  }

  /** Claims carried by packets persist while names and probe times stay and no packet is lost. */
  lemma PacketClaimsPersist(s: State, t: State)
    requires Shape(s) && Shape(t) && |t.devs| == |s.devs| && t.delay == s.delay
    requires t.ids == s.ids && t.since == s.since && s.net <= t.net
    requires forall i :: 0 <= i < |s.devs| ==> t.devs[i].id == s.devs[i].id
    ensures forall a, b :: 0 <= a < |s.devs| && 0 <= b < |s.devs| && Pending(s, a, b) ==> Pending(t, a, b)
    ensures forall b :: 0 <= b < |s.devs| && Told(s, b) ==> Told(t, b)
  {
    forall a, b | 0 <= a < |s.devs| && 0 <= b < |s.devs| && Pending(s, a, b) ensures Pending(t, a, b) {
      var q :| q in s.net && IsProbe(s, q, a, b);
      assert IsProbe(t, q, a, b);
    }
    forall b | 0 <= b < |s.devs| && Told(s, b) ensures Told(t, b) {
      var q :| q in s.net && IsHint(s, q, b);
      assert IsHint(t, q, b);
    }
  }

  /** A device that is about to lock has had time to hear its own probe, and heard at most one. */
  lemma LockingIsNotDoomed(s: State, i: nat, rnd: nat)
    requires Inv(s) && i < |s.devs| && CheckCollisions(s.devs[i], s.now, rnd).1 == Locked
    ensures !Doomed(s, i) && s.now >= s.since[i] + 1.0
  {
    assert DeviceOk(s, i);
  }

  lemma InvAnnounce(s: State, i: nat, rnd: nat)
    requires Inv(s) && i < |s.devs| && CheckRegistration(s.devs[i], s.now, rnd).1 == Announcing
    ensures Inv(Next(s, Check(i, rnd)))
  {
    var t := Next(s, Check(i, rnd));
    assert DeviceOk(s, i);
    if !s.devs[i].locked { LockingIsNotDoomed(s, i, rnd); }
    PacketClaimsPersist(s, t);
    forall q | q in t.net ensures PacketOk(t, q) {
      if q in s.net { assert PacketOk(s, q); }
    }
    forall j | 0 <= j < |s.devs| ensures DeviceOk(t, j) { assert DeviceOk(s, j); }
    forall a, b | 0 <= a < |s.devs| && 0 <= b < |s.devs| ensures PairOk(t, a, b) { assert PairOk(s, a, b); }
  }

  lemma InvCheck(s: State, i: nat, rnd: nat)
    requires Inv(s) && i < |s.devs|
    ensures Inv(Next(s, Check(i, rnd)))
  {
    assert DeviceOk(s, i);
    match CheckRegistration(s.devs[i], s.now, rnd).1 {
      case Probing => InvAfterProbe(s, Next(s, Check(i, rnd)), i);
      case Idle => assert Next(s, Check(i, rnd)) == s;
      case Announcing => InvAnnounce(s, i, rnd);
    }
  }

  lemma InvTick(s: State, time: real)
    requires Inv(s) && Enabled(s, Tick(time))
    ensures Inv(Next(s, Tick(time)))
  {
    var t := Next(s, Tick(time));
    PacketClaimsPersist(s, t);
    forall q | q in t.net ensures PacketOk(t, q) { assert PacketOk(s, q); }
    forall j | 0 <= j < |s.devs| ensures DeviceOk(t, j) { assert DeviceOk(s, j); }
    forall a, b | 0 <= a < |s.devs| && 0 <= b < |s.devs| ensures PairOk(t, a, b) { assert PairOk(s, a, b); }
  }

  lemma InvDepart(s: State, i: nat, prefix: string, gone: int)
    requires Inv(s) && i < |s.devs|
    ensures Inv(Next(s, Depart(i, prefix, gone)))
  {
    var t := Next(s, Depart(i, prefix, gone));
    assert DeviceOk(s, i);
    forall q | q in t.net ensures PacketOk(t, q) { assert PacketOk(s, q); }
    PacketClaimsPersist(s, t);
    InvAfterQuiet(s, t, i);
  }

  lemma InvNext(s: State, a: Action)
    requires Inv(s) && Enabled(s, a)
    ensures Inv(Next(s, a))
  {
    match a {
      case Start(i, ordinal) =>
        assert DeviceOk(s, i);
        InvAfterProbe(s, Next(s, a), i);
      case Deliver(p) =>
        match p.msg {
          case Probe(name, tempId) => InvHearProbe(s, p, name, tempId);
          case Registered(name, tempId, hint) => InvHearRegistered(s, p, name, tempId, hint);
        }
      case Check(i, rnd) => InvCheck(s, i, rnd);
      case Depart(i, prefix, gone) => InvDepart(s, i, prefix, gone);
      case Tick(time) => InvTick(s, time);
    }
  }

  lemma {:induction false} InvRun(s: State, acts: seq<Action>)
    requires Inv(s) && ValidRun(s, acts)
    ensures Inv(After(s, acts))
    decreases |acts|
  {
    if acts != [] {
      InvNext(s, acts[0]);
      InvRun(Next(s, acts[0]), acts[1..]);
    }
  }

  /** Agreement: with 2 * delay < 1 s no run locks two devices on one name.  Random ids may coincide. */
  lemma AgreementHolds(s: State, acts: seq<Action>)
    requires Initial(s) && 2.0 * s.delay < 1.0 && ValidRun(s, acts)
    ensures Agreement(After(s, acts))
  {
    InvInitial(s);
    InvRun(s, acts);
    InvAgreement(After(s, acts));
  }
}
