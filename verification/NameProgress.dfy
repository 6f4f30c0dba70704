/**
 What each poll and each message makes of a device, and over runs: a device leaves a contested name, it is
 never stuck without a name, and it does not hand out an ordinal it knows to be taken.
 */
module NameProgress {
  import opened Wrappers
  import opened NameAllocation
  import opened NameProtocol
  import opened NameOrdinals
  import NameBound

  // ---------- polls ----------

  /** Index k is that of the first hint equal to 0.0, or 8. */
  predicate FirstZero(hints: seq<real>, k: nat) {
    k <= |hints| && (forall j :: 0 <= j < k ==> hints[j] != 0.0) && (k < |hints| ==> hints[k] == 0.0)
  }

  /** A device with two counted collisions moves on after a quarter of a second: past the ordinals of its
      block that it has heard of, to a name it asks for anew. */
  lemma ContestedPoll(d: Device, now: real, rnd: nat)
    requires |d.hints| == 8 && !d.locked && !d.registered && d.online && d.collisions > 1
    requires now - d.countTime >= 0.25
    ensures var (e, poll) := CheckRegistration(d, now, rnd);
            && poll == Probing && !e.locked && e.prefix == d.prefix && e.id == Some(Name(d.prefix, e.val))
            && e.collisions == 0 && e.countTime == now && e.hints == seq(8, _ => 0.0) && e.online
            && exists k :: FirstZero(d.hints, k) && d.val + k < e.val <= d.val + k + d.collisions
  {
    var k := FirstUnused(d.hints);
    assert FirstZero(d.hints, k);
  }

  /** Without a second collision it locks the name after a quiet second, and announces it. */
  lemma QuietPoll(d: Device, now: real, rnd: nat)
    requires !d.locked && !d.registered && d.online && d.collisions < 2 && now - d.countTime >= 1.0
    ensures CheckRegistration(d, now, rnd) == (d.(locked := true, registered := true), Announcing)
  {
  }

  /** A device that has not even heard itself asks for the same name again after five seconds. */
  lemma UnheardPoll(d: Device, now: real, rnd: nat)
    requires |d.hints| == 8 && !d.locked && !d.registered && !d.online && now - d.countTime >= 5.0
    ensures CheckRegistration(d, now, rnd) ==
            (d.(collisions := 0, countTime := now, hints := seq(8, _ => 0.0), id := Some(Name(d.prefix, d.val))),
             Probing)
  {
    assert seq(8, _ => 0.0) == NO_HINTS;
  }

  /** A poll waits exactly when the device is registered or the time that applies to it is not over, and
      then changes nothing. */
  lemma IdlePoll(d: Device, now: real, rnd: nat)
    ensures var (e, poll) := CheckRegistration(d, now, rnd);
            && (poll == Idle <==>
                  (d.registered || (!d.locked && now - d.countTime <
                                                 if !d.online then 5.0 else if d.collisions < 2 then 1.0 else 0.25)))
            && (poll == Idle ==> e == d)
  {
  }

  // ---------- messages ----------

  /** A probe for the device's name counts as a collision, unless the device answers; its own echo also
      tells it that it is heard. */
  lemma ProbeHeard(d: Device, name: Name, tempId: int, randomId: int, now: real)
    requires |d.hints| == 8
    ensures var e, answers := HearProbe(d, name, tempId, randomId, now), AnswersProbe(d, name, tempId, randomId);
            && (answers <==> d.id == Some(name) && (d.locked || tempId > randomId))
            && (d.id != Some(name) ==> e == d)
            && (d.id == Some(name) && !d.locked && tempId <= randomId ==>
                  e == d.(collisions := d.collisions + 1, countTime := now, online := d.online || tempId == randomId))
            && (answers ==> exists k: nat ::
                  && FirstOpen(d.hints, now, k) && Suggestion(d, now) == d.val + 1 + k
                  && e == d.(hints := if k < 8 then d.hints[k := now] else d.hints))
  {
    assert FirstOpen(d.hints, now, FirstFree(d.hints, now));
  }

  /** Index k is that of the first slot not known to be taken and not suggested in the last two seconds, or 8. */
  predicate FirstOpen(hints: seq<real>, now: real, k: nat) {
    && k <= |hints| && (forall j :: 0 <= j < k ==> hints[j] < 0.0 || now - hints[j] <= 2.0)
    && (k < |hints| ==> hints[k] >= 0.0 && now - hints[k] > 2.0)
  }

  /** An answer to an unlocked device either counts as a collision or names the ordinal to try next. */
  lemma AnswerHeard(d: Device, name: Name, tempId: int, randomId: int, hint: int, now: real)
    requires !d.locked && |d.hints| == 8
    ensures var e := HearRegistered(d, name, tempId, randomId, hint, now);
            var takes := TakesHint(d, name, tempId, randomId, hint);
            && (takes <==> d.id == Some(name) && tempId == randomId && hint > 0 && hint != d.val)
            && (d.id != Some(name) || tempId > randomId || (tempId == randomId && !takes) ==> e == d)
            && (d.id == Some(name) && tempId < randomId ==> e == d.(collisions := d.collisions + 1, countTime := now))
            && (takes ==> e == d.(val := hint, id := Some(Name(d.prefix, hint)), collisions := 0, countTime := now,
                                  hints := seq(8, _ => 0.0)))
  {
    assert seq(8, _ => 0.0) == NO_HINTS;
  }

  /** A locked device notes both the registered ordinal and the suggested one, if they lie in its block of
      eight, and nothing else. */
  lemma NameNoted(d: Device, name: Name, tempId: int, randomId: int, hint: int, now: real)
    requires d.locked && |d.hints| == 8
    ensures var e := HearRegistered(d, name, tempId, randomId, hint, now);
            && |e.hints| == 8 && e == d.(hints := e.hints)
            && forall k :: 0 <= k < 8 ==>
                 e.hints[k] == if name.prefix != d.prefix then d.hints[k]
                               else if hint != 0 && hint == d.val + 1 + k then now
                               else if name.ordinal == d.val + 1 + k then -1.0
                               else d.hints[k]
  {
  }

  /** A departed ordinal of the block is free again, and nothing else changes. */
  lemma LogoutNoted(d: Device, prefix: string, ordinal: int)
    requires |d.hints| == 8
    ensures var e := HearLogout(d, prefix, ordinal);
            && |e.hints| == 8 && e == d.(hints := e.hints)
            && forall k :: 0 <= k < 8 ==>
                 e.hints[k] == if d.locked && d.prefix <= prefix && ordinal == d.val + 1 + k then 0.0 else d.hints[k]
  {
  }

  // ---------- runs ----------

  ghost predicate RegisteredLocked(s: State) {
    forall i :: 0 <= i < |s.devs| ==> s.devs[i].registered ==> s.devs[i].locked
  }

  lemma RegisteredLockedNext(s: State, a: Action)
    requires Shape(s) && Enabled(s, a) && RegisteredLocked(s)
    ensures RegisteredLocked(Next(s, a))
  {
    hide FirstFree, FirstUnused, SetHint, Broadcast;
  }

  lemma {:induction false} RegisteredLockedRun(s: State, acts: seq<Action>)
    requires Shape(s) && ValidRun(s, acts) && RegisteredLocked(s)
    ensures RegisteredLocked(After(s, acts))
    decreases |acts|
  {
    hide RegisteredLocked, Enabled;
    if acts != [] {
      RegisteredLockedNext(s, acts[0]);
      RegisteredLockedRun(Next(s, acts[0]), acts[1..]);
    }
  }

  ghost predicate Sent(net: set<Packet>, from: nat, to: nat, msg: Message) {
    exists p :: p in net && p.from == from && p.to == to && p.msg == msg
  }

  /** Every device is sent the message. */
  ghost predicate SentToAll(s: State, from: nat, msg: Message) {
    forall j :: 0 <= j < |s.devs| ==> Sent(s.net, from, j, msg)
  }

  lemma PutReaches(s: State, i: nat, d: Device, msg: Message)
    requires Shape(s) && i < |s.devs|
    ensures SentToAll(Put(s, i, d, Some(msg)), i, msg)
  {
    var t := Put(s, i, d, Some(msg));
    forall j: nat | j < |t.devs| ensures Sent(t.net, i, j, msg) {
      assert Packet(s.serial, i, j, msg, s.now + s.delay) in t.net;
    }
  }

  lemma MovesOn(s: State, i: nat, rnd: nat)
    requires Shape(s) && i < |s.devs| && |s.devs[i].hints| == 8 && !s.devs[i].locked && !s.devs[i].registered
    requires s.devs[i].online && s.devs[i].collisions > 1 && s.now - s.devs[i].countTime >= 0.25
    ensures var t := Next(s, Check(i, rnd));
            && |t.devs| == |s.devs| && t.devs[i].val > s.devs[i].val && !t.devs[i].locked
            && t.devs[i].id == Some(Name(s.devs[i].prefix, t.devs[i].val))
            && SentToAll(t, i, Probe(Name(s.devs[i].prefix, t.devs[i].val), s.ids[i]))
  {
    ContestedPoll(s.devs[i], s.now, rnd);
    var d := CheckRegistration(s.devs[i], s.now, rnd).0;
    PutReaches(s, i, d, Probe(Name(d.prefix, d.val), s.ids[i]));
    hide CheckRegistration, SentToAll;
  }

  /** In every run a device that has counted two collisions for its name, polled a quarter of a second after
      the last, asks everybody for a larger ordinal. */
  lemma ContestedDeviceMoves(s0: State, acts: seq<Action>, i: nat, rnd: nat)
    requires Initial(s0) && ValidRun(s0, acts)
    requires var s := After(s0, acts);
             && i < |s.devs| && !s.devs[i].locked && s.devs[i].online && s.devs[i].collisions > 1
             && s.now - s.devs[i].countTime >= 0.25
    ensures var s := After(s0, acts);
            var t := Next(s, Check(i, rnd));
            && |t.devs| == |s.devs| && t.devs[i].val > s.devs[i].val && !t.devs[i].locked
            && t.devs[i].id == Some(Name(s.devs[i].prefix, t.devs[i].val))
            && SentToAll(t, i, Probe(Name(s.devs[i].prefix, t.devs[i].val), s.ids[i]))
  {
    SoundRun(s0, acts);
    RegisteredLockedRun(s0, acts);
    hide SentToAll, Next;
    MovesOn(After(s0, acts), i, rnd);
  }

  lemma RunOfFour(s: State, s1: State, s2: State, s3: State, a: Action, b: Action, c: Action, d: Action)
    requires Shape(s) && Enabled(s, a) && Next(s, a) == s1 && Enabled(s1, b) && Next(s1, b) == s2
    requires Enabled(s2, c) && Next(s2, c) == s3 && Enabled(s3, d)
    ensures ValidRun(s, [a, b, c, d]) && After(s, [a, b, c, d]) == Next(s3, d)
  {
    hide Next, Enabled;
    NameBound.AfterStep(s3, d, []);
    NameBound.AfterStep(s2, c, [d]);
    NameBound.AfterStep(s1, b, [c, d]);
    NameBound.AfterStep(s, a, [b, c, d]);
    assert [d] == [d] + [] && [c, d] == [c] + [d] && [b, c, d] == [b] + [c, d] && [a, b, c, d] == [a] + [b, c, d];
  }

  lemma CollisionStep(s: State, p: Packet)
    requires Shape(s) && p in s.net && p.to < |s.devs| && |s.devs[p.to].hints| == 8
    requires p.msg.Probe? && !s.devs[p.to].locked && s.devs[p.to].id == Some(p.msg.name) && p.msg.tempId <= s.ids[p.to]
    ensures var d := s.devs[p.to];
            Next(s, Deliver(p)) ==
            s.(net := s.net - {p},
               devs := s.devs[p.to := d.(collisions := d.collisions + 1, countTime := s.now,
                                         online := d.online || p.msg.tempId == s.ids[p.to])])
  {
    ProbeHeard(s.devs[p.to], p.msg.name, p.msg.tempId, s.ids[p.to], s.now);
    hide HearProbe, AnswersProbe;
  }

  /** Both packets are probes for device i's name that it does not answer, the first one its own. */
  predicate Displaces(s: State, i: nat, own: Packet, rival: Packet)
    requires Shape(s)
  {
    && i < |s.devs| && s.devs[i].id.Some? && !s.devs[i].locked
    && own in s.net && rival in s.net && own != rival && own.to == rival.to == i
    && own.msg == Probe(s.devs[i].id.value, s.ids[i])
    && rival.msg.Probe? && rival.msg.name == s.devs[i].id.value && rival.msg.tempId <= s.ids[i]
  }

  /** The two are delivered, and a quarter of a second later the device is polled. */
  function Displacement(i: nat, own: Packet, rival: Packet, time: real, rnd: nat): seq<Action> {
    [Deliver(own), Deliver(rival), Tick(time), Check(i, rnd)]
  }

  lemma Displaced(s: State, i: nat, own: Packet, rival: Packet, time: real, rnd: nat)
    requires Sound(s) && RegisteredLocked(s) && Displaces(s, i, own, rival)
    requires time >= s.now + 0.25 && forall p :: p in s.net && p != own && p != rival ==> time <= p.due
    ensures var more := Displacement(i, own, rival, time, rnd);
            && ValidRun(s, more)
            && var t := After(s, more);
               && |t.devs| == |s.devs| && t.devs[i].val > s.devs[i].val && !t.devs[i].locked
               && SentToAll(t, i, Probe(Name(s.devs[i].prefix, t.devs[i].val), s.ids[i]))
  {
    var d := s.devs[i];
    var d1 := d.(collisions := d.collisions + 1, countTime := s.now, online := true);
    var d2 := d1.(collisions := d.collisions + 2);
    var s1 := s.(net := s.net - {own}, devs := s.devs[i := d1]);
    var s2 := s1.(net := s1.net - {rival}, devs := s1.devs[i := d2]);
    var s3 := s2.(now := time);
    CollisionStep(s, own);
    CollisionStep(s1, rival);
    assert Next(s2, Tick(time)) == s3;
    hide Next, SentToAll;
    RunOfFour(s, s1, s2, s3, Deliver(own), Deliver(rival), Tick(time), Check(i, rnd));
    MovesOn(s3, i, rnd);
  }

  /** In every run two probes for its name that a device does not answer, one of them its own, are enough to
      make it move on: it asks everybody for a larger ordinal. */
  lemma RivalProbeDisplaces(s0: State, acts: seq<Action>, i: nat, own: Packet, rival: Packet, time: real, rnd: nat)
    requires Initial(s0) && ValidRun(s0, acts) && Displaces(After(s0, acts), i, own, rival)
    requires var s := After(s0, acts);
             time >= s.now + 0.25 && forall p :: p in s.net && p != own && p != rival ==> time <= p.due
    ensures var s, more := After(s0, acts), Displacement(i, own, rival, time, rnd);
            && ValidRun(s, more)
            && var t := After(s, more);
               && |t.devs| == |s.devs| && t.devs[i].val > s.devs[i].val && !t.devs[i].locked
               && SentToAll(t, i, Probe(Name(s.devs[i].prefix, t.devs[i].val), s.ids[i]))
  {
    SoundRun(s0, acts);
    RegisteredLockedRun(s0, acts);
    hide Next, SentToAll, Displacement;
    Displaced(After(s0, acts), i, own, rival, time, rnd);
  }

  /** In every run a named device without a lock is never stuck: five seconds after it last counted, a poll
      either locks its name and announces it to all, or asks all for a name. */
  lemma NeverStuck(s0: State, acts: seq<Action>, i: nat, rnd: nat)
    requires Initial(s0) && ValidRun(s0, acts)
    requires var s := After(s0, acts);
             i < |s.devs| && s.devs[i].id.Some? && !s.devs[i].locked && s.now - s.devs[i].countTime >= 5.0
    ensures var s := After(s0, acts);
            var t := Next(s, Check(i, rnd));
            && |t.devs| == |s.devs| && t.devs[i].id == Some(Name(s.devs[i].prefix, t.devs[i].val))
            && if t.devs[i].locked then t.devs[i].registered && SentToAll(t, i, Registered(t.devs[i].id.value, -1, 0))
               else SentToAll(t, i, Probe(t.devs[i].id.value, s.ids[i]))
  {
    var s := After(s0, acts);
    SoundRun(s0, acts);
    RegisteredLockedRun(s0, acts);
    var d := s.devs[i];
    IdlePoll(d, s.now, rnd);
    var (e, poll) := CheckRegistration(d, s.now, rnd);
    var name := Name(e.prefix, e.val);
    PutReaches(s, i, e, if poll == Probing then Probe(name, s.ids[i]) else Registered(name, -1, 0));
    hide SentToAll;
  }

  /** Device i hears that someone was told to try the name. */
  predicate Rehinted(a: Action, i: nat, name: Name) {
    && a.Deliver? && a.packet.to == i && a.packet.msg.Registered?
    && a.packet.msg.name.prefix == name.prefix && a.packet.msg.hint == name.ordinal
  }

  /** A step without a logout leaves the mark of a taken ordinal in place, unless it is such a hint: then the
      mark becomes the present time. */
  lemma MarkNext(s: State, a: Action, i: nat, k: nat)
    requires Sound(s) && Enabled(s, a) && i < |s.devs| && !Disturbs(s, a, i) && k < 8
    requires s.devs[i].locked && s.devs[i].hints[k] == -1.0
    ensures var c, d := s.devs[i], Next(s, a).devs[i];
            && d.locked && |d.hints| == 8 && d.val == c.val && d.prefix == c.prefix
            && d.hints[k] == if Rehinted(a, i, Name(c.prefix, c.val + 1 + k)) then s.now else -1.0
  {
    var d := s.devs[i];
    if a.Deliver? && a.packet.to == i {
      match a.packet.msg
      case Probe(name, tempId) => ProbeHeard(d, name, tempId, s.ids[i], s.now);
      case Registered(name, tempId, hint) => NameNoted(d, name, tempId, s.ids[i], hint, s.now);
    } else if a.Check? && a.dev == i {
      IdlePoll(d, s.now, a.rnd);
    }
    hide HearProbe, HearRegistered, HearLogout, Broadcast, Suggestion, AnswersProbe, TakesHint;
  }

  lemma {:induction false} MarkRun(s: State, acts: seq<Action>, i: nat, k: nat)
    requires Sound(s) && ValidRun(s, acts) && i < |s.devs| && k < 8 && Undisturbed(s, acts, i)
    requires s.devs[i].locked && s.devs[i].hints[k] == -1.0
    requires forall a :: a in acts ==> !Rehinted(a, i, Name(s.devs[i].prefix, s.devs[i].val + 1 + k))
    ensures var t := After(s, acts);
            i < |t.devs| && |t.devs[i].hints| == 8 && t.devs[i].hints[k] == -1.0 && t.devs[i].val == s.devs[i].val
    decreases |acts|
  {
    if acts != [] {
      assert acts[0] in acts;
      SoundNext(s, acts[0]);
      MarkNext(s, acts[0], i, k);
      hide Sound, Next, Enabled, Disturbs, Rehinted;
      forall a | a in acts[1..] ensures !Rehinted(a, i, Name(s.devs[i].prefix, s.devs[i].val + 1 + k)) {
        assert a in acts;
      }
      MarkRun(Next(s, acts[0]), acts[1..], i, k);
    }
  }

  /** An ordinal that a locked device has heard registered is never suggested again before it hears a logout,
      or that someone else was told to try that ordinal. */
  lemma TakenIsNotSuggested(s: State, p: Packet, acts: seq<Action>, now: real)
    requires Sound(s) && Enabled(s, Deliver(p)) && s.devs[p.to].locked && p.msg.Registered?
    requires p.msg.name.prefix == s.devs[p.to].prefix && p.msg.hint == 0
    requires s.devs[p.to].val < p.msg.name.ordinal <= s.devs[p.to].val + 8
    requires ValidRun(Next(s, Deliver(p)), acts) && Undisturbed(Next(s, Deliver(p)), acts, p.to)
    requires forall a :: a in acts ==> !Rehinted(a, p.to, p.msg.name)
    ensures var u := After(Next(s, Deliver(p)), acts);
            p.to < |u.devs| && |u.devs[p.to].hints| == 8 && Suggestion(u.devs[p.to], now) != p.msg.name.ordinal
  {
    var t, k := Next(s, Deliver(p)), p.msg.name.ordinal - s.devs[p.to].val - 1;
    NameNoted(s.devs[p.to], p.msg.name, p.msg.tempId, s.ids[p.to], 0, s.now);
    SoundNext(s, Deliver(p));
    assert t.devs[p.to].locked && t.devs[p.to].val == s.devs[p.to].val && t.devs[p.to].hints[k] == -1.0;
    hide HearRegistered, Sound, Next;
    MarkRun(t, acts, p.to, k);
  }

  /** Such a hint is what makes it be suggested again: two seconds later it is the one suggested when all
      smaller ordinals of the block are taken. */
  lemma RehintedIsSuggested(s: State, p: Packet, k: nat, now: real)
    requires Sound(s) && Enabled(s, Deliver(p)) && s.devs[p.to].locked && k < 8 && 0.0 <= s.now < now - 2.0
    requires s.devs[p.to].hints[k] == -1.0 && forall j :: 0 <= j < k ==> s.devs[p.to].hints[j] == -1.0
    requires Rehinted(Deliver(p), p.to, Name(s.devs[p.to].prefix, s.devs[p.to].val + 1 + k))
    ensures var t := Next(s, Deliver(p));
            && |t.devs| == |s.devs| && |t.devs[p.to].hints| == 8
            && Suggestion(t.devs[p.to], now) == s.devs[p.to].val + 1 + k
  {
    NameNoted(s.devs[p.to], p.msg.name, p.msg.tempId, s.ids[p.to], p.msg.hint, s.now);
    var d := Next(s, Deliver(p)).devs[p.to];
    assert FirstOpen(d.hints, now, FirstFree(d.hints, now));
  }

  /** Once an ordinal of the block has left, it or a smaller one is suggested next, from two seconds on. */
  lemma DepartedIsFree(s: State, i: nat, prefix: string, ordinal: int, now: real)
    requires Sound(s) && i < |s.devs| && s.devs[i].locked && s.devs[i].prefix <= prefix && now > 2.0
    requires s.devs[i].val < ordinal <= s.devs[i].val + 8
    ensures var t := Next(s, Depart(i, prefix, ordinal));
            |t.devs| == |s.devs| && |t.devs[i].hints| == 8 && Suggestion(t.devs[i], now) <= ordinal
  {
    LogoutNoted(s.devs[i], prefix, ordinal);
    var d, k := Next(s, Depart(i, prefix, ordinal)).devs[i], ordinal - s.devs[i].val - 1;
    assert d.hints[k] == 0.0 && FirstOpen(d.hints, now, FirstFree(d.hints, now));
  }
}
