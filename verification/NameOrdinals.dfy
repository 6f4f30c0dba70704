/**
 What holds of ordinals and hints over all runs, for any delay: ordinals only grow, a locked name is
 kept for good, and a responder does not hand out one hint twice within two seconds.
 */
module NameOrdinals {
  import opened Wrappers
  import opened NameAllocation
  import opened NameProtocol

  /** Devices are well formed and every hint in flight lies beyond the ordinal it answers. */
  ghost predicate Sound(s: State) {
    && Shape(s)
    && (forall i :: 0 <= i < |s.devs| ==> WellFormed(s.devs[i]) && s.devs[i].val > 0)
    && (forall p :: p in s.net ==> HintAhead(p.msg))
  }

  predicate HintAhead(msg: Message) {
    msg.Registered? && msg.hint > 0 ==> msg.hint > msg.name.ordinal
  }

  /** Device i moves from `d` to `e` without going back. */
  predicate Ahead(d: Device, e: Device) {
    d.id.Some? ==> e.id.Some? && e.val >= d.val && (d.locked ==> e.locked && e.id == d.id && e.val == d.val)
  }

  lemma SoundPut(s: State, i: nat, d: Device, msg: Option<Message>)
    requires Sound(s) && i < |s.devs| && WellFormed(d) && d.val > 0 && Ahead(s.devs[i], d)
    requires msg.Some? ==> HintAhead(msg.value)
    ensures Sound(Put(s, i, d, msg)) && |Put(s, i, d, msg).devs| == |s.devs|
    ensures forall j :: 0 <= j < |s.devs| ==> Ahead(s.devs[j], Put(s, i, d, msg).devs[j])
  {
    hide WellFormed, HintAhead;
  }

  lemma SoundHear(s: State, p: Packet)
    requires Sound(s) && p.to < |s.devs| && HintAhead(p.msg)
    ensures Sound(Hear(s, p)) && |Hear(s, p).devs| == |s.devs|
    ensures forall j :: 0 <= j < |s.devs| ==> Ahead(s.devs[j], Hear(s, p).devs[j])
  {
    hide Put;
    var i, d, id := p.to, s.devs[p.to], s.ids[p.to];
    match p.msg
    case Probe(name, tempId) =>
      SoundPut(s, i, HearProbe(d, name, tempId, id, s.now),
               if AnswersProbe(d, name, tempId, id)
               then Some(Registered(name, tempId, Suggestion(d, s.now))) else None);
    case Registered(name, tempId, hint) =>
      SoundPut(s, i, HearRegistered(d, name, tempId, id, hint, s.now),
               if TakesHint(d, name, tempId, id, hint) then Some(Probe(Name(d.prefix, hint), id)) else None);
  }

  lemma SoundNext(s: State, a: Action)
    requires Sound(s) && Enabled(s, a)
    ensures Sound(Next(s, a))
    ensures |Next(s, a).devs| == |s.devs|
    ensures forall i :: 0 <= i < |s.devs| ==> Ahead(s.devs[i], Next(s, a).devs[i])
  {
    hide Put, Hear;
    match a
    case Start(i, ordinal) =>
      SoundPut(s, i, ProbeName(s.devs[i], ordinal, s.now), Some(Probe(Name(s.devs[i].prefix, ordinal), s.ids[i])));
    case Deliver(p) => SoundHear(s.(net := s.net - {p}), p);
    case Check(i, rnd) =>
      var (d, poll) := CheckRegistration(s.devs[i], s.now, rnd);
      SoundPut(s, i, d, match poll
                        case Idle => None
                        case Probing => Some(Probe(Name(d.prefix, d.val), s.ids[i]))
                        case Announcing => Some(Registered(Name(d.prefix, d.val), -1, 0)));
    case Depart(i, prefix, ordinal) => SoundPut(s, i, HearLogout(s.devs[i], prefix, ordinal), None);
    case Tick(_) =>
  }

  lemma {:induction false} SoundRun(s: State, acts: seq<Action>)
    requires Sound(s) && ValidRun(s, acts)
    ensures Sound(After(s, acts)) && |After(s, acts).devs| == |s.devs|
    ensures forall i :: 0 <= i < |s.devs| ==> Ahead(s.devs[i], After(s, acts).devs[i])
    decreases |acts|
  {
    if acts != [] {
      var t := Next(s, acts[0]);
      SoundNext(s, acts[0]);
      SoundRun(t, acts[1..]);
      forall i | 0 <= i < |s.devs| ensures Ahead(s.devs[i], After(s, acts).devs[i]) {
        assert Ahead(s.devs[i], t.devs[i]) && Ahead(t.devs[i], After(s, acts).devs[i]);
      }
    }
  }

  /** Between any two moments of any run a named device's ordinal does not fall, and a lock is final. */
  lemma OrdinalsOnlyGrow(s: State, acts: seq<Action>, more: seq<Action>, i: nat)
    requires Initial(s) && ValidRun(s, acts) && ValidRun(After(s, acts), more) && i < |s.devs|
    ensures var t := After(s, acts); var u := After(t, more);
            && i < |t.devs| == |u.devs|
            && (t.devs[i].id.Some? ==> u.devs[i].id.Some? && u.devs[i].val >= t.devs[i].val)
            && (t.devs[i].locked ==> u.devs[i].locked && u.devs[i].id == t.devs[i].id)
  {
    SoundRun(s, acts);
    SoundRun(After(s, acts), more);
    var t := After(s, acts);
    assert Ahead(t.devs[i], After(t, more).devs[i]) && WellFormed(t.devs[i]);
  }

  // ---------- hints ----------

  /** The step makes device i start over with a new probe, or frees one of its hints. */
  ghost predicate Disturbs(s: State, a: Action, i: nat)
    requires Shape(s) && i < |s.devs|
  {
    match a
    case Start(j, _) => j == i
    case Depart(j, _, _) => j == i
    case Check(j, rnd) => j == i && CheckRegistration(s.devs[i], s.now, rnd).1 == Probing
    case Deliver(p) =>
      p.to == i && p.msg.Registered?
      && TakesHint(s.devs[i], p.msg.name, p.msg.tempId, s.ids[i], p.msg.hint)
    case Tick(_) => false
  }

  ghost predicate Undisturbed(s: State, acts: seq<Action>, i: nat)
    requires Shape(s) && ValidRun(s, acts) && i < |s.devs|
    decreases |acts|
  {
    acts == [] || (!Disturbs(s, acts[0], i) && |Next(s, acts[0]).devs| == |s.devs|
                   && Undisturbed(Next(s, acts[0]), acts[1..], i))
  }

  /** Hint k was taken no earlier than `time`. */
  predicate TakenSince(d: Device, k: nat, time: real) {
    k < |d.hints| && (d.hints[k] == -1.0 || d.hints[k] >= time)
  }

  lemma TakenHear(s: State, p: Packet, k: nat, time: real)
    requires Sound(s) && p.to < |s.devs| && !Disturbs(s, Deliver(p), p.to)
    requires time <= s.now && TakenSince(s.devs[p.to], k, time)
    ensures var d := Hear(s, p).devs[p.to]; TakenSince(d, k, time) && d.val == s.devs[p.to].val
  {
    hide Suggestion, Broadcast;
  }

  lemma TakenNext(s: State, a: Action, i: nat, k: nat, time: real)
    requires Sound(s) && Enabled(s, a) && i < |s.devs| && !Disturbs(s, a, i)
    requires time <= s.now && TakenSince(s.devs[i], k, time)
    ensures var t := Next(s, a);
            i < |t.devs| && TakenSince(t.devs[i], k, time) && t.devs[i].val == s.devs[i].val && s.now <= t.now
  {
    if a.Deliver? && a.packet.to == i {
      TakenHear(s.(net := s.net - {a.packet}), a.packet, k, time);
    }
    hide HearProbe, HearRegistered, HearLogout, AnswersProbe, TakesHint, Suggestion, Broadcast, TakenSince;
    TakenCheck(s.devs[i], s.now, k, time);
  }

  lemma TakenCheck(d: Device, now: real, k: nat, time: real)
    requires TakenSince(d, k, time)
    ensures forall rnd :: var (e, poll) := CheckRegistration(d, now, rnd);
                          poll != Probing ==> TakenSince(e, k, time) && e.val == d.val
  {
  }

  lemma {:induction false} TakenRun(s: State, acts: seq<Action>, i: nat, k: nat, time: real)
    requires Sound(s) && ValidRun(s, acts) && i < |s.devs| && Undisturbed(s, acts, i)
    requires time <= s.now && TakenSince(s.devs[i], k, time)
    ensures i < |After(s, acts).devs| && TakenSince(After(s, acts).devs[i], k, time)
    ensures After(s, acts).devs[i].val == s.devs[i].val
    decreases |acts|
  {
    if acts != [] {
      SoundNext(s, acts[0]);
      TakenNext(s, acts[0], i, k, time);
      hide Sound, TakenSince, Next, Enabled, Disturbs;
      TakenRun(Next(s, acts[0]), acts[1..], i, k, time);
    }
  }

  /** Device i answers two probes at most two seconds apart, and in between neither starts over nor
      hears a logout.  The two hints coincide only when its block of eight is used up. */
  lemma HintsDiffer(s: State, p: Packet, acts: seq<Action>, q: Packet)
    requires Sound(s) && Enabled(s, Deliver(p)) && p.msg.Probe?
    requires AnswersProbe(s.devs[p.to], p.msg.name, p.msg.tempId, s.ids[p.to])
    requires ValidRun(Next(s, Deliver(p)), acts) && Undisturbed(Next(s, Deliver(p)), acts, p.to)
    requires var u := After(Next(s, Deliver(p)), acts);
             q.to == p.to < |u.devs| && u.now - s.now <= 2.0
    ensures var u := After(Next(s, Deliver(p)), acts);
            var first, second := Suggestion(s.devs[p.to], s.now), Suggestion(u.devs[q.to], u.now);
            first == second ==> first == s.devs[p.to].val + NUM_HINTS + 1
  {
    var t := Next(s, Deliver(p));
    var k := FirstFree(s.devs[p.to].hints, s.now);
    SoundNext(s, Deliver(p));
    if k < NUM_HINTS {
      assert TakenSince(t.devs[p.to], k, s.now);
      TakenRun(t, acts, p.to, k, s.now);
      SoundRun(t, acts);
    }
  }
}
