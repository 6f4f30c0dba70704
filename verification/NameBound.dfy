/**
 The delay bound of the agreement theorem is exact: as soon as a probe and its answer together can take
 a second, two devices with different random ids can lock the same name.
 */
module NameBound {
  import opened Wrappers
  import opened NameAllocation
  import opened NameProtocol

  const FIRST: Name := Name("synth", 1)

  function Fresh(): Device {
    Device("synth", None, 1, 0.0, NO_HINTS, 0, false, false, false)
  }

  function Held(countTime: real, collisions: nat, locked: bool): Device {
    Device("synth", Some(FIRST), 1, countTime, NO_HINTS, collisions, locked, true, locked)
  }

  /** A bus with two devices; the second has the larger random id. */
  function Bus(now: real, delay: real, d0: Device, d1: Device, since: seq<real>, net: set<Packet>, serial: nat): State {
    State(now, delay, [d0, d1], [3, 5], since, net, serial)
  }

  lemma AfterStep(s: State, a: Action, acts: seq<Action>)
    requires Shape(s) && Enabled(s, a) && ValidRun(Next(s, a), acts)
    ensures ValidRun(s, [a] + acts) && After(s, [a] + acts) == After(Next(s, a), acts)
  {
    assert ([a] + acts)[1..] == acts;
  }

  lemma BroadcastToTwo(serial: nat, from: nat, msg: Message, due: real)
    ensures Broadcast(2, serial, from, msg, due) ==
            {Packet(serial, from, 0, msg, due), Packet(serial, from, 1, msg, due)}
  {
  }

  /** The first device probes, hears itself and locks after a second. */
  lemma FirstLocks(delay: real, s: State, t: State) returns (acts: seq<Action>)
    requires delay >= 0.5
    requires s == Bus(10.0, delay, Fresh(), Fresh(), [0.0, 0.0], {}, 0)
    requires t == Bus(11.0, delay, Held(10.0, 1, true), Fresh(), [10.0, 0.0], {}, 2)
    ensures ValidRun(s, acts) && After(s, acts) == t
  {
    var p := Probe(FIRST, 3);
    var r := Registered(FIRST, -1, 0);
    BroadcastToTwo(0, 0, p, 10.0 + delay);
    BroadcastToTwo(1, 0, r, 11.0 + delay);
    var own, other := Packet(0, 0, 0, p, 10.0 + delay), Packet(0, 0, 1, p, 10.0 + delay);
    var own', other' := Packet(1, 0, 0, r, 11.0 + delay), Packet(1, 0, 1, r, 11.0 + delay);
    var named := Fresh().(id := Some(FIRST), countTime := 10.0);
    var s1 := Bus(10.0, delay, named, Fresh(), [10.0, 0.0], {own, other}, 1);
    assert Next(s, Start(0, 1)) == s1;
    var s2 := Bus(10.0, delay, Held(10.0, 1, false), Fresh(), [10.0, 0.0], {other}, 1);
    assert Next(s1, Deliver(own)) == s2 by { assert s1.net - {own} == {other}; }
    var s3 := s2.(net := {});
    assert Next(s2, Deliver(other)) == s3 by { assert s2.net - {other} == {}; }
    var s4 := s3.(now := 11.0);
    assert Next(s3, Tick(11.0)) == s4;
    var s5 := Bus(11.0, delay, Held(10.0, 1, true), Fresh(), [10.0, 0.0], {own', other'}, 2);
    assert Next(s4, Check(0, 0)) == s5;
    var s6 := s5.(net := {other'});
    assert Next(s5, Deliver(own')) == s6 by { assert s5.net - {own'} == {other'}; }
    assert Next(s6, Deliver(other')) == t by { assert s6.net - {other'} == {}; }
    acts := [];
    AfterStep(s6, Deliver(other'), acts); acts := [Deliver(other')] + acts;
    AfterStep(s5, Deliver(own'), acts); acts := [Deliver(own')] + acts;
    AfterStep(s4, Check(0, 0), acts); acts := [Check(0, 0)] + acts;
    AfterStep(s3, Tick(11.0), acts); acts := [Tick(11.0)] + acts;
    AfterStep(s2, Deliver(other), acts); acts := [Deliver(other)] + acts;
    AfterStep(s1, Deliver(own), acts); acts := [Deliver(own)] + acts;
    AfterStep(s, Start(0, 1), acts); acts := [Start(0, 1)] + acts;
  }

  /** The second device probes the same name; the answer is still on its way a second later. */
  lemma SecondLocksToo(delay: real, s: State) returns (acts: seq<Action>)
    requires delay >= 0.5
    requires s == Bus(11.0, delay, Held(10.0, 1, true), Fresh(), [10.0, 0.0], {}, 2)
    ensures ValidRun(s, acts) && !Agreement(After(s, acts))
  {
    var p, hint := Probe(FIRST, 5), Registered(FIRST, 5, 2);
    BroadcastToTwo(2, 1, p, 11.0 + delay);
    BroadcastToTwo(3, 0, hint, 11.5 + delay);
    BroadcastToTwo(4, 1, Registered(FIRST, -1, 0), 12.0 + delay);
    var own, other := Packet(2, 1, 1, p, 11.0 + delay), Packet(2, 1, 0, p, 11.0 + delay);
    var answers := Broadcast(2, 3, 0, hint, 11.5 + delay);
    var first := Held(10.0, 1, true);
    var noted := first.(hints := NO_HINTS[0 := 11.5]);
    var named := Fresh().(id := Some(FIRST), countTime := 11.0);
    var s1 := Bus(11.0, delay, first, named, [10.0, 11.0], {own, other}, 3);
    assert Next(s, Start(1, 1)) == s1;
    var s2 := Bus(11.0, delay, first, Held(11.0, 1, false), [10.0, 11.0], {other}, 3);
    assert Next(s1, Deliver(own)) == s2 by { assert s1.net - {own} == {other}; }
    var s3 := s2.(now := 11.5);
    assert Next(s2, Tick(11.5)) == s3;
    assert FirstFree(NO_HINTS, 11.5) == 0;
    var s4 := Bus(11.5, delay, noted, Held(11.0, 1, false), [10.0, 11.0], answers, 4);
    assert Next(s3, Deliver(other)) == s4 by { assert s3.net - {other} == {}; }
    var s5 := s4.(now := 12.0);
    assert Next(s4, Tick(12.0)) == s5;
    var s6 := Next(s5, Check(1, 0));
    assert s6.devs == [noted, Held(11.0, 1, true)];
    assert s6.devs[0].locked && s6.devs[1].locked && s6.devs[0].id == s6.devs[1].id;
    acts := [];
    AfterStep(s5, Check(1, 0), acts); acts := [Check(1, 0)] + acts;
    AfterStep(s4, Tick(12.0), acts); acts := [Tick(12.0)] + acts;
    AfterStep(s3, Deliver(other), acts); acts := [Deliver(other)] + acts;
    AfterStep(s2, Tick(11.5), acts); acts := [Tick(11.5)] + acts;
    AfterStep(s1, Deliver(own), acts); acts := [Deliver(own)] + acts;
    AfterStep(s, Start(1, 1), acts); acts := [Start(1, 1)] + acts;
  }

  lemma {:induction false} AfterConcat(s: State, acts: seq<Action>, more: seq<Action>)
    requires Shape(s) && ValidRun(s, acts) && ValidRun(After(s, acts), more)
    ensures ValidRun(s, acts + more) && After(s, acts + more) == After(After(s, acts), more)
    decreases |acts|
  {
    hide Next, Enabled;
    if acts == [] {
      assert acts + more == more;
    } else {
      AfterConcat(Next(s, acts[0]), acts[1..], more);
      assert (acts + more)[1..] == acts[1..] + more;
    }
  }

  /** Every run agrees, whatever the devices, exactly when a round trip takes less than a second. */
  ghost predicate AlwaysAgrees(delay: real) {
    forall s, acts :: Initial(s) && s.delay == delay && ValidRun(s, acts) ==> Agreement(After(s, acts))
  }

  lemma SlowBusDisagrees(delay: real)
    requires delay >= 0.5
    ensures !AlwaysAgrees(delay)
  {
    hide Next, Agreement, Enabled;
    var s := Bus(10.0, delay, Fresh(), Fresh(), [0.0, 0.0], {}, 0);
    var t := Bus(11.0, delay, Held(10.0, 1, true), Fresh(), [10.0, 0.0], {}, 2);
    var first := FirstLocks(delay, s, t);
    var second := SecondLocksToo(delay, t);
    AfterConcat(s, first, second);
    assert Initial(s);
  }

  lemma AgreementIffRoundTripUnderOneSecond(delay: real)
    requires delay >= 0.0
    ensures AlwaysAgrees(delay) <==> 2.0 * delay < 1.0
  {
    if 2.0 * delay < 1.0 {
      forall s, acts | Initial(s) && s.delay == delay && ValidRun(s, acts) ensures Agreement(After(s, acts)) {
        AgreementHolds(s, acts);
      }
    } else {
      SlowBusDisagrees(delay);
    }
  }
}
