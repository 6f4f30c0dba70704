/**
 The device record whose fields the message handlers update in place, with each handler proved
 against the corresponding pure step of NameAllocation.
 */
module LocalDevice {
  import opened Wrappers
  import opened NameAllocation

  class LocalDev {
    const prefix: string
    var id: Option<Name>
    var val: nat
    var countTime: real
    const hints: array<real>
    var collisions: nat
    var locked: bool
    var online: bool
    var registered: bool

    ghost function Value(): Device
      reads this, hints
    {
      Device(prefix, id, val, countTime, hints[..], collisions, locked, online, registered)
    }

    ghost predicate Valid()
      reads this, hints
    {
      hints.Length == NUM_HINTS && WellFormed(Value())
    }

    constructor (prefix: string, now: real)
      ensures Valid() && fresh(hints)
      ensures Value() == Device(prefix, None, 1, now, NO_HINTS, 0, false, false, false)
    {
      this.prefix := prefix;
      id, val, countTime, collisions := None, 1, now, 0;
      locked, online, registered := false, false, false;
      hints := new real[NUM_HINTS](_ => 0.0);
      new;
      assert hints[..] == NO_HINTS;
    }

    method ClearHints()
      requires hints.Length == NUM_HINTS
      modifies hints
      ensures hints[..] == NO_HINTS
    {
      for i := 0 to NUM_HINTS
        invariant forall j :: 0 <= j < i ==> hints[j] == 0.0
      {
        hints[i] := 0.0;
      }
      assert hints[..] == NO_HINTS;
    }

    /** Store `x` in the hint for `ordinal` when that lies in the block behind this device. */
    method NoteHint(ordinal: int, x: real)
      requires hints.Length == NUM_HINTS
      modifies hints
      ensures hints[..] == SetHint(old(hints[..]), ordinal - val - 1, x)
    {
      var diff := ordinal - val - 1;
      if 0 <= diff < NUM_HINTS {
        hints[diff] := x;
      }
    }

    method Probe(start: nat, now: real, randomId: int) returns (msg: Message)
      requires hints.Length == NUM_HINTS && (start > 0 || val > 0)
      modifies this, hints
      ensures Valid() && Value() == ProbeName(old(Value()), start, now)
      ensures msg == Message.Probe(Name(prefix, val), randomId)
    {
      if start != 0 {
        val := start;
      }
      collisions := 0;
      countTime := now;
      ClearHints();
      id := Some(Name(prefix, val));
      msg := Message.Probe(Name(prefix, val), randomId);
    }

    method HandleName(name: Name, tempId: int, randomId: int, hint: int, now: real)
      returns (reply: Option<Message>)
      requires Valid()
      modifies this, hints
      ensures Valid()
      ensures Value() == HearRegistered(old(Value()), name, tempId, randomId, hint, now)
      ensures reply == if old(TakesHint(Value(), name, tempId, randomId, hint))
                       then Some(Message.Probe(Name(prefix, val), randomId)) else None
    {
      reply := None;
      if locked {
        if name.prefix == prefix {
          NoteHint(name.ordinal, -1.0);
          if hint != 0 {
            NoteHint(hint, now);
          }
        }
      } else if id == Some(name) {
        if tempId < randomId {
          collisions := collisions + 1;
          countTime := now;
        } else if tempId == randomId && hint > 0 && hint != val {
          var probe := Probe(hint, now, randomId);
          reply := Some(probe);
        }
      }
    }

    method HandleNameProbe(name: Name, tempId: int, randomId: int, now: real)
      returns (reply: Option<Message>)
      requires Valid()
      modifies this, hints
      ensures Valid() && Value() == HearProbe(old(Value()), name, tempId, randomId, now)
      ensures reply == if old(AnswersProbe(Value(), name, tempId, randomId))
                       then Some(Registered(name, tempId, old(Suggestion(Value(), now)))) else None
    {
      reply := None;
      if id != Some(name) {
        return;
      }
      if locked || tempId > randomId {
        var i := 0;
        while i < NUM_HINTS
          invariant 0 <= i <= NUM_HINTS && Value() == old(Value())
          invariant FirstFree(hints[..], now, i) == FirstFree(hints[..], now)
        {
          if hints[i] >= 0.0 && now - hints[i] > 2.0 {
            hints[i] := now;
            break;
          }
          i := i + 1;
        }
        reply := Some(Registered(name, tempId, val + i + 1));
      } else {
        collisions := collisions + 1;
        countTime := now;
        if tempId == randomId {
          online := true;
        }
      }
    }

    method CheckCollisions(now: real, rnd: nat) returns (verdict: Verdict)
      requires Valid()
      modifies this, hints
      ensures hints.Length == NUM_HINTS
      ensures (Value(), verdict) == NameAllocation.CheckCollisions(old(Value()), now, rnd)
      ensures verdict != Reprobe ==> Valid()
      ensures id == old(id) && (val > 0 || val == old(val))
    {
      verdict := Wait;
      if locked {
        return;
      }
      var elapsed := now - countTime;
      if !online {
        if elapsed >= 5.0 {
          countTime := now;
          verdict := Reprobe;
        }
      } else if elapsed >= 1.0 && collisions < 2 {
        locked := true;
        verdict := Locked;
      } else if elapsed >= 0.25 && collisions > 1 {
        var i := 0;
        while i < NUM_HINTS && hints[i] != 0.0
          invariant 0 <= i <= NUM_HINTS
          invariant FirstUnused(hints[..], i) == FirstUnused(hints[..])
        {
          i := i + 1;
        }
        val := val + i + 1 + rnd % collisions;
        collisions := 0;
        countTime := now;
        ClearHints();
        verdict := Reprobe;
      }
    }

    method CheckRegistration(now: real, rnd: nat, randomId: int) returns (msg: Option<Message>)
      requires Valid() && val > 0
      modifies this, hints
      ensures Valid()
      ensures var (d, poll) := NameAllocation.CheckRegistration(old(Value()), now, rnd);
              && Value() == d
              && msg == match poll
                        case Idle => None
                        case Probing => Some(Message.Probe(Name(prefix, val), randomId))
                        case Announcing => Some(Registered(Name(prefix, val), -1, 0))
    {
      msg := None;
      if registered {
        return;
      }
      var verdict := CheckCollisions(now, rnd);
      if verdict == Reprobe {
        var probe := Probe(0, now, randomId);
        msg := Some(probe);
      } else if locked {
        registered := true;
        msg := Some(Registered(Name(prefix, val), -1, 0));
      }
    }

    method HandleLogout(prefix: string, ordinal: int)
      requires Valid()
      modifies hints
      ensures Valid() && Value() == HearLogout(old(Value()), prefix, ordinal)
    {
      if locked && this.prefix <= prefix {
        NoteHint(ordinal, 0.0);
      }
    }
  }
}
