/**
 The pure steps of ordinal allocation: what one local device does to its `ordinal_allocator`
 when it probes a name, hears /name/probe or /name/registered, hears a logout, or is polled.
 A device name `<prefix>.<ordinal>` is a pair, so distinct names have distinct ids.
 */
module NameAllocation {
  import opened Wrappers

  const NUM_HINTS: nat := 8

  datatype Name = Name(prefix: string, ordinal: nat)

  /** /name/probe and /name/registered.  An announcement without id arguments has
      `tempId == -1` and `hint == 0`, the defaults of the receiving handler. */
  datatype Message =
    | Probe(name: Name, tempId: int)
    | Registered(name: Name, tempId: int, hint: int)

  /** A local device.  `id` is None until the first probe gives the device a name. */
  datatype Device = Device(
    prefix: string,
    id: Option<Name>,
    val: nat,
    countTime: real,
    hints: seq<real>,
    collisions: nat,
    locked: bool,
    online: bool,
    registered: bool)

  ghost predicate WellFormed(d: Device) {
    && |d.hints| == NUM_HINTS
    && (d.id.Some? ==> d.id.value == Name(d.prefix, d.val) && d.val > 0)
    && (d.id.None? ==> !d.online && !d.locked)
  }

  const NO_HINTS: seq<real> := [0.0, 0.0, 0.0, 0.0, 0.0, 0.0, 0.0, 0.0]

  function ProbeName(d: Device, start: nat, now: real): Device {
    var val := if start != 0 then start else d.val;
    d.(val := val, collisions := 0, countTime := now, hints := NO_HINTS, id := Some(Name(d.prefix, val)))
  }

  /** Index of the first hint that is neither taken by a registered name (-1) nor handed out in the
      last two seconds; `|hints|` when there is none. */
  function FirstFree(hints: seq<real>, now: real, from: nat := 0): (i: nat)
    requires from <= |hints|
    ensures from <= i <= |hints|
    ensures forall j :: from <= j < i ==> hints[j] < 0.0 || now - hints[j] <= 2.0
    ensures i < |hints| ==> hints[i] >= 0.0 && now - hints[i] > 2.0
    decreases |hints| - from
  {
    if from == |hints| || (hints[from] >= 0.0 && now - hints[from] > 2.0) then from
    else FirstFree(hints, now, from + 1)
  }

  /** Index of the first hint that was never used; `|hints|` when there is none. */
  function FirstUnused(hints: seq<real>, from: nat := 0): (i: nat)
    requires from <= |hints|
    ensures from <= i <= |hints|
    ensures forall j :: from <= j < i ==> hints[j] != 0.0
    ensures i < |hints| ==> hints[i] == 0.0
    decreases |hints| - from
  {
    if from == |hints| || hints[from] == 0.0 then from else FirstUnused(hints, from + 1)
  }

  function SetHint(hints: seq<real>, i: int, x: real): seq<real> {
    if 0 <= i < |hints| then hints[i := x] else hints
  }

  predicate AnswersProbe(d: Device, name: Name, tempId: int, randomId: int) {
    d.id == Some(name) && (d.locked || tempId > randomId)
  }

  predicate TakesHint(d: Device, name: Name, tempId: int, randomId: int, hint: int) {
    !d.locked && d.id == Some(name) && tempId == randomId && hint > 0 && hint != d.val
  }

  /** A device hears /name/registered. */
  function HearRegistered(d: Device, name: Name, tempId: int, randomId: int, hint: int, now: real): Device {
    if d.locked then
      if name.prefix != d.prefix then d else
      var hints := SetHint(d.hints, name.ordinal - d.val - 1, -1.0);
      d.(hints := if hint != 0 then SetHint(hints, hint - d.val - 1, now) else hints)
    else if d.id == Some(name) && tempId < randomId then
      d.(collisions := d.collisions + 1, countTime := now)
    else if TakesHint(d, name, tempId, randomId, hint) then
      ProbeName(d, hint, now)
    else d
  }

  /** A device hears /name/probe. */
  function HearProbe(d: Device, name: Name, tempId: int, randomId: int, now: real): Device {
    if d.id != Some(name) then d
    else if AnswersProbe(d, name, tempId, randomId) then
      d.(hints := SetHint(d.hints, FirstFree(d.hints, now), now))
    else
      d.(collisions := d.collisions + 1, countTime := now, online := d.online || tempId == randomId)
  }

  /** The ordinal a device suggests when it answers a probe. */
  function Suggestion(d: Device, now: real): nat {
    d.val + FirstFree(d.hints, now) + 1
  }

  datatype Verdict = Wait | Reprobe | Locked

  /** Collision check: lock after a quiet second, move on after repeated collisions, or ask again
      when the device has not even heard itself. */
  function CheckCollisions(d: Device, now: real, rnd: nat): (Device, Verdict) {
    var elapsed := now - d.countTime;
    if d.locked then (d, Wait)
    else if !d.online then
      if elapsed >= 5.0 then (d.(countTime := now), Reprobe) else (d, Wait)
    else if elapsed >= 1.0 && d.collisions < 2 then (d.(locked := true), Locked)
    else if elapsed >= 0.25 && d.collisions > 1 then
      (d.(val := d.val + FirstUnused(d.hints) + 1 + rnd % d.collisions,
          collisions := 0, countTime := now, hints := NO_HINTS), Reprobe)
    else (d, Wait)
  }

  datatype Poll = Idle | Probing | Announcing

  /** One registration poll, and what it makes the device broadcast. */
  function CheckRegistration(d: Device, now: real, rnd: nat): (Device, Poll) {
    if d.registered then (d, Idle) else
    var (d', verdict) := CheckCollisions(d, now, rnd);
    if verdict == Reprobe then (ProbeName(d', 0, now), Probing)
    else if d'.locked then (d'.(registered := true), Announcing)
    else (d', Idle)
  }

  /** A device hears that `<prefix>.<ordinal>` has left.  Only the first characters of the departed
      prefix are compared. */
  function HearLogout(d: Device, prefix: string, ordinal: int): Device {
    if d.locked && d.prefix <= prefix then d.(hints := SetHint(d.hints, ordinal - d.val - 1, 0.0)) else d
  }
}
