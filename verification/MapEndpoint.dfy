/**
 One endpoint of a map whose source signals live on one device and whose destination signal lives on
 another: the slots with their metadata, the READY, ACTIVE and PUSHED status bits, the version number of
 the record, and what each handshake message makes the endpoint do.  `slots` lists the sources in order,
 then the destination.
 */
module MapEndpoint {
  import opened Wrappers

  datatype Role = Source | Destination

  function Other(r: Role): Role {
    if r == Source then Destination else Source
  }

  datatype Slot = Slot(isLocal: bool, devKnown: bool, sigKnown: bool, linkKnown: bool)

  predicate MetadataOk(s: Slot) {
    s.devKnown && s.sigKnown && (s.isLocal || s.linkKnown)
  }

  /** `here` says that this endpoint holds a record of the map. */
  datatype Endpoint = Endpoint(
    role: Role,
    slots: seq<Slot>,
    here: bool,
    ready: bool,
    active: bool,
    pushed: bool,
    version: nat)

  predicate AllKnown(slots: seq<Slot>) {
    forall s :: s in slots ==> MetadataOk(s)
  }

  predicate Linked(e: Endpoint) {
    forall s :: s in e.slots ==> s.isLocal || s.linkKnown
  }

  /** Handshake messages.  `meta` says that the message carries the metadata its receiver lacks; `withSig`
      marks a /mapped that shares its bundle with a preceding /signal; `sender` is the endpoint that sent
      the message, of which handlers read only the version. */
  datatype Msg =
    | Map(meta: bool, version: Option<nat>)
    | MapTo(to: Role, meta: bool, asOf: nat)
    | Mapped(to: Role, withSig: bool, sender: Endpoint)
    | MapMod(to: Role, version: Option<nat>)

  function VersionOf(m: Msg): Option<nat> {
    match m
    case Map(_, v) => v
    case MapTo(_, _, v) => Some(v)
    case Mapped(_, _, sender) => Some(sender.version)
    case MapMod(_, v) => v
  }

  /** What a delivery depends on besides the message: `apply`, its properties are not owned by the
      receiver; `inCharge`, the receiver hosts the processing; `changes`, its properties differ from the
      record's; `bumps`, those that affect the processing do. */
  datatype Context = Context(apply: bool, inCharge: bool, changes: bool, bumps: bool)

  function LearnSlot(s: Slot): Slot {
    if s.isLocal then s else s.(sigKnown := true)
  }

  function LinkSlot(s: Slot): Slot {
    if s.isLocal then s else s.(linkKnown := true)
  }

  /** The peer's signal metadata arrives. */
  function Learn(e: Endpoint): Endpoint {
    e.(slots := seq(|e.slots|, i requires 0 <= i < |e.slots| => LearnSlot(e.slots[i])))
  }

  function Link(e: Endpoint): Endpoint {
    e.(slots := seq(|e.slots|, i requires 0 <= i < |e.slots| => LinkSlot(e.slots[i])))
  }

  function UpdateStatus(e: Endpoint): Endpoint {
    if !e.ready && AllKnown(e.slots) then e.(ready := true) else e
  }

  /** The record has a newer version than the message. */
  predicate Outdated(e: Endpoint, v: Option<nat>) {
    v.Some? && v.value < e.version
  }

  /** Take over the properties of a message, unless it is outdated: then not even the status is checked. */
  function SetFromMsg(e: Endpoint, meta: bool, v: Option<nat>, c: Context): Endpoint {
    if Outdated(e, v) then e else
    UpdateStatus((if meta then Learn(e) else e).(
                   version := if v.Some? then v.value else if c.bumps then e.version + 1 else e.version))
  }

  function HandleMapMod(e: Endpoint, v: Option<nat>, c: Context): (Endpoint, seq<Msg>)
    requires e.here
  {
    if !e.active || !c.inCharge then (e, []) else
    var e' := SetFromMsg(e, false, v, c);
    var updated := !Outdated(e, v) && (c.changes || c.bumps || e'.version != e.version);
    (e', if updated && e'.ready then [Mapped(Other(e.role), false, e')] else [])
  }

  /** /map, which only the destination accepts. */
  function HandleMap(e: Endpoint, meta: bool, v: Option<nat>, c: Context): (Endpoint, seq<Msg>)
    requires e.slots != []
  {
    if e.role != Destination then (e, []) else
    var e := e.(here := true);
    if e.active then
      if c.inCharge then HandleMapMod(e, v, c)
      else (e, seq(|e.slots| - 1, _ => MapMod(Source, v)))
    else
      var e' := SetFromMsg(e, meta, v, c);
      if Linked(e') then (e'.(pushed := true), [MapTo(Source, true, e'.version)]) else (e', [])
  }

  function HandleMapTo(e: Endpoint, meta: bool, v: nat, c: Context): (Endpoint, seq<Msg>) {
    var e := e.(here := true);
    var e' := if e.active then e else SetFromMsg(e, meta, Some(v), c);
    if !e'.ready then (e', []) else
    var e'' := e'.(pushed := true);
    (e'', [Mapped(Other(e.role), true, e'')])
  }

  function HandleMapped(e: Endpoint, withSig: bool, v: nat, c: Context): (Endpoint, seq<Msg>) {
    var e := if withSig then Learn(e) else e;
    if !e.here then (e, []) else
    var e' := if c.apply then SetFromMsg(e, true, Some(v), c) else UpdateStatus(e);
    if !e'.ready || e'.active then (e', []) else
    var e'' := e'.(active := true, pushed := true);
    (e'', [Mapped(Other(e.role), false, e'')])
  }

  function HandleModify(e: Endpoint, v: Option<nat>, c: Context): (Endpoint, seq<Msg>)
    requires e.slots != []
  {
    if e.here then HandleMapMod(e, v, c) else HandleMap(e, c.apply, v, c)
  }

  function Handle(e: Endpoint, m: Msg, c: Context): (Endpoint, seq<Msg>)
    requires e.slots != []
  {
    match m
    case Map(meta, v) => HandleMap(e, meta, v, c)
    case MapTo(_, meta, v) => HandleMapTo(e, meta, v, c)
    case Mapped(_, withSig, sender) => HandleMapped(e, withSig, sender.version, c)
    case MapMod(_, v) => HandleModify(e, v, c)
  }

  /** The user pushes a record: a modification of an active map, else a new request for it. */
  function PushRecord(e: Endpoint): (Endpoint, seq<Msg>) {
    var e := e.(version := e.version + 1, pushed := true);
    if e.active then (e, [MapMod(Source, Some(e.version)), MapMod(Destination, Some(e.version))])
    else (UpdateStatus(e), [Map(e.role == Source, Some(e.version))])
  }

  /** The map record of a local endpoint, updated in place. */
  class LocalMap {
    const role: Role
    const slots: array<Slot>
    var here: bool
    var ready: bool
    var active: bool
    var pushed: bool
    var version: nat

    function Value(): Endpoint
      reads this, slots
    {
      Endpoint(role, slots[..], here, ready, active, pushed, version)
    }

    constructor (role: Role, slots: seq<Slot>)
      ensures Value() == Endpoint(role, slots, false, false, false, false, 0) && fresh(this.slots)
    {
      this.role := role;
      here, ready, active, pushed, version := false, false, false, false, 0;
      this.slots := new Slot[|slots|](i requires 0 <= i < |slots| => slots[i]);
    }

    method LearnAll()
      modifies slots
      ensures Value() == Learn(old(Value()))
    {
      for i := 0 to slots.Length
        invariant forall j :: 0 <= j < i ==> slots[j] == LearnSlot(old(slots[j]))
        invariant forall j :: i <= j < slots.Length ==> slots[j] == old(slots[j])
      {
        slots[i] := LearnSlot(slots[i]);
      }
    }

    /** Sets READY once the status bits of every slot are set. */
    method CheckStatus()
      modifies this`ready
      ensures Value() == UpdateStatus(old(Value()))
    {
      if ready {
        return;
      }
      var status := true;
      for i := 0 to slots.Length
        invariant status <==> AllKnown(slots[..i])
      {
        assert slots[..i + 1] == slots[..i] + [slots[i]];
        status := status && MetadataOk(slots[i]);
      }
      assert slots[..slots.Length] == slots[..];
      if status {
        ready := true;
      }
    }

    method SetFrom(meta: bool, v: Option<nat>, c: Context)
      modifies this`ready, this`version, slots
      ensures Value() == SetFromMsg(old(Value()), meta, v, c)
    {
      if v.Some? && v.value < version {
        return;
      }
      if meta {
        LearnAll();
      }
      if c.bumps {
        version := version + 1;
      }
      if v.Some? {
        version := v.value;
      }
      CheckStatus();
    }

    method OnMapped(withSig: bool, v: nat, c: Context) returns (out: seq<Msg>)
      modifies this`ready, this`active, this`pushed, this`version, slots
      ensures (Value(), out) == HandleMapped(old(Value()), withSig, v, c)
    {
      out := [];
      if withSig {
        LearnAll();
      }
      if !here {
        return;
      }
      if c.apply {
        SetFrom(true, Some(v), c);
      } else {
        CheckStatus();
      }
      if !ready || active {
        return;
      }
      active := true;
      pushed := true;
      out := [Mapped(Other(role), false, Value())];
    }

    method OnMapTo(meta: bool, v: nat, c: Context) returns (out: seq<Msg>)
      modifies this`ready, this`here, this`pushed, this`version, slots
      ensures (Value(), out) == HandleMapTo(old(Value()), meta, v, c)
    {
      out := [];
      here := true;
      if !active {
        SetFrom(meta, Some(v), c);
      }
      if ready {
        pushed := true;
        out := [Mapped(Other(role), true, Value())];
      }
    }

    method OnMapMod(v: Option<nat>, c: Context) returns (out: seq<Msg>)
      requires here
      modifies this`ready, this`version, slots
      ensures (Value(), out) == HandleMapMod(old(Value()), v, c)
    {
      out := [];
      if active && c.inCharge {
        var was, outdated := version, v.Some? && v.value < version;
        SetFrom(false, v, c);
        if !outdated && (c.changes || c.bumps || version != was) && ready {
          out := [Mapped(Other(role), false, Value())];
        }
      }
    }

    method OnMap(meta: bool, v: Option<nat>, c: Context) returns (out: seq<Msg>)
      requires slots.Length > 0
      modifies this`ready, this`here, this`pushed, this`version, slots
      ensures (Value(), out) == HandleMap(old(Value()), meta, v, c)
    {
      out := [];
      if role != Destination {
        return;
      }
      here := true;
      if active {
        if c.inCharge {
          out := OnMapMod(v, c);
        } else {
          out := seq(slots.Length - 1, _ => MapMod(Source, v));
        }
      } else {
        SetFrom(meta, v, c);
        if Linked(Value()) {
          pushed := true;
          out := [MapTo(Source, true, version)];
        }
      }
    }

    method Push() returns (out: seq<Msg>)
      modifies this`ready, this`pushed, this`version
      ensures (Value(), out) == PushRecord(old(Value()))
    {
      version := version + 1;
      pushed := true;
      if active {
        out := [MapMod(Source, Some(version)), MapMod(Destination, Some(version))];
      } else {
        CheckStatus();
        out := [Map(role == Source, Some(version))];
      }
    }
  }
}
