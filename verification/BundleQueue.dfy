/**
 The outgoing queue of a network object: messages are collected in one pending bundle for the selected
 destination and leave when the destination changes, when the bundle would get too long, or on demand.
 The length of a bundle, computed by a foreign library, is a header plus each message's size and a fixed
 overhead per message; both constants are arbitrary.
 */
module BundleQueue {
  import opened Wrappers

  const MAX_BUNDLE_LEN: nat := 8192

  datatype Dest =
    | Bus
    | Local
    | Mesh(addr: Option<nat>)
    | Subscribers(dev: nat, msgType: nat)

  datatype Msg = Msg(id: nat, size: nat)

  datatype Bundle = Bundle(dst: Dest, msgs: seq<Msg>)

  datatype Format = Format(header: nat, overhead: nat)

  datatype Queue = Queue(pending: Option<seq<Msg>>, dst: Dest, sent: seq<Bundle>)

  datatype Op =
    | UseLocal
    | UseBus
    | UseMesh(addr: Option<nat>, timed: bool)
    | UseSubscribers(dev: nat, msgType: nat)
    | Add(msg: Msg)
    | Send

  function Length(f: Format, msgs: seq<Msg>): nat {
    if msgs == [] then f.header
    else Length(f, msgs[..|msgs| - 1]) + f.overhead + msgs[|msgs| - 1].size
  }

  function Flush(q: Queue): Queue {
    if q.pending.None? then q
    else q.(pending := None, sent := q.sent + [Bundle(q.dst, q.pending.value)])
  }

  /** Select a destination, keeping the pending bundle only if `keep` says so. */
  function Select(q: Queue, dst: Dest, keep: bool): Queue {
    var q := if keep then q else Flush(q);
    q.(dst := dst, pending := if q.pending.None? then Some([]) else q.pending)
  }

  /** A message added while no bundle is open is lost. */
  function Append(f: Format, q: Queue, m: Msg): Queue {
    if q.pending.None? then q else
    var len := Length(f, q.pending.value);
    if len != 0 && len + m.size >= MAX_BUNDLE_LEN
    then Flush(q).(pending := Some([m]))
    else q.(pending := Some(q.pending.value + [m]))
  }

  function Step(f: Format, q: Queue, op: Op): Queue {
    match op
    case UseLocal => Select(q, Local, q.dst == Bus)
    case UseBus => Select(q, Bus, q.dst == Bus)
    case UseMesh(addr, timed) => Select(q, Mesh(addr), q.dst == Mesh(addr) && !timed)
    case UseSubscribers(dev, t) => Select(q, Subscribers(dev, t), q.dst == Subscribers(dev, t))
    case Add(m) => Append(f, q, m)
    case Send => Flush(q)
  }

  const EMPTY: Queue := Queue(None, Bus, [])

  function Run(f: Format, ops: seq<Op>): Queue {
    if ops == [] then EMPTY else Step(f, Run(f, ops[..|ops| - 1]), ops[|ops| - 1])
  }

  /** A message with a destination. */
  datatype Parcel = Parcel(dst: Dest, msg: Msg)

  function Parcels(dst: Dest, msgs: seq<Msg>): seq<Parcel> {
    seq(|msgs|, i requires 0 <= i < |msgs| => Parcel(dst, msgs[i]))
  }

  function Shipped(sent: seq<Bundle>): seq<Parcel> {
    if sent == [] then [] else Shipped(sent[..|sent| - 1]) + Parcels(sent[|sent| - 1].dst, sent[|sent| - 1].msgs)
  }

  /** What has left and what is pending, each message with the destination of its bundle. */
  function Handled(q: Queue): seq<Parcel> {
    Shipped(q.sent) + if q.pending.Some? then Parcels(q.dst, q.pending.value) else []
  }

  // ---------- what the operations ask for ----------

  /** The destination selected last. */
  function LastUse(ops: seq<Op>): Dest {
    if ops == [] then Bus else
    match ops[|ops| - 1]
    case UseLocal => Local
    case UseBus => Bus
    case UseMesh(addr, _) => Mesh(addr)
    case UseSubscribers(dev, t) => Subscribers(dev, t)
    case _ => LastUse(ops[..|ops| - 1])
  }

  /** A destination has been selected since the last send. */
  predicate Open(ops: seq<Op>) {
    ops != [] && !ops[|ops| - 1].Send? && (!ops[|ops| - 1].Add? || Open(ops[..|ops| - 1]))
  }

  /** Each message added while a destination was selected, with the destination selected last. */
  function Asked(ops: seq<Op>): seq<Parcel> {
    if ops == [] then [] else
    var before, op := ops[..|ops| - 1], ops[|ops| - 1];
    Asked(before) + if op.Add? && Open(before) then [Parcel(LastUse(before), op.msg)] else []
  }

  function Messages(parcels: seq<Parcel>): seq<Msg> {
    seq(|parcels|, i requires 0 <= i < |parcels| => parcels[i].msg)
  }

  lemma {:induction false} SelectedIsLastUse(f: Format, ops: seq<Op>)
    ensures Run(f, ops).dst == LastUse(ops) && (Run(f, ops).pending.Some? <==> Open(ops))
  {
    if ops != [] { SelectedIsLastUse(f, ops[..|ops| - 1]); }
  }

  /** The step re-labels messages that wait for the bus as local. */
  predicate Misroutes(q: Queue, op: Op) {
    op.UseLocal? && q.dst == Bus && q.pending.Some? && q.pending.value != []
  }

  /** No step of the run re-labels waiting messages. */
  predicate NeverMisroutes(f: Format, ops: seq<Op>) {
    ops == [] || (NeverMisroutes(f, ops[..|ops| - 1]) && !Misroutes(Run(f, ops[..|ops| - 1]), ops[|ops| - 1]))
  }

  /** Pending messages with another label. */
  function Relabelled(parcels: seq<Parcel>, from: nat): seq<Parcel> {
    seq(|parcels|, i requires 0 <= i < |parcels| => if i < from then parcels[i] else Parcel(Local, parcels[i].msg))
  }

  lemma StepHandled(f: Format, q: Queue, op: Op)
    ensures !Misroutes(q, op) ==>
              Handled(Step(f, q, op)) == Handled(q) + if op.Add? && q.pending.Some? then [Parcel(q.dst, op.msg)] else []
    ensures Misroutes(q, op) ==> Handled(Step(f, q, op)) == Relabelled(Handled(q), |Shipped(q.sent)|)
    ensures Misroutes(q, op) ==>
              var k := |Shipped(q.sent)|;
              k < |Handled(q)| && forall i :: k <= i < |Handled(q)| ==> Handled(q)[i].dst == Bus
  {
    var r := Step(f, q, op);
    FlushHandled(q);
    hide Shipped;
    if op.Add? && q.pending.Some? {
      var msgs := q.pending.value;
      assert Parcels(q.dst, msgs + [op.msg]) == Parcels(q.dst, msgs) + [Parcel(q.dst, op.msg)];
      assert Parcels(q.dst, [op.msg]) == [Parcel(q.dst, op.msg)];
    } else if r.pending == Some([]) {
      assert Parcels(r.dst, []) == [];
    }
  }

  lemma FlushHandled(q: Queue)
    ensures Handled(Flush(q)) == Handled(q)
  {
    assert Flush(q).sent[..|q.sent|] == q.sent;
  }

  /** When exactly the pending bundle leaves: on demand, when another destination is selected (the local one
      leaves a bundle for the bus pending), with a time of its own, or when the new message would reach the
      limit; and what is pending then. */
  lemma LeavesWhen(f: Format, q: Queue, op: Op)
    ensures var r := Step(f, q, op);
            var leaves := q.pending.Some? && match op
                          case Send => true
                          case UseLocal => q.dst != Bus
                          case UseBus => q.dst != Bus
                          case UseMesh(addr, timed) => timed || q.dst != Mesh(addr)
                          case UseSubscribers(dev, t) => q.dst != Subscribers(dev, t)
                          case Add(m) => var len := Length(f, q.pending.value); len != 0 && len + m.size >= 8192;
            && r.sent == q.sent + (if leaves then [Bundle(q.dst, q.pending.value)] else [])
            && (op.Send? ==> r.pending == None && r.dst == q.dst)
            && (op.Add? ==> r.dst == q.dst && r.pending == if q.pending.None? then None
                                                           else if leaves then Some([op.msg])
                                                           else Some(q.pending.value + [op.msg]))
            && (!op.Send? && !op.Add? ==> r.pending == if leaves || q.pending.None? then Some([]) else q.pending)
  {
    hide Length;
  }

  /** Handled messages are those asked for, except that some for the bus may have become local. */
  predicate Drifted(handled: seq<Parcel>, asked: seq<Parcel>) {
    |handled| == |asked| && forall i :: 0 <= i < |asked| ==>
      handled[i] == asked[i] || (asked[i].dst == Bus && handled[i] == Parcel(Local, asked[i].msg))
  }

  /** In every run each message added while a destination is selected is sent or pending exactly once and in
      order; it goes where it was asked to, unless it was for the bus and has become local; and all go where
      they were asked to if and only if no step re-labels waiting messages. */
  lemma {:induction false} HandledIffNeverMisroutes(f: Format, ops: seq<Op>)
    ensures Drifted(Handled(Run(f, ops)), Asked(ops))
    ensures Handled(Run(f, ops)) == Asked(ops) <==> NeverMisroutes(f, ops)
  {
    if ops != [] {
      var n := |ops| - 1;
      var q := Run(f, ops[..n]);
      HandledIffNeverMisroutes(f, ops[..n]);
      SelectedIsLastUse(f, ops[..n]);
      StepHandled(f, q, ops[n]);
      MisroutesIsUse(q, ops[n]);
      hide NeverMisroutes, Misroutes, Handled, Drifted, Relabelled, LastUse, Open, Step;
      var h, a := Handled(q), Asked(ops[..n]);
      if Misroutes(q, ops[n]) {
        DriftRelabelled(h, a, |Shipped(q.sent)|);
      } else if ops[n].Add? && q.pending.Some? {
        DriftAppended(h, a, Parcel(q.dst, ops[n].msg));
      }
    }
  }

  lemma DriftAppended(h: seq<Parcel>, a: seq<Parcel>, p: Parcel)
    requires Drifted(h, a)
    ensures Drifted(h + [p], a + [p]) && (h + [p] == a + [p] <==> h == a)
  {
    assert (h + [p])[..|h|] == h && (a + [p])[..|a|] == a;
  }

  lemma DriftRelabelled(h: seq<Parcel>, a: seq<Parcel>, k: nat)
    requires Drifted(h, a) && k < |h| && forall i :: k <= i < |h| ==> h[i].dst == Bus
    ensures Drifted(Relabelled(h, k), a) && Relabelled(h, k) != a
  {
    assert Relabelled(h, k)[k].dst == Local;
  }

  lemma MisroutesIsUse(q: Queue, op: Op)
    ensures Misroutes(q, op) ==> op.UseLocal?
  {
  }

  /** No message is lost, repeated or reordered, wherever it goes. */
  lemma MessagesConserved(f: Format, ops: seq<Op>)
    ensures Messages(Handled(Run(f, ops))) == Messages(Asked(ops))
  {
    HandledIffNeverMisroutes(f, ops);
  }

  /** An added message is lost exactly when no destination was selected since the last send. */
  lemma LostIffClosed(f: Format, ops: seq<Op>, m: Msg)
    ensures Handled(Run(f, ops + [Add(m)])) ==
            Handled(Run(f, ops)) + if Open(ops) then [Parcel(LastUse(ops), m)] else []
  {
    assert (ops + [Add(m)])[..|ops|] == ops;
    SelectedIsLastUse(f, ops);
    StepHandled(f, Run(f, ops), Add(m));
  }

  /** After a final send nothing is pending, and everything has left for where it was asked to go, exactly
      when no step has re-labelled waiting messages. */
  lemma AllShippedAfterSend(f: Format, ops: seq<Op>)
    ensures Run(f, ops + [Send]).pending.None?
    ensures Shipped(Run(f, ops + [Send]).sent) == Asked(ops) <==> NeverMisroutes(f, ops)
  {
    var all := ops + [Send];
    assert all[..|ops|] == ops;
    HandledIffNeverMisroutes(f, all);
    assert all[|ops|] == Send;
    hide NeverMisroutes, Misroutes, Shipped;
    assert Asked(all) == Asked(ops);
    SendMisroutesNothing(Run(f, ops));
  }

  lemma SendMisroutesNothing(q: Queue)
    ensures !Misroutes(q, Send)
  {
  }

  // ---------- bundle length ----------

  /** Only a bundle of one message can be longer than the limit. */
  predicate Fits(f: Format, msgs: seq<Msg>) {
    |msgs| > 1 ==> Length(f, msgs) < MAX_BUNDLE_LEN + f.overhead
  }

  ghost predicate AllFit(f: Format, q: Queue) {
    (q.pending.Some? ==> Fits(f, q.pending.value)) && forall b :: b in q.sent ==> Fits(f, b.msgs)
  }

  lemma {:induction false} BundlesFit(f: Format, ops: seq<Op>)
    requires f.header > 0
    ensures AllFit(f, Run(f, ops))
  {
    if ops != [] {
      var n := |ops| - 1;
      BundlesFit(f, ops[..n]);
      var q := Run(f, ops[..n]);
      if ops[n].Add? && q.pending.Some? {
        assert (q.pending.value + [ops[n].msg])[..|q.pending.value|] == q.pending.value;
        LengthPositive(f, q.pending.value);
      }
    }
  }

  lemma {:induction false} LengthPositive(f: Format, msgs: seq<Msg>)
    ensures Length(f, msgs) >= f.header
  {
    if msgs != [] { LengthPositive(f, msgs[..|msgs| - 1]); }
  }

  lemma LengthOfOneMore(f: Format, msgs: seq<Msg>, m: Msg)
    ensures Length(f, msgs + [m]) == Length(f, msgs) + f.overhead + m.size
  {
    assert (msgs + [m])[..|msgs|] == msgs;
  }

  /** Bundles of several messages are below the limit. */
  ghost predicate Limited(f: Format, q: Queue) {
    && (q.pending.Some? ==> WithinLimit(f, q.pending.value))
    && forall b :: b in q.sent ==> WithinLimit(f, b.msgs)
  }

  predicate WithinLimit(f: Format, msgs: seq<Msg>) {
    |msgs| > 1 ==> Length(f, msgs) < MAX_BUNDLE_LEN
  }

  /** The message passes the test without its own overhead and exceeds the limit with it. */
  predicate Overfills(f: Format, q: Queue, op: Op) {
    && op.Add? && q.pending.Some? && q.pending.value != []
    && MAX_BUNDLE_LEN - f.overhead <= Length(f, q.pending.value) + op.msg.size < MAX_BUNDLE_LEN
  }

  predicate NeverOverfills(f: Format, ops: seq<Op>) {
    ops == [] || (NeverOverfills(f, ops[..|ops| - 1]) && !Overfills(f, Run(f, ops[..|ops| - 1]), ops[|ops| - 1]))
  }

  lemma StepLimited(f: Format, q: Queue, op: Op)
    requires f.header > 0
    ensures Limited(f, Step(f, q, op)) <==> Limited(f, q) && !Overfills(f, q, op)
  {
    var r := Step(f, q, op);
    assert Flush(q).sent[..|q.sent|] == q.sent;
    assert q.pending.Some? ==> Flush(q).sent[|q.sent|] == Bundle(q.dst, q.pending.value);
    forall b | b in q.sent ensures b in Flush(q).sent && b in r.sent { }
    assert q.pending.Some? ==> Bundle(q.dst, q.pending.value) in Flush(q).sent;
    if op.Add? && q.pending.Some? {
      LengthOfOneMore(f, q.pending.value, op.msg);
      LengthPositive(f, q.pending.value);
    }
  }

  /** All bundles of several messages, sent or pending, are below the limit if and only if no message was
      added whose overhead makes the difference. */
  lemma {:induction false} LimitKeptIffNeverOverfills(f: Format, ops: seq<Op>)
    requires f.header > 0
    ensures Limited(f, Run(f, ops)) <==> NeverOverfills(f, ops)
  {
    if ops != [] {
      var n := |ops| - 1;
      LimitKeptIffNeverOverfills(f, ops[..n]);
      StepLimited(f, Run(f, ops[..n]), ops[n]);
      hide Limited, NeverOverfills, Overfills;
    }
  }

  /** The guard can fail for any message format with an overhead: then some run breaks the limit. */
  lemma LimitKeptIffNoOverhead(f: Format)
    requires 0 < f.header && f.header + f.overhead < MAX_BUNDLE_LEN
    ensures f.overhead == 0 <==>
            forall ops: seq<Op> :: forall b :: b in Run(f, ops).sent ==> WithinLimit(f, b.msgs)
  {
    if f.overhead == 0 {
      forall ops: seq<Op>, b | b in Run(f, ops).sent ensures WithinLimit(f, b.msgs) {
        BundlesFit(f, ops);
        assert Fits(f, b.msgs);
      }
    } else {
      var a, c := Msg(0, 0), Msg(1, MAX_BUNDLE_LEN - 1 - f.header - f.overhead);
      LengthOfOneMore(f, [], a);
      LengthOfOneMore(f, [a], c);
      assert [] + [a] == [a] && [a] + [c] == [a, c];
      var ops := [UseBus, Add(a), Add(c), Send];
      assert ops[..3] == [UseBus, Add(a), Add(c)] && ops[..3][..2] == [UseBus, Add(a)];
      assert [UseBus, Add(a)][..1] == [UseBus] && [UseBus][..0] == [];
      assert Run(f, [UseBus]) == Queue(Some([]), Bus, []);
      assert Run(f, [UseBus, Add(a)]) == Queue(Some([a]), Bus, []);
      assert Run(f, ops[..3]) == Queue(Some([a, c]), Bus, []);
      assert Run(f, ops).sent == [Bundle(Bus, [a, c])];
      assert Bundle(Bus, [a, c]) in Run(f, ops).sent;
    }
  }

  // ---------- the network object ----------

  datatype DestKind = KindBus | KindLocal | KindMesh | KindSubscribers

  class Network {
    const format: Format
    var bundle: Option<seq<Msg>>
    var kind: DestKind
    var mesh: Option<nat>
    var dev: nat
    var msgType: nat
    /** Everything handed to the transport so far. */
    var sent: seq<Bundle>

    function Selected(): Dest
      reads this
    {
      match kind
      case KindBus => Bus
      case KindLocal => Local
      case KindMesh => Mesh(mesh)
      case KindSubscribers => Subscribers(dev, msgType)
    }

    ghost function Value(): Queue
      reads this
    {
      Queue(bundle, Selected(), sent)
    }

    constructor (format: Format)
      ensures Value() == EMPTY && this.format == format
    {
      this.format := format;
      bundle, kind, sent := None, KindBus, [];
    }

    method SendPending()
      modifies this
      ensures Value() == Flush(old(Value()))
      ensures kind == old(kind) && mesh == old(mesh) && dev == old(dev) && msgType == old(msgType)
    {
      if bundle.Some? {
        sent := sent + [Bundle(Selected(), bundle.value)];
        bundle := None;
      }
    }

    method InitBundle()
      requires bundle.None?
      modifies this
      ensures Value() == old(Value()).(pending := Some([]))
    {
      SendPending();
      bundle := Some([]);
    }

    method UseLocal()
      modifies this
      ensures Value() == Step(format, old(Value()), Op.UseLocal)
    {
      if bundle.Some? && kind != KindBus {
        SendPending();
      }
      kind := KindLocal;
      if bundle.None? { InitBundle(); }
    }

    method UseBus()
      modifies this
      ensures Value() == Step(format, old(Value()), Op.UseBus)
    {
      if bundle.Some? && kind != KindBus {
        SendPending();
      }
      kind := KindBus;
      if bundle.None? { InitBundle(); }
    }

    method UseMesh(addr: Option<nat>, timed: bool)
      modifies this
      ensures Value() == Step(format, old(Value()), Op.UseMesh(addr, timed))
    {
      if bundle.Some? && (kind != KindMesh || mesh != addr || timed) {
        SendPending();
      }
      kind := KindMesh;
      mesh := addr;
      if bundle.None? { InitBundle(); }
    }

    method UseSubscribers(dev: nat, msgType: nat)
      modifies this
      ensures Value() == Step(format, old(Value()), Op.UseSubscribers(dev, msgType))
    {
      if bundle.Some? && (kind != KindSubscribers || this.dev != dev || this.msgType != msgType) {
        SendPending();
      }
      kind := KindSubscribers;
      this.dev := dev;
      this.msgType := msgType;
      if bundle.None? { InitBundle(); }
    }

    method AddMsg(m: Msg)
      modifies this
      ensures Value() == Append(format, old(Value()), m)
    {
      var len := if bundle.Some? then Length(format, bundle.value) else 0;
      if len != 0 && len + m.size >= MAX_BUNDLE_LEN {
        if bundle.Some? {
          SendPending();
          InitBundle();
        }
      }
      assert [] + [m] == [m];
      if bundle.Some? {
        bundle := Some(bundle.value + [m]);
      }
    }
  }
}
