/** What a host can make of one block command: over all its runs up to the next command or reset, and in some. */
module Hosts {
  import opened Bytes
  import opened Codec
  import opened Ledgers
  import opened Transport
  import opened Invariant
  import opened Runs
  import C = Conservation
  import opened Acceptance
  import opened Dispatch
  import opened Progress
  import opened Storage
  import opened Blocks
  import opened Liveness

  /** A poll in a data phase stays with the command. */
  lemma PollStays(m: Machine)
    requires Good(m) && TakesStatus(m.state)
    ensures Continues(m.ledger, Poll(m).m.ledger)
  {
    if m.cs.Some? { PollAfterVerdict(m); } else { PollKeepsOpen(m); }
  }

  // ----- runs without a reset -----

  /** Events other than resets lead from `d` to `n`, and the current command is still the same. */
  ghost predicate QuietRun(d: Device, es: seq<DeviceEvent>, n: Device)
    requires Good(d.m)
  {
    && (forall i :: 0 <= i < |es| ==> Quiet(es[i]))
    && DeviceLegal(d, es) && n == DeviceRun(d, es)
    && |Commands(n.m.ledger)| == |Commands(d.m.ledger)|
  }

  /** No command was added and the current one has the same wrapper. */
  predicate SameCommands(d: Device, n: Device) {
    && n.m.ledger.done == d.m.ledger.done && n.m.ledger.cur.Some? == d.m.ledger.cur.Some?
    && (d.m.ledger.cur.Some? ==> n.m.ledger.cur.value.cbw == d.m.ledger.cur.value.cbw)
  }

  lemma ReadArmSame(d: Device, x: Extent)
    requires TakesStatus(d.m.state) && Within(d.disk, x)
    ensures SameCommands(d, ReadArm(d, x).d)
  {
  }

  lemma WriteArmSame(d: Device, x: Extent)
    requires TakesStatus(d.m.state) && Within(d.disk, x)
    ensures SameCommands(d, WriteArm(d, x).d)
  {
  }

  lemma MiscArmSame(d: Device, misc: Callback)
    requires Good(d.m) && TakesStatus(d.m.state)
    ensures SameCommands(d, MiscArm(d, misc).d)
  {
  }

  lemma HandleSame(d: Device, misc: Callback)
    requires Good(d.m) && TakesStatus(d.m.state) && CanHandle(d)
    ensures SameCommands(d, Handle(d, misc).d)
  {
    match d.disk.decode(d.m.cbw)
    case ReadOp(x) => ReadArmSame(d, x);
    case WriteOp(x) => WriteArmSame(d, x);
    case NoOp => MiscArmSame(d, misc);
  }

  lemma HandleSameDecode(d: Device, misc: Callback)
    requires Good(d.m) && TakesStatus(d.m.state) && CanHandle(d)
    ensures Handle(d, misc).d.disk.decode == d.disk.decode
  {
  }

  lemma PollDeviceCommandsGrow(d: Device, misc: Callback)
    requires Good(d.m) && (Offered(d.m) ==> CanHandle(d))
    ensures |Commands(d.m.ledger)| <= |Commands(PollDevice(d, misc).m.ledger)|
  {
    if Offered(d.m) {
      OfferIsSafe(d.m);
      HandleSame(d, misc);
      HandleGood(d, misc);
      HandleTakesStatus(d, misc);
      PollStays(Handle(d, misc).d.m);
    }
  }

  lemma StepCommandsGrow(d: Device, e: DeviceEvent)
    requires Good(d.m) && Allowed(d, e) && Quiet(e)
    ensures |Commands(d.m.ledger)| <= |Commands(DeviceStep(d, e).m.ledger)|
  {
    match e
    case UsbEvent => C.PollIsBounded(d.m);
    case CommandEvent(misc) => PollDeviceCommandsGrow(d, misc);
    case _ =>
  }

  lemma {:induction false} RunCommandsGrow(d: Device, es: seq<DeviceEvent>)
    requires Good(d.m) && DeviceLegal(d, es)
    requires forall i :: 0 <= i < |es| ==> Quiet(es[i])
    ensures |Commands(d.m.ledger)| <= |Commands(DeviceRun(d, es).m.ledger)|
    decreases |es|
  {
    if es != [] {
      RunCommandsGrow(d, es[..|es| - 1]);
      StepCommandsGrow(DeviceRun(d, es[..|es| - 1]), es[|es| - 1]);
    }
  }

  /** The last event of a quiet run taken off. */
  lemma QuietInit(d: Device, es: seq<DeviceEvent>, n: Device) returns (before: Device)
    requires Good(d.m) && QuietRun(d, es, n) && es != []
    ensures Good(before.m) && QuietRun(d, es[..|es| - 1], before)
    ensures Quiet(es[|es| - 1]) && Allowed(before, es[|es| - 1]) && n == DeviceStep(before, es[|es| - 1])
    ensures |Commands(n.m.ledger)| == |Commands(before.m.ledger)|
  {
    before := DeviceRun(d, es[..|es| - 1]);
    RunCommandsGrow(d, es[..|es| - 1]);
    StepCommandsGrow(before, es[|es| - 1]);
  }

  lemma QuietSnoc(d: Device, es: seq<DeviceEvent>, n: Device, e: DeviceEvent)
    requires Good(d.m) && QuietRun(d, es, n) && Good(n.m) && Allowed(n, e) && Quiet(e)
    requires |Commands(DeviceStep(n, e).m.ledger)| == |Commands(n.m.ledger)|
    ensures QuietRun(d, es + [e], DeviceStep(n, e))
  {
    var more := es + [e];
    assert more[..|more| - 1] == es && more[|more| - 1] == e;
  }

  lemma QuietPoll(m: Machine)
    requires Good(m) && |Commands(Poll(m).m.ledger)| == |Commands(m.ledger)|
    ensures Continues(m.ledger, Poll(m).m.ledger)
  {
    OverWhenIdle(m);
    PollProgress(m);
  }

  // ----- a Write that begins at an offset -----

  /** The storage is `s` with `data` laid over it from `o` bytes into `x` on. */
  predicate LaidAt(k: Disk, s: seq<byte>, x: Extent, o: nat, data: seq<byte>) {
    k.storage == Overwrite(s, x.at + o, data)
  }

  /** The current command is a Write of `x` that found storage `s` and offset `o`: without a verdict, what was
      delivered lies `o` bytes too far on; with one, so do all but the last `o` bytes, and it passed in full. */
  predicate Shifted(d: Device, s: seq<byte>, x: Extent, o: nat)
    requires o <= x.size
  {
    match d.m.ledger.cur
    case None => false
    case Some(c) =>
      && d.disk.decode(c.cbw) == WriteOp(x)
      && |d.disk.storage| == |s| < U32_LIMIT && x.size < U32_LIMIT
      && if c.status.None? then
           d.disk.offset == o + |c.delivered| <= x.size && LaidAt(d.disk, s, x, o, c.delivered)
         else
           && d.disk.offset == 0 && c.status == Some((Passed, x.size))
           && |c.received| >= x.size - o && LaidAt(d.disk, s, x, o, c.received[..x.size - o])
  }

  lemma ShiftedContinues(d: Device, n: Device, s: seq<byte>, x: Extent, o: nat)
    requires o <= x.size && Shifted(d, s, x, o)
    requires n.disk == d.disk && Continues(d.m.ledger, n.m.ledger)
    ensures Shifted(n, s, x, o)
  {
    var c, c' := d.m.ledger.cur.value, n.m.ledger.cur.value;
    if c.status.Some? { assert c'.received[..x.size - o] == c.received[..x.size - o]; }
  }

  /** What one call of the Write handler can do to the disk and the account. */
  lemma ShiftedWrite(d: Device, n: Device, s: seq<byte>, x: Extent, o: nat, bytes: seq<byte>)
    requires o <= x.size && x.at + x.size <= |s| && Shifted(d, s, x, o)
    requires Open(d.m.ledger)
    requires d.m.ledger.cur.value.delivered + bytes <= d.m.ledger.cur.value.received
    requires d.m.ledger.cur.value.delivered <= d.m.ledger.cur.value.received
    requires WriteShape(d.disk, d.m.ledger, x, bytes, n.disk, n.m.ledger)
    ensures Shifted(n, s, x, o)
  {
    var c := d.m.ledger.cur.value;
    if d.disk.offset + |bytes| <= x.size { OverwriteTwice(s, x.at + o, c.delivered, bytes); }
    if n.m.ledger.cur.value.status.Some? {
      if d.disk.offset == x.size {
        assert c.received[..x.size - o] == c.delivered;
      } else {
        assert c.received[..x.size - o] == c.delivered + bytes;
      }
    }
  }

  lemma ShiftedHandle(d: Device, s: seq<byte>, x: Extent, o: nat, misc: Callback)
    requires o <= x.size && x.at + x.size <= |s| && Shifted(d, s, x, o)
    requires Good(d.m) && TakesStatus(d.m.state) && d.m.cs.None?
    ensures CanHandle(d)
    ensures Shifted(Handle(d, misc).d, s, x, o)
  {
    OfferedLedger(d.m);
    WriteArmShape(d, x);
    TakenIsReceived(d.m, x.size - d.disk.offset);
    ShiftedWrite(d, Handle(d, misc).d, s, x, o, BytesTaken(d.m, x.size - d.disk.offset));
  }

  lemma ShiftedPollDevice(d: Device, s: seq<byte>, x: Extent, o: nat, misc: Callback)
    requires o <= x.size && x.at + x.size <= |s| && Shifted(d, s, x, o)
    requires Good(d.m)
    ensures Offered(d.m) ==> CanHandle(d)
    ensures Shifted(PollDevice(d, misc), s, x, o)
  {
    if Offered(d.m) {
      OfferIsSafe(d.m);
      ShiftedHandle(d, s, x, o, misc);
      HandleGood(d, misc);
      var h := Handle(d, misc);
      if h.r.Ok? {
        HandleTakesStatus(d, misc);
        PollStays(h.d.m);
        ShiftedContinues(h.d, Device(Poll(h.d.m).m, h.d.disk), s, x, o);
      }
    }
  }

  lemma ShiftedStep(d: Device, e: DeviceEvent, s: seq<byte>, x: Extent, o: nat)
    requires o <= x.size && x.at + x.size <= |s| && Shifted(d, s, x, o)
    requires Good(d.m) && Allowed(d, e) && Quiet(e)
    requires |Commands(DeviceStep(d, e).m.ledger)| == |Commands(d.m.ledger)|
    ensures Shifted(DeviceStep(d, e), s, x, o)
  {
    match e
    case UsbEvent =>
      QuietPoll(d.m);
      ShiftedContinues(d, DeviceStep(d, e), s, x, o);
    case CommandEvent(misc) => ShiftedPollDevice(d, s, x, o, misc);
    case _ =>
  }

  lemma {:induction false} ShiftedRun(d: Device, es: seq<DeviceEvent>, n: Device, s: seq<byte>, x: Extent, o: nat)
    requires o <= x.size && x.at + x.size <= |s| && Shifted(d, s, x, o)
    requires Good(d.m) && QuietRun(d, es, n)
    ensures Shifted(n, s, x, o)
    decreases |es|
  {
    if es != [] {
      var before := QuietInit(d, es, n);
      ShiftedRun(d, es[..|es| - 1], before, s, x, o);
      ShiftedStep(before, es[|es| - 1], s, x, o);
    }
  }

  // ----- how far a host can overshoot -----

  lemma HandleCapped(d: Device, misc: Callback)
    requires Good(d.m) && TakesStatus(d.m.state) && CanHandle(d) && C.Capped(d.m.ledger, d.m.ps)
    requires d.disk.decode(d.m.cbw).WriteOp?
    ensures C.Capped(Handle(d, misc).d.m.ledger, d.m.ps) && Handle(d, misc).d.m.ps == d.m.ps
  {
  }

  lemma CappedStep(d: Device, e: DeviceEvent, x: Extent)
    requires Good(d.m) && Allowed(d, e) && Quiet(e)
    requires C.Capped(d.m.ledger, d.m.ps) && d.m.ledger.cur.Some?
    requires d.disk.decode(d.m.ledger.cur.value.cbw) == WriteOp(x)
    ensures C.Capped(DeviceStep(d, e).m.ledger, d.m.ps)
  {
    match e
    case UsbEvent => C.PollCapped(d.m);
    case CommandEvent(misc) =>
      if Offered(d.m) {
        OfferIsSafe(d.m);
        HandleCapped(d, misc);
        HandleGood(d, misc);
        C.PollCapped(Handle(d, misc).d.m);
      }
    case _ =>
  }

  lemma StepSameDevice(d: Device, e: DeviceEvent)
    requires Good(d.m) && Allowed(d, e)
    ensures DeviceStep(d, e).m.ps == d.m.ps
  {
    if e.CommandEvent? && Offered(d.m) {
      OfferIsSafe(d.m);
      HandleSameDevice(d, e.misc);
      HandleGood(d, e.misc);
    }
  }

  lemma HandleSameDevice(d: Device, misc: Callback)
    requires Good(d.m) && TakesStatus(d.m.state) && CanHandle(d)
    ensures Handle(d, misc).d.m.ps == d.m.ps
  {
  }

  lemma {:induction false} CappedRun(d: Device, es: seq<DeviceEvent>, n: Device, s: seq<byte>, x: Extent, o: nat)
    requires o <= x.size && x.at + x.size <= |s| && Shifted(d, s, x, o)
    requires Good(d.m) && QuietRun(d, es, n) && C.Capped(d.m.ledger, d.m.ps)
    ensures C.Capped(n.m.ledger, d.m.ps) && n.m.ps == d.m.ps
    decreases |es|
  {
    if es != [] {
      var before := QuietInit(d, es, n);
      CappedRun(d, es[..|es| - 1], before, s, x, o);
      ShiftedRun(d, es[..|es| - 1], before, s, x, o);
      StepSameDevice(before, es[|es| - 1]);
      CappedStep(before, es[|es| - 1], x);
    }
  }

  // ----- packets for a Write -----

  const IDLE: Callback := Callback([], None, true)

  /** What the host has sent for the current command. */
  function Received(m: Machine): (s: seq<byte>) {
    match m.ledger.cur
    case None => []
    case Some(c) => c.received
  }

  /** The transport waits for more of a Data-Out transfer and holds none of it. */
  predicate Expecting(m: Machine) {
    Good(m) && m.state == DataTransferFromHost && m.cs.None? && m.buf == [] && m.left > 0
  }

  /** A packet of it comes in. */
  lemma PacketIn(m: Machine, packet: seq<byte>)
    requires Expecting(m) && |packet| <= m.ps
    ensures var n := Fed(m, packet);
            && Good(n) && n == m.(outs := [], ins := [], buf := packet, left := SatSub(m.left, |packet|),
                                  ledger := NoteTaken(m.ledger, packet))
            && m.ledger.cur.Some? && !Over(m.ledger.cur.value)
  {
    FedGood(m, packet);
    assert [] + packet == packet;
  }

  /** The device waits for more of a Write, with `o` bytes less than its offset says received. */
  predicate Hungry(d: Device, x: Extent, o: nat) {
    match d.m.state
    case DataTransferFromHost =>
      && Expecting(d.m)
      && d.disk.decode(d.m.cbw) == WriteOp(x) && x.at + x.size <= |d.disk.storage| < U32_LIMIT
      && d.disk.offset == o + |Received(d.m)| < x.size
    case _ => false
  }

  /** ... and has a packet of it. */
  predicate Holding(d: Device, x: Extent, o: nat, packet: seq<byte>) {
    && Good(d.m) && d.m.state == DataTransferFromHost && d.m.cs.None? && d.m.buf == packet && d.m.outs == []
    && d.disk.decode(d.m.cbw) == WriteOp(x) && x.at + x.size <= |d.disk.storage| < U32_LIMIT
    && d.disk.offset + |packet| == o + |Received(d.m)| <= x.size && d.disk.offset < x.size
  }

  lemma TakesPacket(d: Device, x: Extent, o: nat, packet: seq<byte>)
    requires Hungry(d, x, o) && |packet| <= d.m.ps && d.disk.offset + |packet| <= x.size
    ensures var n := Device(Fed(d.m, packet), d.disk);
            && Holding(n, x, o, packet) && |Commands(n.m.ledger)| == |Commands(d.m.ledger)|
            && Received(n.m) == Received(d.m) + packet
            && n.m.cbw == d.m.cbw && n.m.ps == d.m.ps && n.m.left == SatSub(d.m.left, |packet|)
  {
    PacketIn(d.m, packet);
  }

  /** Nothing on the bus: a poll leaves the account as it is. */
  lemma PollAlone(m: Machine)
    requires Good(m) && m.state == DataTransferFromHost && m.outs == []
    ensures var n := Poll(m).m;
            && n.ledger.cur.Some? && m.ledger.cur.Some? && n.ledger.done == m.ledger.done
            && n.ledger.cur.value.received == m.ledger.cur.value.received
            && n.ledger.cur.value.status == m.ledger.cur.value.status
            && (m.cs.None? && m.left > 0 ==> n == m)
  {
    PollStays(m);
  }

  lemma HoldingIsOffered(d: Device, x: Extent, o: nat, packet: seq<byte>)
    requires Holding(d, x, o, packet)
    ensures CanHandle(d) && Offered(d.m)
  {
    OfferIsComplete(d.m);
  }

  /** What the handler makes of the packet. */
  lemma HandlesPacket(d: Device, x: Extent, o: nat, packet: seq<byte>)
    requires Holding(d, x, o, packet)
    ensures CanHandle(d)
    ensures var h, k := Handle(d, IDLE), Taken(d.disk, x, packet);
            var moved := d.m.(buf := [], ledger := NoteDelivered(d.m.ledger, packet));
            && h.r == Ok(())
            && if k.offset < x.size then h.d == Device(moved, k)
               else h.d == Device(SetStatus(moved, Passed, x.size), k.(offset := 0))
  {
    HoldingIsOffered(d, x, o, packet);
    assert d.m.buf[..|packet|] == packet && d.m.buf[|packet|..] == [];
  }

  /** The Write has a verdict, and `received` is what the host has sent for it. */
  predicate Answered(d: Device, received: seq<byte>) {
    d.m.ledger.cur.Some? && d.m.ledger.cur.value.status.Some? && Received(d.m) == received
  }

  lemma HandledPacket(d: Device, x: Extent, o: nat, packet: seq<byte>)
    requires Holding(d, x, o, packet)
    requires d.disk.offset + |packet| < x.size ==> d.m.left > 0
    ensures CanHandle(d) && Offered(d.m)
    ensures var n := PollDevice(d, IDLE);
            && Good(n.m) && |Commands(n.m.ledger)| == |Commands(d.m.ledger)|
            && if d.disk.offset + |packet| < x.size then
                 && Hungry(n, x, o) && Received(n.m) == Received(d.m)
                 && n.m.left == d.m.left && n.m.ps == d.m.ps
               else
                 Answered(n, Received(d.m))
  {
    HoldingIsOffered(d, x, o, packet);
    HandlesPacket(d, x, o, packet);
    HandleGood(d, IDLE);
    PollDeviceGood(d, IDLE);
    PollAlone(Handle(d, IDLE).d.m);
  }

  /** A packet arrives, is polled and is handled. */
  lemma ServesPacket(d0: Device, es: seq<DeviceEvent>, d: Device, x: Extent, o: nat, packet: seq<byte>)
    returns (more: seq<DeviceEvent>, n: Device)
    requires Good(d0.m) && QuietRun(d0, es, d) && Hungry(d, x, o)
    requires |packet| <= d.m.ps && d.disk.offset + |packet| <= x.size
    requires d.disk.offset + |packet| < x.size ==> |packet| < d.m.left
    ensures QuietRun(d0, more, n) && Good(n.m)
    ensures if d.disk.offset + |packet| < x.size then
              && Hungry(n, x, o)
              && Received(n.m) == Received(d.m) + packet
              && n.m.left == d.m.left - |packet| && n.m.ps == d.m.ps
            else
              Answered(n, Received(d.m) + packet)
  {
    TakesPacket(d, x, o, packet);
    var taken := Device(Fed(d.m, packet), d.disk);
    more := QuietPacket(d0, es, d, packet);
    HandledPacket(taken, x, o, packet);
    QuietSnoc(d0, more, taken, CommandEvent(IDLE));
    more, n := more + [CommandEvent(IDLE)], PollDevice(taken, IDLE);
  }

  lemma QuietPacket(d0: Device, es: seq<DeviceEvent>, d: Device, packet: seq<byte>) returns (more: seq<DeviceEvent>)
    requires Good(d0.m) && QuietRun(d0, es, d) && Good(d.m)
    requires |Commands(Fed(d.m, packet).ledger)| == |Commands(d.m.ledger)|
    ensures QuietRun(d0, more, Device(Fed(d.m, packet), d.disk))
  {
    var arrives := DeviceEvent.BusEvent([Packet(packet)], []);
    BusGood(d.m, [Packet(packet)], []);
    QuietSnoc(d0, es, d, arrives);
    QuietSnoc(d0, es + [arrives], Device(d.m.(outs := [Packet(packet)], ins := []), d.disk), UsbEvent);
    more := es + [arrives] + [UsbEvent];
  }

  /** Bytes one by one, while the host owes more than that. */
  lemma {:induction false} ServesSingles(d0: Device, es: seq<DeviceEvent>, d: Device, x: Extent, o: nat,
                                         data: seq<byte>)
    returns (more: seq<DeviceEvent>, n: Device)
    requires Good(d0.m) && QuietRun(d0, es, d) && Hungry(d, x, o)
    requires d.disk.offset + |data| < x.size && |data| < d.m.left
    ensures QuietRun(d0, more, n) && Hungry(n, x, o)
    ensures Received(n.m) == Received(d.m) + data
    ensures n.m.left == d.m.left - |data| && n.m.ps == d.m.ps
    decreases |data|
  {
    if data == [] {
      more, n := es, d;
      assert Received(d.m) + data == Received(d.m);
    } else {
      more, n := ServesPacket(d0, es, d, x, o, data[..1]);
      Uncons(Received(d.m), data);
      more, n := ServesSingles(d0, more, n, x, o, data[1..]);
    }
  }

  lemma Uncons(s: seq<byte>, data: seq<byte>)
    requires data != []
    ensures (s + data[..1]) + data[1..] == s + data
  {
  }

  /** The rest of a Write: byte by byte to the last byte the host owes, or to the last but one of the blocks, and then
      one packet with what is missing. */
  lemma ServesRest(d0: Device, es: seq<DeviceEvent>, d: Device, x: Extent, o: nat, data: seq<byte>)
    returns (more: seq<DeviceEvent>, n: Device)
    requires Good(d0.m) && QuietRun(d0, es, d) && Hungry(d, x, o)
    requires d.disk.offset + |data| == x.size && |data| <= d.m.left - 1 + d.m.ps
    ensures QuietRun(d0, more, n) && Good(n.m)
    ensures Answered(n, Received(d.m) + data)
  {
    var a := Min(d.m.left, |data|) - 1;
    var before := Received(d.m);
    assert (before + data[..a]) + data[a..] == before + data;
    more, n := ServesSingles(d0, es, d, x, o, data[..a]);
    more, n := ServesPacket(d0, more, n, x, o, data[a..]);
  }

  // ----- exactly which Writes a host can get passed -----

  /** The Write `c` of `x` has just begun, and the handlers' offset is `o`. */
  predicate BegunWrite(d: Device, c: Cbw, x: Extent, o: nat) {
    && Good(d.m) && d.m.state == DataTransferFromHost && d.m.cbw == c && d.m.cs.None? && d.m.left == c.len
    && d.m.buf == [] && d.m.outs == []
    && d.m.ledger.cur.Some? && d.m.ledger.cur.value == Cmd(d.m.ledger.cur.value.raw, c, [], [], [], [], [], None)
    && d.disk.decode(c) == WriteOp(x) && Inside(d.disk.storage, x) && |d.disk.storage| < U32_LIMIT
    && d.disk.offset == o
  }

  lemma BegunIsShifted(d: Device, c: Cbw, x: Extent, o: nat)
    requires BegunWrite(d, c, x, o) && o <= x.size && x.at + x.size <= |d.disk.storage|
    ensures Shifted(d, d.disk.storage, x, o) && C.Capped(d.m.ledger, d.m.ps)
  {
    OverwriteNothing(d.disk.storage, x.at + o);
  }

  lemma BegunIsHungry(d: Device, c: Cbw, x: Extent, o: nat)
    requires BegunWrite(d, c, x, o) && o < x.size
    ensures Hungry(d, x, o) && Received(d.m) == [] && d.m.left == c.len > 0
    ensures QuietRun(d, [], d)
  {
  }

  /** The Write passed in full. */
  predicate PassedInFull(d: Device, x: Extent) {
    d.m.ledger.cur.Some? && d.m.ledger.cur.value.status == Some((Passed, x.size))
  }

  /** A call on a Write that needs no more bytes. */
  lemma PassesAtOnce(d: Device, c: Cbw, x: Extent)
    requires BegunWrite(d, c, x, x.size) && x.size < U32_LIMIT
    ensures CanHandle(d) && Offered(d.m)
    ensures var n := PollDevice(d, IDLE);
            && Good(n.m) && QuietRun(d, [] + [CommandEvent(IDLE)], n)
            && PassedInFull(n, x) && Received(n.m) == [] && n.disk.storage == d.disk.storage
  {
    OfferIsComplete(d.m);
    HandleGood(d, IDLE);
    PollDeviceGood(d, IDLE);
    PollAlone(Handle(d, IDLE).d.m);
    assert QuietRun(d, [], d);
    QuietSnoc(d, [], d, CommandEvent(IDLE));
  }

  /** Whatever the data, there is a run that passes the Write with it, as long as a host that owes one byte can still
      send what is missing in one packet. */
  lemma PassesWithData(d: Device, c: Cbw, x: Extent, data: seq<byte>) returns (es: seq<DeviceEvent>, n: Device)
    requires BegunWrite(d, c, x, 0) && |data| == x.size <= c.len - 1 + d.m.ps
    ensures QuietRun(d, es, n) && Good(n.m)
    ensures PassedInFull(n, x) && Received(n.m) == data && n.disk.storage == Overwrite(d.disk.storage, x.at, data)
  {
    if x.size == 0 {
      PassesAtOnce(d, c, x);
      es, n := [] + [CommandEvent(IDLE)], PollDevice(d, IDLE);
      OverwriteNothing(d.disk.storage, x.at);
    } else {
      BegunIsHungry(d, c, x, 0);
      es, n := ServesRest(d, [], d, x, 0, data);
      assert [] + data == data && data[..x.size] == data;
      BegunIsShifted(d, c, x, 0);
      ShiftedRun(d, es, n, d.disk.storage, x, 0);
    }
  }

  /** Some run of the device passes the current Write. */
  ghost predicate CanPass(d: Device, x: Extent)
    requires Good(d.m)
  {
    exists es: seq<DeviceEvent>, n: Device :: QuietRun(d, es, n) && PassedInFull(n, x)
  }

  lemma PassTookBytes(d: Device, c: Cbw, x: Extent, es: seq<DeviceEvent>, n: Device)
    requires BegunWrite(d, c, x, 0) && x.size > 0 && QuietRun(d, es, n) && PassedInFull(n, x)
    ensures x.size <= c.len - 1 + d.m.ps
  {
    BegunIsShifted(d, c, x, 0);
    ShiftedRun(d, es, n, d.disk.storage, x, 0);
    CappedRun(d, es, n, d.disk.storage, x, 0);
    SameWrapper(d, es, n);
  }

  lemma {:induction false} SameWrapper(d: Device, es: seq<DeviceEvent>, n: Device)
    requires Good(d.m) && QuietRun(d, es, n) && d.m.ledger.cur.Some?
    ensures n.m.ledger.cur.Some? && n.m.ledger.cur.value.cbw == d.m.ledger.cur.value.cbw
    ensures n.disk.decode == d.disk.decode
    decreases |es|
  {
    if es != [] {
      var before := QuietInit(d, es, n);
      SameWrapper(d, es[..|es| - 1], before);
      SameWrapperStep(before, es[|es| - 1]);
    }
  }

  lemma SameWrapperStep(d: Device, e: DeviceEvent)
    requires Good(d.m) && Allowed(d, e) && Quiet(e) && d.m.ledger.cur.Some?
    requires |Commands(DeviceStep(d, e).m.ledger)| == |Commands(d.m.ledger)|
    ensures var n := DeviceStep(d, e);
            && n.m.ledger.cur.Some? && n.m.ledger.cur.value.cbw == d.m.ledger.cur.value.cbw
            && n.disk.decode == d.disk.decode
  {
    match e
    case UsbEvent => QuietPoll(d.m);
    case CommandEvent(misc) =>
      if Offered(d.m) {
        OfferIsSafe(d.m);
        HandleSame(d, misc);
        HandleSameDecode(d, misc);
        HandleGood(d, misc);
        HandleTakesStatus(d, misc);
        PollStays(Handle(d, misc).d.m);
      }
    case _ =>
  }

  /** Some host gets a Write passed if and only if its blocks have at most a packet less a byte more than its transfer
      length. */
  lemma WritePassesExactly(d: Device, c: Cbw, x: Extent)
    requires BegunWrite(d, c, x, 0)
    ensures CanPass(d, x) <==> x.size <= c.len - 1 + d.m.ps
  {
    if x.size <= c.len - 1 + d.m.ps {
      var es, n := PassesWithData(d, c, x, Fill(x.size));
    } else if CanPass(d, x) {
      var es: seq<DeviceEvent>, n: Device :| QuietRun(d, es, n) && PassedInFull(n, x);
      PassTookBytes(d, c, x, es, n);
    }
  }

  lemma BegunOnNew(ps: nat, cap: nat, storage: seq<byte>, decode: Cbw -> BlockOp, packets: seq<seq<byte>>, c: Cbw,
                   x: Extent)
    requires Arrives(ps, cap, packets, c) && |storage| < U32_LIMIT
    requires c.dir == Out && decode(c) == WriteOp(x) && Inside(storage, x)
    ensures var d := Addressed(ps, cap, storage, decode, packets);
            DeviceReachable(d) && d.m.ps == ps && BegunWrite(d, c, x, 0)
  {
    AddressedReachable(ps, cap, storage, decode, packets, c);
  }

  /** A run of a new device in which the host announces fewer bytes than the blocks of its Write have, sends them all,
      and is told that the Write passed with nothing left over. */
  lemma ShortWritePasses(ps: nat, cap: nat, storage: seq<byte>, decode: Cbw -> BlockOp, packets: seq<seq<byte>>,
                         c: Cbw, x: Extent, data: seq<byte>) returns (d: Device, es: seq<DeviceEvent>, n: Device)
    requires Arrives(ps, cap, packets, c) && |storage| < U32_LIMIT
    requires c.dir == Out && decode(c) == WriteOp(x) && Inside(storage, x)
    requires c.len < x.size == |data| <= c.len - 1 + ps
    ensures DeviceReachable(d) && Good(d.m) && BegunWrite(d, c, x, 0) && QuietRun(d, es, n)
    ensures PassedInFull(n, x) && Residue(c, x.size) == 0
    ensures Received(n.m) == data && n.disk.storage == Overwrite(storage, x.at, data)
  {
    BegunOnNew(ps, cap, storage, decode, packets, c, x);
    d := Addressed(ps, cap, storage, decode, packets);
    es, n := PassesWithData(d, c, x, data);
  }
}
