/** Whole runs of the storage device, and what a host may conclude from them. */
module Blocks {
  import opened Bytes
  import opened Codec
  import opened Ledgers
  import opened Transport
  import opened Invariant
  import opened Runs
  import opened Acceptance
  import opened Scsi
  import opened Dispatch
  import opened Storage

  datatype DeviceEvent =
    | UsbEvent
    | BusEvent(outs: seq<OutReply>, ins: seq<InReply>)
    | CommandEvent(misc: Callback)
    | HaltClearedEvent(input: bool, output: bool)
    | BusResetEvent // the firmware clears its own state as well
    | ClassResetEvent // Bulk-Only Mass Storage Reset: the transport only

  /** Not a reset. */
  predicate Quiet(e: DeviceEvent) {
    !e.BusResetEvent? && !e.ClassResetEvent?
  }

  /** The one thing that can go wrong in a step: a handler that slices outside the storage. */
  predicate Allowed(d: Device, e: DeviceEvent)
    requires Good(d.m)
  {
    e.CommandEvent? && Offered(d.m) ==> CanHandle(d)
  }

  function ClassReset(d: Device): (r: Device) {
    Device(Reset(d.m), d.disk.(base := d.disk.storage))
  }

  function DeviceStep(d: Device, e: DeviceEvent): (r: Device)
    requires Good(d.m) && Allowed(d, e)
  {
    match e
    case UsbEvent => Device(Poll(d.m).m, d.disk)
    case BusEvent(outs, ins) => Device(d.m.(outs := outs, ins := ins), d.disk)
    case CommandEvent(misc) => PollDevice(d, misc)
    case HaltClearedEvent(input, output) => Device(ClearHalt(d.m, input, output), d.disk)
    case BusResetEvent => Device(Reset(d.m), d.disk.(base := d.disk.storage, offset := 0))
    case ClassResetEvent => ClassReset(d)
  }

  lemma DeviceStepGood(d: Device, e: DeviceEvent)
    requires Good(d.m) && Allowed(d, e)
    ensures Good(DeviceStep(d, e).m)
  {
    match e
    case UsbEvent => PollGood(d.m);
    case BusEvent(outs, ins) => BusGood(d.m, outs, ins);
    case CommandEvent(misc) => PollDeviceGood(d, misc);
    case HaltClearedEvent(input, output) => ClearHaltGood(d.m, input, output);
    case BusResetEvent => ResetGood(d.m);
    case ClassResetEvent => ResetGood(d.m);
  }

  ghost predicate DeviceLegal(d: Device, es: seq<DeviceEvent>)
    requires Good(d.m)
    decreases |es|, 0
  {
    es == [] || (DeviceLegal(d, es[..|es| - 1]) && Allowed(DeviceRun(d, es[..|es| - 1]), es[|es| - 1]))
  }

  ghost function DeviceRun(d: Device, es: seq<DeviceEvent>): (r: Device)
    requires Good(d.m) && DeviceLegal(d, es)
    ensures Good(r.m)
    decreases |es|, 1
  {
    if es == [] then d else
    var before := DeviceRun(d, es[..|es| - 1]);
    DeviceStepGood(before, es[|es| - 1]);
    DeviceStep(before, es[|es| - 1])
  }

  // ----- runs in which the host resets the transport alone only between block commands -----

  /** The host resets the transport alone only between block commands. */
  predicate Orderly(d: Device, e: DeviceEvent) {
    e.ClassResetEvent? ==> d.disk.offset == 0
  }

  lemma DeviceStepTracks(d: Device, e: DeviceEvent)
    requires Tracks(d) && Allowed(d, e) && Orderly(d, e)
    ensures Tracks(DeviceStep(d, e))
  {
    match e
    case UsbEvent => PollStored(d.m, d.disk);
    case BusEvent(outs, ins) => BusGood(d.m, outs, ins);
    case CommandEvent(misc) => PollDeviceTracks(d, misc);
    case HaltClearedEvent(input, output) => ClearHaltGood(d.m, input, output);
    case BusResetEvent => ResetTracks(d.(disk := d.disk.(offset := 0)));
    case ClassResetEvent => ResetTracks(d);
  }

  lemma ResetTracks(d: Device)
    requires Good(d.m) && |d.disk.storage| < U32_LIMIT && d.disk.offset == 0
    ensures Tracks(ClassReset(d))
  {
    ResetGood(d.m);
  }

  ghost predicate OrderlyRun(d: Device, es: seq<DeviceEvent>)
    requires Good(d.m) && DeviceLegal(d, es)
    decreases |es|
  {
    es == [] || (OrderlyRun(d, es[..|es| - 1]) && Orderly(DeviceRun(d, es[..|es| - 1]), es[|es| - 1]))
  }

  lemma {:induction false} DeviceRunTracks(d: Device, es: seq<DeviceEvent>)
    requires Tracks(d) && DeviceLegal(d, es) && OrderlyRun(d, es)
    ensures Tracks(DeviceRun(d, es))
    decreases |es|
  {
    if es != [] {
      DeviceRunTracks(d, es[..|es| - 1]);
      DeviceStepTracks(DeviceRun(d, es[..|es| - 1]), es[|es| - 1]);
    }
  }

  function NewDevice(ps: nat, cap: nat, storage: seq<byte>, decode: Cbw -> BlockOp): (d: Device)
    requires Configured(ps, cap) && |storage| < U32_LIMIT
    ensures Tracks(d)
  {
    InitGood(ps, cap);
    Device(Transport.Init(ps, cap), Disk(storage, 0, decode, storage))
  }

  /** A run of a new device leads to `d`. */
  ghost predicate DeviceLeadsTo(ps: nat, cap: nat, storage: seq<byte>, decode: Cbw -> BlockOp,
                                es: seq<DeviceEvent>, d: Device)
  {
    && Configured(ps, cap) && |storage| < U32_LIMIT
    && var start := NewDevice(ps, cap, storage, decode);
       DeviceLegal(start, es) && OrderlyRun(start, es) && d == DeviceRun(start, es)
  }

  /** All states of all runs. */
  ghost predicate DeviceReachable(d: Device) {
    exists ps: nat, cap: nat, storage: seq<byte>, decode: Cbw -> BlockOp, es: seq<DeviceEvent> ::
      DeviceLeadsTo(ps, cap, storage, decode, es, d)
  }

  lemma DeviceReachableTracks(d: Device)
    requires DeviceReachable(d)
    ensures Tracks(d)
  {
    var ps: nat, cap: nat, storage: seq<byte>, decode: Cbw -> BlockOp, es: seq<DeviceEvent> :|
      DeviceLeadsTo(ps, cap, storage, decode, es, d);
    DeviceRunTracks(NewDevice(ps, cap, storage, decode), es);
  }

  lemma DeviceReachableStart(ps: nat, cap: nat, storage: seq<byte>, decode: Cbw -> BlockOp)
    requires Configured(ps, cap) && |storage| < U32_LIMIT
    ensures DeviceReachable(NewDevice(ps, cap, storage, decode))
  {
    assert DeviceLeadsTo(ps, cap, storage, decode, [], NewDevice(ps, cap, storage, decode));
  }

  lemma DeviceReachableStep(d: Device, e: DeviceEvent, n: Device)
    requires DeviceReachable(d) && Good(d.m) && Allowed(d, e) && Orderly(d, e) && n == DeviceStep(d, e)
    ensures DeviceReachable(n)
  {
    var ps: nat, cap: nat, storage: seq<byte>, decode: Cbw -> BlockOp, es: seq<DeviceEvent> :|
      DeviceLeadsTo(ps, cap, storage, decode, es, d);
    var more := es + [e];
    assert more[..|more| - 1] == es && more[|more| - 1] == e;
    assert DeviceLeadsTo(ps, cap, storage, decode, more, n);
  }

  lemma {:induction false} FeedDeviceReachable(d: Device, packets: seq<seq<byte>>)
    requires DeviceReachable(d) && Good(d.m)
    ensures DeviceReachable(Device(Feed(d.m, packets), d.disk))
    decreases |packets|
  {
    if packets != [] {
      FeedDeviceReachable(d, Leading(packets));
      FedDeviceReachable(Device(Feed(d.m, Leading(packets)), d.disk), packets[|packets| - 1]);
    }
  }

  lemma FedDeviceReachable(d: Device, packet: seq<byte>)
    requires DeviceReachable(d) && Good(d.m)
    ensures DeviceReachable(Device(Fed(d.m, packet), d.disk))
  {
    var ready := Device(d.m.(outs := [Packet(packet)], ins := []), d.disk);
    BusGood(d.m, [Packet(packet)], []);
    DeviceReachableStep(d, DeviceEvent.BusEvent([Packet(packet)], []), ready);
    DeviceReachableStep(ready, UsbEvent, Device(Fed(d.m, packet), d.disk));
  }

  /** A new device that was sent a wrapper. */
  function Addressed(ps: nat, cap: nat, storage: seq<byte>, decode: Cbw -> BlockOp, packets: seq<seq<byte>>)
    : (d: Device)
    requires Configured(ps, cap) && |storage| < U32_LIMIT
  {
    Device(Feed(Start(ps, cap), packets), Disk(storage, 0, decode, storage))
  }

  lemma AddressedReachable(ps: nat, cap: nat, storage: seq<byte>, decode: Cbw -> BlockOp, packets: seq<seq<byte>>,
                           c: Cbw)
    requires Arrives(ps, cap, packets, c) && |storage| < U32_LIMIT
    ensures var d := Addressed(ps, cap, storage, decode, packets);
            && DeviceReachable(d) && Good(d.m) && SameDevice(d.m, Start(ps, cap))
            && JustBegun(Start(ps, cap), d.m, c, Joined(packets))
  {
    DeviceReachableStart(ps, cap, storage, decode);
    FeedDeviceReachable(NewDevice(ps, cap, storage, decode), packets);
    SurplusIsDropped(Start(ps, cap), packets, c);
  }

  lemma TracksReplay(d: Device)
    requires Tracks(d)
    ensures AllServed(d.disk, d.m.ledger.done)
    ensures !Open(d.m.ledger) ==> d.disk.storage == Replay(d.disk, Commands(d.m.ledger)) && d.disk.offset == 0
    ensures Open(d.m.ledger) && d.m.ledger.cur.value.accepted == [] && d.m.ledger.cur.value.delivered == [] ==>
              d.disk.storage == Replay(d.disk, d.m.ledger.done) && d.disk.offset == 0
  {
    var l := d.m.ledger;
    if l.cur.Some? {
      ReplaySnoc(d.disk, l.done, l.cur.value);
      if Open(l) && d.disk.decode(l.cur.value.cbw).WriteOp? {
        OverwriteNothing(Replay(d.disk, l.done), d.disk.decode(l.cur.value.cbw).x.at);
      }
    }
  }

  /** The device is an array of blocks. In every run, whatever the packet sizes, failures and chunking: with no
      command under way the storage is the one of the last reset with the commands since then applied in
      order, each Write by the bytes the host sent for it; and the offset is 0 then and whenever a block command
      begins. */
  lemma StorageIsReplay(d: Device)
    requires DeviceReachable(d)
    ensures AllServed(d.disk, d.m.ledger.done)
    ensures !Open(d.m.ledger) ==> d.disk.storage == Replay(d.disk, Commands(d.m.ledger)) && d.disk.offset == 0
    ensures Open(d.m.ledger) && d.m.ledger.cur.value.accepted == [] && d.m.ledger.cur.value.delivered == [] ==>
              d.disk.storage == Replay(d.disk, d.m.ledger.done) && d.disk.offset == 0
  {
    DeviceReachableTracks(d);
    TracksReplay(d);
  }

  lemma ReadFrame(s: seq<byte>, c: Cmd, k: Disk, x: Extent)
    requires Complete(c) && Served(s, c, k)
    requires k.decode(c.cbw) == ReadOp(x) && c.cbw.dir == In && c.cbw.len == x.size
    ensures Inside(s, x)
    ensures c.sent == BlocksOf(s, x) + EncodeCsw(Csw(c.cbw.tag, 0, Passed))
  {
    assert |c.accepted| == x.size && SatSub(c.cbw.len, |c.accepted|) == 0;
    assert c.accepted + Fill(0) == c.accepted;
    assert CswBytes(c) == EncodeCsw(Csw(c.cbw.tag, 0, Passed));
  }

  /** The current command is finished once it is over. */
  lemma OverIsComplete(m: Machine)
    requires Good(m) && m.ledger.cur.Some? && Over(m.ledger.cur.value)
    ensures Complete(m.ledger.cur.value)
  {
    var c := m.ledger.cur.value;
    if m.state == StatusTransfer { assert CswBytes(c)[..CSW_LEN] == CswBytes(c); }
  }

  /** The finished commands since the last reset: all before the current one, and that too once it is over. */
  function Finished(l: Ledger): (cmds: seq<Cmd>) {
    if l.cur.Some? && Over(l.cur.value) then Commands(l) else l.done
  }

  lemma AllFinished(d: Device)
    requires Tracks(d)
    ensures AllServed(d.disk, Finished(d.m.ledger))
    ensures forall j :: 0 <= j < |Finished(d.m.ledger)| ==> Complete(Finished(d.m.ledger)[j])
  {
    var l := d.m.ledger;
    if l.cur.Some? && Over(l.cur.value) {
      OverIsComplete(d.m);
      AllServedSnoc(d.disk, l.done, l.cur.value);
    }
  }

  lemma TracksSendsBlocks(d: Device, j: nat, x: Extent)
    requires Tracks(d) && j < |Finished(d.m.ledger)|
    requires var c := Finished(d.m.ledger)[j];
             d.disk.decode(c.cbw) == ReadOp(x) && c.cbw.dir == In && c.cbw.len == x.size
    ensures var c, s := Finished(d.m.ledger)[j], Replay(d.disk, Finished(d.m.ledger)[..j]);
            && Inside(s, x)
            && c.sent == BlocksOf(s, x) + EncodeCsw(Csw(c.cbw.tag, 0, Passed))
  {
    AllFinished(d);
    var cmds := Finished(d.m.ledger);
    ReadFrame(Replay(d.disk, cmds[..j]), cmds[j], d.disk, x);
  }

  /** A finished Read whose transfer length is that of its blocks: the host got exactly the blocks as the
      earlier commands left them, no padding, status passed, residue 0. */
  lemma ReadSendsBlocks(d: Device, j: nat, x: Extent)
    requires DeviceReachable(d) && j < |Finished(d.m.ledger)|
    requires var c := Finished(d.m.ledger)[j];
             d.disk.decode(c.cbw) == ReadOp(x) && c.cbw.dir == In && c.cbw.len == x.size
    ensures var c, s := Finished(d.m.ledger)[j], Replay(d.disk, Finished(d.m.ledger)[..j]);
            && Inside(s, x)
            && c.sent == BlocksOf(s, x) + EncodeCsw(Csw(c.cbw.tag, 0, Passed))
  {
    DeviceReachableTracks(d);
    TracksSendsBlocks(d, j, x);
  }

  /** Does a command leave the bytes of `x` alone? */
  predicate Spares(k: Disk, c: Cmd, x: Extent) {
    match k.decode(c.cbw)
    case WriteOp(y) => y.at + y.size <= x.at || x.at + x.size <= y.at
    case _ => true
  }

  lemma SparedBySpares(s: seq<byte>, k: Disk, c: Cmd, x: Extent)
    requires Spares(k, c, x) && x.at + x.size <= |s|
    ensures Effect(s, c, k)[x.at..x.at + x.size] == s[x.at..x.at + x.size]
  {
  }

  lemma {:induction false} Undisturbed(k: Disk, cmds: seq<Cmd>, i: nat, j: nat, x: Extent)
    requires i <= j <= |cmds| && x.at + x.size <= |k.base|
    requires forall n :: i <= n < j ==> Spares(k, cmds[n], x)
    ensures Replay(k, cmds[..j])[x.at..x.at + x.size] == Replay(k, cmds[..i])[x.at..x.at + x.size]
    decreases j
  {
    if i < j {
      Undisturbed(k, cmds, i, j - 1, x);
      assert cmds[..j] == cmds[..j - 1] + [cmds[j - 1]];
      ReplaySnoc(k, cmds[..j - 1], cmds[j - 1]);
      SparedBySpares(Replay(k, cmds[..j - 1]), k, cmds[j - 1], x);
    }
  }

  lemma WrittenIsThere(k: Disk, cmds: seq<Cmd>, i: nat, j: nat, x: Extent)
    requires AllServed(k, cmds) && i < j <= |cmds|
    requires k.decode(cmds[i].cbw) == WriteOp(x)
    requires forall n :: i < n < j ==> Spares(k, cmds[n], x)
    ensures Inside(k.base, x) && |cmds[i].received| >= x.size
    ensures BlocksOf(Replay(k, cmds[..j]), x) == cmds[i].received[..x.size]
  {
    var w := cmds[i];
    assert Served(Replay(k, cmds[..i]), w, k);
    if x.size == 0 { return; }
    Undisturbed(k, cmds, i + 1, j, x);
    assert cmds[..i + 1] == cmds[..i] + [w];
    ReplaySnoc(k, cmds[..i], w);
    assert Overwrite(Replay(k, cmds[..i]), x.at, w.received[..x.size])[x.at..x.at + x.size] == w.received[..x.size];
  }

  lemma TracksReadBack(d: Device, i: nat, j: nat, x: Extent)
    requires Tracks(d) && i < j < |Finished(d.m.ledger)|
    requires d.disk.decode(Finished(d.m.ledger)[i].cbw) == WriteOp(x)
    requires var r := Finished(d.m.ledger)[j];
             d.disk.decode(r.cbw) == ReadOp(x) && r.cbw.dir == In && r.cbw.len == x.size
    requires forall n :: i < n < j ==> Spares(d.disk, Finished(d.m.ledger)[n], x)
    ensures var w, r := Finished(d.m.ledger)[i], Finished(d.m.ledger)[j];
            && |w.received| >= x.size
            && r.sent == w.received[..x.size] + EncodeCsw(Csw(r.cbw.tag, 0, Passed))
  {
    AllFinished(d);
    WrittenIsThere(d.disk, Finished(d.m.ledger), i, j, x);
    TracksSendsBlocks(d, j, x);
  }

  /** End to end: what the host wrote is what the host reads. A finished Write and a later finished Read of the
      same blocks, with no Write to them in between, put on the wire exactly the bytes the host had sent. */
  lemma ReadBack(d: Device, i: nat, j: nat, x: Extent)
    requires DeviceReachable(d) && i < j < |Finished(d.m.ledger)|
    requires var w, r := Finished(d.m.ledger)[i], Finished(d.m.ledger)[j];
             && d.disk.decode(w.cbw) == WriteOp(x)
             && d.disk.decode(r.cbw) == ReadOp(x)
             && r.cbw.dir == In && r.cbw.len == x.size
    requires forall n :: i < n < j ==> Spares(d.disk, Finished(d.m.ledger)[n], x)
    ensures var w, r := Finished(d.m.ledger)[i], Finished(d.m.ledger)[j];
            && |w.received| >= x.size
            && r.sent == w.received[..x.size] + EncodeCsw(Csw(r.cbw.tag, 0, Passed))
  {
    DeviceReachableTracks(d);
    TracksReadBack(d, i, j, x);
  }

  /** A host's WRITE(10) or READ(10) of `len` blocks from `lba` on. */
  predicate IsTenByte(c: Cbw, op: byte, lba: nat, len: nat) {
    && 9 <= c.blockLen <= |c.block| && Fits(lba, 4) && Fits(len, 2)
    && c.block[0] == op && c.block[2..6] == ToBe(lba, 4) && c.block[7..9] == ToBe(len, 2)
  }

  /** The device reads its commands as SCSI commands on blocks of `bs` bytes. */
  ghost predicate ReadsScsi(k: Disk, bs: nat, extended: bool) {
    forall c: Cbw :: k.decode(c) == Decode(bs, extended, c)
  }

  lemma TenByteOp(k: Disk, bs: nat, extended: bool, c: Cbw, op: byte, lba: nat, len: nat)
    requires ReadsScsi(k, bs, extended) && IsTenByte(c, op, lba, len)
    ensures op == READ_10 ==> k.decode(c) == ReadOp(Span(bs, lba, len))
    ensures op == WRITE_10 ==> k.decode(c) == WriteOp(Span(bs, lba, len))
  {
    DecodeTenByteForms(bs, extended, c, lba, len);
    assert k.decode(c) == Decode(bs, extended, c);
  }

  /** The same in the host's own terms: a WRITE(10) and a later READ(10) of the same blocks. */
  lemma ReadBackTenByte(d: Device, i: nat, j: nat, bs: nat, extended: bool, lba: nat, len: nat, x: Extent)
    requires DeviceReachable(d) && i < j < |Finished(d.m.ledger)|
    requires ReadsScsi(d.disk, bs, extended) && x == Span(bs, lba, len)
    requires IsTenByte(Finished(d.m.ledger)[i].cbw, WRITE_10, lba, len)
    requires IsTenByte(Finished(d.m.ledger)[j].cbw, READ_10, lba, len)
    requires Finished(d.m.ledger)[j].cbw.dir == In && Finished(d.m.ledger)[j].cbw.len == x.size
    requires forall n :: i < n < j ==> Spares(d.disk, Finished(d.m.ledger)[n], x)
    ensures var w, r := Finished(d.m.ledger)[i], Finished(d.m.ledger)[j];
            && |w.received| >= x.size
            && r.sent == w.received[..x.size] + EncodeCsw(Csw(r.cbw.tag, 0, Passed))
  {
    TenByteOp(d.disk, bs, extended, Finished(d.m.ledger)[i].cbw, WRITE_10, lba, len);
    TenByteOp(d.disk, bs, extended, Finished(d.m.ledger)[j].cbw, READ_10, lba, len);
    ReadBack(d, i, j, x);
  }
}
