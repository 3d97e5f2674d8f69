/** Whole runs of the device with storage in flash. As long as the host sends no more than the blocks of its Writes,
    it is the same array of blocks as the direct one; once it has sent more, the Write never ends. */
module StagedRuns {
  import opened Arithmetic
  import opened Bytes
  import opened Codec
  import opened Ledgers
  import opened Transport
  import opened Invariant
  import opened Runs
  import opened Scsi
  import opened Dispatch
  import opened Progress
  import opened Storage
  import opened Blocks
  import opened Staging

  /** The transport, the staged storage, the reading of commands, how much of the flash is the file system, and, as
      bookkeeping, the flash at the last reset. The flash begins with the file system and may go on behind it: Reads
      slice the file system, and programming does not know where it ends. */
  datatype StagedDevice = StagedDevice(m: Machine, g: Stage, decode: Cbw -> BlockOp, limit: nat, base: seq<byte>)

  /** The flash as the Read handler sees it. */
  function FlashDisk(d: StagedDevice): (k: Disk) {
    Disk(d.g.flash, d.g.offset, d.decode, d.base)
  }

  /** What the handlers' arithmetic and slicing demand. The Write handler slices its write buffer only. */
  predicate StagedCanHandle(d: StagedDevice) {
    match d.decode(d.m.cbw)
    case ReadOp(x) => Within(FlashDisk(d), x) && (d.g.offset == x.size || x.at + x.size <= d.limit)
    case WriteOp(x) => x.size < U32_LIMIT
    case NoOp => true
  }

  function StagedHandle(d: StagedDevice, misc: Callback): (h: StagedHandled)
    requires Good(d.m) && TakesStatus(d.m.state) && |d.g.wb| > 0 && StagedCanHandle(d)
  {
    match d.decode(d.m.cbw)
    case ReadOp(x) =>
      var h := ReadArm(Device(d.m, FlashDisk(d)), x);
      StagedHandled(h.d.m, d.g.(offset := h.d.disk.offset), h.r)
    case WriteOp(x) => StagedArm(d.m, d.g, x)
    case NoOp =>
      var h := MiscArm(Device(d.m, FlashDisk(d)), misc);
      StagedHandled(h.d.m, d.g, h.r)
  }

  lemma {:induction false} StageLoopGood(m: Machine, g: Stage, at: nat)
    requires Good(m) && TakesStatus(m.state) && |g.wb| > 0
    ensures Good(StageLoop(m, g, at).m)
    decreases |m.buf|
  {
    var o := StageTurn(m, g, at);
    var room := TurnReads(m, g, at);
    ReadDataGood(m, room);
    if o.more.Ok? && o.more.value { StageLoopGood(o.m, o.g, at); }
  }

  lemma TurnReads(m: Machine, g: Stage, at: nat) returns (room: nat)
    requires |g.wb| > 0
    ensures StageTurn(m, g, at).m == ReadData(m, room).m
  {
    room := |g.wb| - (at + g.offset) % |g.wb|;
  }

  lemma LoopThenPassGood(m: Machine, g: Stage, at: nat, total: u32, n: Machine)
    requires Good(m) && TakesStatus(m.state) && |g.wb| > 0
    requires n == StageLoop(m, g, at).m || n == SetStatus(StageLoop(m, g, at).m, Passed, total)
    ensures Good(n)
  {
    StageLoopGood(m, g, at);
    SetStatusGood(StageLoop(m, g, at).m, Passed, total);
  }

  lemma StagedArmGood(m: Machine, g: Stage, x: Extent)
    requires Good(m) && TakesStatus(m.state) && |g.wb| > 0 && x.size < U32_LIMIT
    ensures Good(StagedArm(m, g, x).m) && |StagedArm(m, g, x).g.wb| > 0
  {
    ArmCases(m, g, x);
    if g.offset != x.size {
      LoopThenPassGood(m, Began(g), x.at, x.size, StagedArm(m, g, x).m);
    } else {
      SetStatusGood(m, Passed, x.size);
    }
  }

  lemma StagedHandleGood(d: StagedDevice, misc: Callback)
    requires Good(d.m) && TakesStatus(d.m.state) && |d.g.wb| > 0 && StagedCanHandle(d)
    ensures Good(StagedHandle(d, misc).m) && |StagedHandle(d, misc).g.wb| > 0
  {
    match d.decode(d.m.cbw)
    case ReadOp(x) => ReadArmGood(Device(d.m, FlashDisk(d)), x);
    case WriteOp(x) => StagedArmGood(d.m, d.g, x);
    case NoOp => MiscArmGood(Device(d.m, FlashDisk(d)), misc);
  }

  lemma StagedHandleTakesStatus(d: StagedDevice, misc: Callback)
    requires Good(d.m) && TakesStatus(d.m.state) && |d.g.wb| > 0 && StagedCanHandle(d)
    ensures TakesStatus(StagedHandle(d, misc).m.state)
  {
  }

  /** `poll_command` with these handlers. */
  function PollStaged(d: StagedDevice, misc: Callback): (r: StagedDevice)
    requires Good(d.m) && |d.g.wb| > 0 && (Offered(d.m) ==> StagedCanHandle(d))
  {
    if !Offered(d.m) then d else
    OfferIsSafe(d.m);
    StagedHandleTakesStatus(d, misc);
    var h := StagedHandle(d, misc);
    d.(m := if h.r.Ok? then Poll(h.m).m else h.m, g := h.g)
  }

  /** What `poll_command` answers. */
  function PollStagedAnswer(d: StagedDevice, misc: Callback): (r: Answer<()>)
    requires Good(d.m) && |d.g.wb| > 0 && (Offered(d.m) ==> StagedCanHandle(d))
  {
    if !Offered(d.m) then Ok(()) else
    OfferIsSafe(d.m);
    StagedHandleTakesStatus(d, misc);
    var h := StagedHandle(d, misc);
    if h.r.Ok? then Poll(h.m).r else h.r
  }

  predicate StagedAllowed(d: StagedDevice, e: DeviceEvent)
    requires Good(d.m)
  {
    e.CommandEvent? && Offered(d.m) ==> StagedCanHandle(d)
  }

  function StagedStep(d: StagedDevice, e: DeviceEvent): (r: StagedDevice)
    requires Good(d.m) && |d.g.wb| > 0 && StagedAllowed(d, e)
  {
    match e
    case UsbEvent => d.(m := Poll(d.m).m)
    case BusEvent(outs, ins) => d.(m := d.m.(outs := outs, ins := ins))
    case CommandEvent(misc) => PollStaged(d, misc)
    case HaltClearedEvent(input, output) => d.(m := ClearHalt(d.m, input, output))
    case BusResetEvent => d.(m := Reset(d.m), g := d.g.(offset := 0), base := d.g.flash)
    case ClassResetEvent => d.(m := Reset(d.m), base := d.g.flash)
  }

  // ----- runs -----

  lemma PollStagedGood(d: StagedDevice, misc: Callback)
    requires Good(d.m) && |d.g.wb| > 0 && (Offered(d.m) ==> StagedCanHandle(d))
    ensures Good(PollStaged(d, misc).m) && |PollStaged(d, misc).g.wb| > 0
  {
    if Offered(d.m) {
      OfferIsSafe(d.m);
      StagedHandleGood(d, misc);
      if StagedHandle(d, misc).r.Ok? { PollGood(StagedHandle(d, misc).m); }
    }
  }

  lemma StagedStepGood(d: StagedDevice, e: DeviceEvent)
    requires Good(d.m) && |d.g.wb| > 0 && StagedAllowed(d, e)
    ensures Good(StagedStep(d, e).m) && |StagedStep(d, e).g.wb| > 0
  {
    match e
    case UsbEvent => PollGood(d.m);
    case BusEvent(outs, ins) => BusGood(d.m, outs, ins);
    case CommandEvent(misc) => PollStagedGood(d, misc);
    case HaltClearedEvent(input, output) => ClearHaltGood(d.m, input, output);
    case BusResetEvent => ResetGood(d.m);
    case ClassResetEvent => ResetGood(d.m);
  }

  ghost predicate StagedLegal(d: StagedDevice, es: seq<DeviceEvent>)
    requires Good(d.m) && |d.g.wb| > 0
    decreases |es|, 0
  {
    es == [] || (StagedLegal(d, es[..|es| - 1]) && StagedAllowed(StagedRun(d, es[..|es| - 1]), es[|es| - 1]))
  }

  ghost function StagedRun(d: StagedDevice, es: seq<DeviceEvent>): (r: StagedDevice)
    requires Good(d.m) && |d.g.wb| > 0 && StagedLegal(d, es)
    ensures Good(r.m) && |r.g.wb| > 0
    decreases |es|, 1
  {
    if es == [] then d else
    var before := StagedRun(d, es[..|es| - 1]);
    StagedStepGood(before, es[|es| - 1]);
    StagedStep(before, es[|es| - 1])
  }

  // ----- the direct device it stands for -----

  function InWholeBlocks(n: nat, bs: nat): (q: nat)
    requires bs > 0
  {
    n / bs
  }

  predicate WholeBlocks(x: Extent, bs: nat)
    requires bs > 0
  {
    x == Span(bs, InWholeBlocks(x.at, bs), InWholeBlocks(x.size, bs))
  }

  /** Writes are of whole blocks of the write buffer's size. */
  ghost predicate InBlocks(d: StagedDevice)
    requires |d.g.wb| > 0
  {
    forall c: Cbw :: d.decode(c).WriteOp? ==> WholeBlocks(d.decode(c).x, |d.g.wb|)
  }

  lemma SpanInBlocks(bs: nat, lba: nat, len: nat)
    requires bs > 0
    ensures WholeBlocks(Span(bs, lba, len), bs)
  {
    DivModUnique(bs * lba, lba, 0, bs);
    DivModUnique(bs * len, len, 0, bs);
  }

  lemma DecodedInBlocks(bs: nat, extended: bool, c: Cbw)
    requires bs > 0 && Decode(bs, extended, c).WriteOp?
    ensures WholeBlocks(Decode(bs, extended, c).x, bs)
  {
    var op := ParseCb(c.block[..c.blockLen], extended);
    SpanInBlocks(bs, op.lba, op.len);
  }

  /** SCSI Writes are. */
  lemma ScsiInBlocks(d: StagedDevice, extended: bool)
    requires |d.g.wb| > 0 && ReadsScsi(FlashDisk(d), |d.g.wb|, extended)
    ensures InBlocks(d)
  {
    forall c: Cbw | d.decode(c).WriteOp? ensures WholeBlocks(d.decode(c).x, |d.g.wb|) {
      assert FlashDisk(d).decode(c) == Decode(|d.g.wb|, extended, c);
      DecodedInBlocks(|d.g.wb|, extended, c);
    }
  }

  /** The Write under way, if there is one. */
  function WriteUnderWay(decode: Cbw -> BlockOp, l: Ledger): (x: Option<Extent>)
    ensures x.Some? ==> l.cur.Some? && l.cur.value.status.None? && decode(l.cur.value.cbw) == WriteOp(x.value)
  {
    if !Open(l) then None else
    match decode(l.cur.value.cbw)
    case WriteOp(x) => Some(x)
    case _ => None
  }

  /** The storage a direct device would have: what was delivered of a Write under way is already in it. */
  function Shadow(d: StagedDevice): (k: Disk) {
    match WriteUnderWay(d.decode, d.m.ledger)
    case None => FlashDisk(d)
    case Some(x) =>
      if d.g.offset == 0 then FlashDisk(d)
      else FlashDisk(d).(storage := Overwrite(d.g.origin, x.at, d.m.ledger.cur.value.delivered))
  }

  /** The bytes of a Write under way are staged or programmed. */
  predicate Keeps(d: StagedDevice) {
    match WriteUnderWay(d.decode, d.m.ledger)
    case None => |d.g.wb| > 0
    case Some(x) =>
      |d.g.wb| > 0 && Linked(Shadow(d), d.g, InWholeBlocks(x.at, |d.g.wb|), d.m.ledger.cur.value.delivered)
  }

  ghost predicate StagedTracks(d: StagedDevice) {
    Keeps(d) && |d.g.wb| > 0 && InBlocks(d) && Tracks(Device(d.m, Shadow(d)))
  }

  /** A ledger without a Write under way, or with one that has just begun, leaves no trace of one. */
  lemma NoShadow(d: StagedDevice)
    requires d.g.offset == 0 && |d.g.wb| > 0
    requires Open(d.m.ledger) ==> d.m.ledger.cur.value.delivered == []
    ensures Shadow(d) == FlashDisk(d) && Keeps(d)
  {
  }

  lemma SameShadow(d: StagedDevice, n: StagedDevice)
    requires Keeps(d) && n == d.(m := n.m) && Continues(d.m.ledger, n.m.ledger)
    ensures Shadow(n) == Shadow(d) && Keeps(n)
  {
  }

  /** No offset is left when a command has its verdict. */
  lemma ClosedOffset(k: Disk, l: Ledger)
    requires Stored(k, l) && !Open(l)
    ensures k.offset == 0
  {
  }

  lemma PollShadow(d: StagedDevice)
    requires Keeps(d) && Good(d.m) && Stored(Shadow(d), d.m.ledger)
    ensures var n := d.(m := Poll(d.m).m);
            Shadow(n) == Shadow(d) && Keeps(n)
  {
    var n := d.(m := Poll(d.m).m);
    PollOutcome(d.m);
    if Continues(d.m.ledger, n.m.ledger) {
      SameShadow(d, n);
    } else {
      ClosedOffset(Shadow(d), d.m.ledger);
      NoShadow(d);
      NoShadow(n);
    }
  }

  lemma PollOutcome(m: Machine)
    requires Good(m)
    ensures var n := Poll(m).m.ledger;
            Continues(m.ledger, n) || (!Open(m.ledger) && Follows(m.ledger, n))
  {
    PollGood(m);
    OverWhenIdle(m);
    PollProgress(m);
    var n := Poll(m).m.ledger;
    if !Continues(m.ledger, n) {
      DoneHaveStatus(Poll(m).m);
      assert m.ledger.cur.Some? ==> m.ledger.cur.value == n.done[|m.ledger.done|];
    }
  }

  // ----- a handler call -----

  /** The host has sent no more than the blocks of its Write. */
  predicate KeepsToBlocks(d: StagedDevice) {
    match WriteUnderWay(d.decode, d.m.ledger)
    case None => true
    case Some(x) => |d.m.ledger.cur.value.received| <= x.size
  }

  /** The two handlers came to the same. */
  predicate Alike(d: StagedDevice, h: StagedHandled, direct: Handled) {
    && h.m == direct.d.m && h.r == direct.r
    && var n := d.(m := h.m, g := h.g);
       Keeps(n) && Shadow(n).storage == direct.d.disk.storage && Shadow(n).offset == direct.d.disk.offset
  }

  lemma ReadAlike(d: StagedDevice, x: Extent, misc: Callback)
    requires StagedTracks(d) && Offered(d.m) && TakesStatus(d.m.state) && d.decode(d.m.cbw) == ReadOp(x)
    requires CanHandle(Device(d.m, Shadow(d))) && StagedCanHandle(d)
    ensures Alike(d, StagedHandle(d, misc), Handle(Device(d.m, Shadow(d)), misc))
  {
    OfferedLedger(d.m);
    var k := Shadow(d);
    assert k == FlashDisk(d);
    ReadArmShape(Device(d.m, k), x);
  }

  lemma MiscAlike(d: StagedDevice, misc: Callback)
    requires StagedTracks(d) && Offered(d.m) && TakesStatus(d.m.state) && d.decode(d.m.cbw) == NoOp
    ensures StagedCanHandle(d) && CanHandle(Device(d.m, Shadow(d)))
    ensures Alike(d, StagedHandle(d, misc), Handle(Device(d.m, Shadow(d)), misc))
  {
    OfferedLedger(d.m);
    assert Shadow(d) == FlashDisk(d);
  }

  /** Both devices at the Write under way. */
  lemma PairedNow(d: StagedDevice, x: Extent)
    requires StagedTracks(d) && TakesStatus(d.m.state) && d.m.cs.None? && d.decode(d.m.cbw) == WriteOp(x)
    requires CanHandle(Device(d.m, Shadow(d)))
    ensures Open(d.m.ledger) && d.m.ledger.cur.value.cbw == d.m.cbw
    ensures Paired(d.m, Shadow(d), d.g, x, InWholeBlocks(x.at, |d.g.wb|), InWholeBlocks(x.size, |d.g.wb|),
                   d.m.ledger.cur.value.delivered)
  {
    OfferedLedger(d.m);
  }

  lemma InTimeNow(d: StagedDevice, x: Extent)
    requires Good(d.m) && TakesStatus(d.m.state) && d.m.cs.None? && d.decode(d.m.cbw) == WriteOp(x)
    requires KeepsToBlocks(d)
    ensures Open(d.m.ledger) && InTime(d.m, d.g, x, d.m.ledger.cur.value.delivered)
  {
    OfferedLedger(d.m);
  }

  /** The account after the staged handler: a verdict, or the bytes it took. */
  predicate Accounted(m: Machine, s: StagedHandled, data: seq<byte>) {
    && s.m.ledger.cur.Some? && m.ledger.cur.Some? && s.m.ledger.cur.value.cbw == m.ledger.cur.value.cbw
    && if s.m.cs.Some? then s.g.offset == 0 && s.m.ledger.cur.value.status.Some?
       else s.g.offset == |data| && s.m.ledger.cur.value.status.None? && s.m.ledger.cur.value.delivered == data
  }

  lemma DrainedAccounted(m: Machine, g: Stage, lba: nat, data: seq<byte>, all: seq<byte>)
    requires m.cs.None? && Open(m.ledger) && m.ledger.cur.value.delivered == data
    requires all == data + m.buf && Staged(g, lba, all)
    ensures Accounted(m, StagedHandled(Drained(m), g, Ok(())), all)
  {
  }

  lemma LoopAccounted(m: Machine, g: Stage, lba: nat, data: seq<byte>, at: nat, h: StagedHandled)
    requires Staged(g, lba, data) && m.cs.None? && Open(m.ledger) && m.ledger.cur.value.delivered == data
    requires at == |g.wb| * lba && h == StageLoop(m, g, at)
    ensures Accounted(m, h, if Readable(m.state) then data + m.buf else data)
    ensures h.m.cs.None? && (h.r.Ok? <==> Readable(m.state))
  {
    LoopStaged(m, g, lba, data, at, h);
    if Readable(m.state) { DrainedAccounted(m, h.g, lba, data, data + m.buf); }
  }

  lemma PassAccounted(m: Machine, n: Machine, g: Stage, data: seq<byte>)
    requires Accounted(m, StagedHandled(n, g, Ok(())), data)
    requires TakesStatus(n.state) && g.offset < U32_LIMIT
    ensures Accounted(m, StagedPass(n, g), data)
  {
  }

  lemma ArmAccounted(m: Machine, k: Disk, g: Stage, x: Extent, lba: nat, len: nat, data: seq<byte>)
    requires Paired(m, k, g, x, lba, len, data)
    requires Open(m.ledger) && m.ledger.cur.value.delivered == data
    ensures Accounted(m, StagedArm(m, g, x), TakenBy(m, g, x, data))
  {
    BeganStaged(k, g, lba, data);
    if g.offset == x.size {
      PassAccounted(m, m, Began(g), data);
    } else {
      var h := StageLoop(m, Began(g), x.at);
      LoopAccounted(m, Began(g), lba, data, x.at, h);
      if h.r.Ok? && h.g.offset == x.size { PassAccounted(m, h.m, h.g, TakenBy(m, g, x, data)); }
    }
  }

  lemma WriteAlike(d: StagedDevice, x: Extent, misc: Callback)
    requires StagedTracks(d) && TakesStatus(d.m.state) && d.m.cs.None? && d.decode(d.m.cbw) == WriteOp(x)
    requires CanHandle(Device(d.m, Shadow(d))) && KeepsToBlocks(d)
    ensures StagedCanHandle(d)
    ensures Alike(d, StagedHandle(d, misc), Handle(Device(d.m, Shadow(d)), misc))
  {
    PairedNow(d, x);
    InTimeNow(d, x);
    var k, data := Shadow(d), d.m.ledger.cur.value.delivered;
    var lba, len := InWholeBlocks(x.at, |d.g.wb|), InWholeBlocks(x.size, |d.g.wb|);
    KeepsStepExactly(d.m, k, d.g, x, lba, len, data);
    ArmAccounted(d.m, k, d.g, x, lba, len, data);
    StepIsAlike(d, x, StagedArm(d.m, d.g, x), WriteArm(Device(d.m, k), x), lba, len, TakenBy(d.m, d.g, x, data));
  }

  lemma StepIsAlike(d: StagedDevice, x: Extent, s: StagedHandled, h: Handled, lba: nat, len: nat, data: seq<byte>)
    requires |d.g.wb| > 0 && lba == InWholeBlocks(x.at, |d.g.wb|) && x.at == |d.g.wb| * lba && |s.g.wb| == |d.g.wb|
    requires KeepsStep(h, s, lba, len, data) && Accounted(d.m, s, data)
    requires d.decode(d.m.ledger.cur.value.cbw) == WriteOp(x)
    ensures Alike(d, s, h)
  {
  }

  lemma HandleAlike(d: StagedDevice, misc: Callback)
    requires StagedTracks(d) && Offered(d.m) && TakesStatus(d.m.state)
    requires CanHandle(Device(d.m, Shadow(d))) && StagedCanHandle(d) && KeepsToBlocks(d)
    ensures Alike(d, StagedHandle(d, misc), Handle(Device(d.m, Shadow(d)), misc))
  {
    match d.decode(d.m.cbw)
    case ReadOp(x) => ReadAlike(d, x, misc);
    case WriteOp(x) => WriteAlike(d, x, misc);
    case NoOp => MiscAlike(d, misc);
  }

  lemma StagedHandleKeepsShape(d: StagedDevice, misc: Callback)
    requires Good(d.m) && TakesStatus(d.m.state) && |d.g.wb| > 0 && StagedCanHandle(d)
    ensures |StagedHandle(d, misc).g.wb| == |d.g.wb|
  {
  }

  lemma HandleKeepsShape(d: Device, misc: Callback)
    requires Good(d.m) && TakesStatus(d.m.state) && CanHandle(d)
    ensures Handle(d, misc).d.disk.decode == d.disk.decode && Handle(d, misc).d.disk.base == d.disk.base
  {
  }

  /** The device after the handler and before the poll. */
  lemma HandledTracks(d: StagedDevice, misc: Callback)
    requires StagedTracks(d) && Offered(d.m) && TakesStatus(d.m.state)
    requires CanHandle(Device(d.m, Shadow(d))) && StagedCanHandle(d) && KeepsToBlocks(d)
    ensures var h := StagedHandle(d, misc);
            StagedTracks(d.(m := h.m, g := h.g))
  {
    HandleAlike(d, misc);
    var direct, h := Device(d.m, Shadow(d)), StagedHandle(d, misc);
    StagedHandleKeepsShape(d, misc);
    HandleKeepsShape(direct, misc);
    HandleGood(direct, misc);
    HandleStored(direct, misc);
    assert Shadow(d.(m := h.m, g := h.g)) == Handle(direct, misc).d.disk;
  }

  lemma PollTracks(d: StagedDevice)
    requires StagedTracks(d)
    ensures StagedTracks(d.(m := Poll(d.m).m))
  {
    PollShadow(d);
    PollStored(d.m, Shadow(d));
  }

  lemma PollStagedTracks(d: StagedDevice, misc: Callback)
    requires StagedTracks(d) && KeepsToBlocks(d)
    requires Offered(d.m) ==> CanHandle(Device(d.m, Shadow(d))) && StagedCanHandle(d)
    ensures StagedTracks(PollStaged(d, misc))
  {
    if Offered(d.m) {
      OfferIsSafe(d.m);
      HandledTracks(d, misc);
      var h := StagedHandle(d, misc);
      if h.r.Ok? { PollTracks(d.(m := h.m, g := h.g)); }
    }
  }

  // ----- runs with a host that keeps to its blocks -----

  /** The host's side: block commands are inside the storage, Writes get no more bytes than their blocks have, and
      the transport alone is reset only between block commands. */
  predicate Fair(d: StagedDevice, e: DeviceEvent)
    requires Good(d.m)
  {
    match e
    case CommandEvent(_) => (Offered(d.m) ==> CanHandle(Device(d.m, Shadow(d)))) && KeepsToBlocks(d)
    case ClassResetEvent => d.g.offset == 0
    case _ => true
  }

  lemma ResetTracks(d: StagedDevice)
    requires |d.g.wb| > 0 && InBlocks(d) && Good(d.m) && |d.g.flash| < U32_LIMIT && d.g.offset == 0
    ensures StagedTracks(d.(m := Reset(d.m), base := d.g.flash))
  {
    ResetGood(d.m);
    NoShadow(d.(m := Reset(d.m), base := d.g.flash));
  }

  lemma FlashFits(d: StagedDevice)
    requires StagedTracks(d)
    ensures |d.g.flash| < U32_LIMIT
  {
  }

  lemma BusTracks(d: StagedDevice, m: Machine)
    requires StagedTracks(d) && Good(m) && m.ledger == d.m.ledger
    ensures StagedTracks(d.(m := m))
  {
  }

  lemma StagedStepTracks(d: StagedDevice, e: DeviceEvent)
    requires StagedTracks(d) && StagedAllowed(d, e) && Fair(d, e)
    ensures StagedTracks(StagedStep(d, e))
  {
    FlashFits(d);
    match e
    case UsbEvent => PollTracks(d);
    case BusEvent(outs, ins) => BusGood(d.m, outs, ins); BusTracks(d, d.m.(outs := outs, ins := ins));
    case CommandEvent(misc) => PollStagedTracks(d, misc);
    case HaltClearedEvent(input, output) =>
      ClearHaltGood(d.m, input, output);
      BusTracks(d, ClearHalt(d.m, input, output));
    case BusResetEvent => ResetTracks(d.(g := d.g.(offset := 0)));
    case ClassResetEvent => ResetTracks(d);
  }

  ghost predicate FairRun(d: StagedDevice, es: seq<DeviceEvent>)
    requires Good(d.m) && |d.g.wb| > 0 && StagedLegal(d, es)
    decreases |es|
  {
    es == [] || (FairRun(d, es[..|es| - 1]) && Fair(StagedRun(d, es[..|es| - 1]), es[|es| - 1]))
  }

  lemma {:induction false} FairRunTracks(d: StagedDevice, es: seq<DeviceEvent>)
    requires StagedTracks(d) && StagedLegal(d, es) && FairRun(d, es)
    ensures StagedTracks(StagedRun(d, es)) && StagedRun(d, es).decode == d.decode
    decreases |es|
  {
    if es != [] {
      FairRunTracks(d, es[..|es| - 1]);
      StagedStepTracks(StagedRun(d, es[..|es| - 1]), es[|es| - 1]);
    }
  }

  /** A device at work for the first time. */
  predicate NewStaged(d: StagedDevice, ps: nat, cap: nat) {
    && Configured(ps, cap) && d.m == Transport.Init(ps, cap)
    && d.g.wb != [] && d.g.offset == 0 && d.g.flash == d.base && |d.g.flash| < U32_LIMIT
  }

  lemma NewStagedTracks(d: StagedDevice, ps: nat, cap: nat)
    requires NewStaged(d, ps, cap) && InBlocks(d)
    ensures StagedTracks(d)
  {
    InitGood(ps, cap);
  }

  /** In every run that starts from `d`, a new device or one whose storage is in order, with a host that keeps to its
      blocks: with no command under way the flash is the one of the last reset with the commands since then applied
      in order, each Write by the bytes the host sent for it. */
  lemma FlashIsReplay(d: StagedDevice, es: seq<DeviceEvent>)
    requires StagedTracks(d) && StagedLegal(d, es) && FairRun(d, es)
    ensures var n := StagedRun(d, es);
            && AllServed(FlashDisk(n), n.m.ledger.done)
            && (!Open(n.m.ledger) ==>
                  n.g.flash == Replay(FlashDisk(n), Commands(n.m.ledger)) && n.g.offset == 0)
  {
    var n := StagedRun(d, es);
    FairRunTracks(d, es);
    TracksReplay(Device(n.m, Shadow(n)));
    AllServedSame(Shadow(n), FlashDisk(n), n.m.ledger.done);
  }

  /** And what the host wrote is what the host reads. */
  lemma FlashReadBack(d: StagedDevice, es: seq<DeviceEvent>, n: StagedDevice, i: nat, j: nat, x: Extent)
    requires StagedTracks(d) && StagedLegal(d, es) && FairRun(d, es) && n == StagedRun(d, es)
    requires i < j < |Finished(n.m.ledger)|
    requires d.decode(Finished(n.m.ledger)[i].cbw) == WriteOp(x)
    requires var r := Finished(n.m.ledger)[j];
             d.decode(r.cbw) == ReadOp(x) && r.cbw.dir == In && r.cbw.len == x.size
    requires forall k :: i < k < j ==> Spares(FlashDisk(n), Finished(n.m.ledger)[k], x)
    ensures var w, r := Finished(n.m.ledger)[i], Finished(n.m.ledger)[j];
            && |w.received| >= x.size
            && r.sent == w.received[..x.size] + EncodeCsw(Csw(r.cbw.tag, 0, Passed))
  {
    FairRunTracks(d, es);
    forall k | i < k < j ensures Spares(Shadow(n), Finished(n.m.ledger)[k], x) {
      assert Spares(FlashDisk(n), Finished(n.m.ledger)[k], x);
    }
    TracksReadBack(Device(n.m, Shadow(n)), i, j, x);
  }
}
