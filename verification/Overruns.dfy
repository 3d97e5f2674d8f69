/** A host that sends more than the blocks of its Write to the device with storage in flash: exactly when it can, and
    what comes of it. */
module Overruns {
  import opened Bytes
  import opened Codec
  import opened Ledgers
  import opened Transport
  import opened Invariant
  import opened Runs
  import C = Conservation
  import opened Acceptance
  import opened Dispatch
  import opened Storage
  import opened Blocks
  import opened Liveness
  import opened Hosts
  import opened Staging
  import opened StagedRuns

  // ----- a Write past its end -----

  /** The Write under way has run past its end. */
  predicate Overrun(d: StagedDevice, x: Extent) {
    && Good(d.m) && TakesStatus(d.m.state) && d.m.cs.None?
    && d.decode(d.m.cbw) == WriteOp(x) && x.size < U32_LIMIT
    && |d.g.wb| > 0 && WholeBlocks(x, |d.g.wb|)
    && Staged(d.g, InWholeBlocks(x.at, |d.g.wb|), d.m.ledger.cur.value.delivered)
    && d.g.offset > x.size
  }

  lemma OverrunPolled(d: StagedDevice, x: Extent)
    requires Overrun(d, x)
    ensures Overrun(d.(m := Poll(d.m).m), x)
  {
    OfferedLedger(d.m);
    PollGood(d.m);
    PollKeepsOpen(d.m);
  }

  /** The handler takes what there is and gives no verdict. */
  lemma OverrunHandled(d: StagedDevice, x: Extent, misc: Callback)
    requires Overrun(d, x)
    ensures StagedCanHandle(d)
    ensures var h := StagedHandle(d, misc);
            Overrun(d.(m := h.m, g := h.g), x)
  {
    OfferedLedger(d.m);
    LoopStaged(d.m, d.g, InWholeBlocks(x.at, |d.g.wb|), d.m.ledger.cur.value.delivered, x.at,
               StageLoop(d.m, d.g, x.at));
    StagedHandleGood(d, misc);
  }

  lemma OverrunStep(d: StagedDevice, e: DeviceEvent, x: Extent)
    requires Overrun(d, x) && Quiet(e)
    ensures StagedAllowed(d, e)
    ensures Overrun(StagedStep(d, e), x)
  {
    match e
    case UsbEvent => OverrunPolled(d, x);
    case BusEvent(outs, ins) => BusGood(d.m, outs, ins);
    case CommandEvent(misc) =>
      OfferIsComplete(d.m);
      OverrunHandled(d, x, misc);
      var h := StagedHandle(d, misc);
      OverrunPolled(d.(m := h.m, g := h.g), x);
    case HaltClearedEvent(input, output) => ClearHaltGood(d.m, input, output);
  }

  lemma {:induction false} OverrunStays(d: StagedDevice, es: seq<DeviceEvent>, x: Extent)
    requires Overrun(d, x) && forall i :: 0 <= i < |es| ==> Quiet(es[i])
    ensures StagedLegal(d, es) && Overrun(StagedRun(d, es), x)
    decreases |es|
  {
    if es != [] {
      OverrunStays(d, es[..|es| - 1], x);
      OverrunStep(StagedRun(d, es[..|es| - 1]), es[|es| - 1], x);
    }
  }

  /** Such a Write never ends: in every run without a reset there is no verdict, and the block after its last one is
      programmed with the surplus once a block's worth of that has arrived. */
  lemma OverrunNeverEnds(d: StagedDevice, es: seq<DeviceEvent>, x: Extent)
    requires Overrun(d, x) && forall i :: 0 <= i < |es| ==> Quiet(es[i])
    ensures StagedLegal(d, es) && Unanswered(StagedRun(d, es), x)
  {
    OverrunStays(d, es, x);
    OverrunUnanswered(StagedRun(d, es), x);
  }

  predicate Unanswered(d: StagedDevice, x: Extent) {
    match d.m.ledger.cur
    case None => false
    case Some(c) =>
      && d.m.cs.None? && c.status.None? && |d.g.wb| > 0
      && var bs, first, len := |d.g.wb|, InWholeBlocks(x.at, |d.g.wb|), InWholeBlocks(x.size, |d.g.wb|);
         && (|d.g.programs| > len <==> |c.delivered| >= x.size + bs)
         && (|d.g.programs| > len ==> d.g.programs[len] == Block(first + len, c.delivered[x.size..x.size + bs]))
  }

  lemma OverrunUnanswered(d: StagedDevice, x: Extent)
    requires Overrun(d, x)
    ensures Unanswered(d, x)
  {
    OfferedLedger(d.m);
    NeighbourExactly(d.g, InWholeBlocks(x.at, |d.g.wb|), InWholeBlocks(x.size, |d.g.wb|),
                     d.m.ledger.cur.value.delivered);
  }

  /** It begins with a handler call that finds more bytes than the Write has left. */
  lemma OverrunBegins(d: StagedDevice, x: Extent, misc: Callback)
    requires StagedTracks(d) && TakesStatus(d.m.state) && d.m.cs.None? && d.decode(d.m.cbw) == WriteOp(x)
    requires CanHandle(Device(d.m, Shadow(d)))
    requires d.m.ledger.cur.Some? && !InTime(d.m, d.g, x, d.m.ledger.cur.value.delivered)
    ensures StagedCanHandle(d)
    ensures Overrun(PollStaged(d, misc), x)
  {
    OfferIsComplete(d.m);
    OverrunAfterCall(d, x, misc);
    var h := StagedHandle(d, misc);
    OverrunPolled(d.(m := h.m, g := h.g), x);
  }

  lemma OverrunAfterCall(d: StagedDevice, x: Extent, misc: Callback)
    requires StagedTracks(d) && TakesStatus(d.m.state) && d.m.cs.None? && d.decode(d.m.cbw) == WriteOp(x)
    requires CanHandle(Device(d.m, Shadow(d)))
    requires d.m.ledger.cur.Some? && !InTime(d.m, d.g, x, d.m.ledger.cur.value.delivered)
    ensures StagedCanHandle(d)
    ensures var h := StagedHandle(d, misc);
            h.r.Ok? && Overrun(d.(m := h.m, g := h.g), x)
  {
    PairedNow(d, x);
    RunsPastTheEnd(d.m, Shadow(d), d.g, x, InWholeBlocks(x.at, |d.g.wb|), InWholeBlocks(x.size, |d.g.wb|),
                   d.m.ledger.cur.value.delivered);
    StagedHandleGood(d, misc);
  }

  // ----- runs without a reset -----

  /** Events other than resets lead from `d` to `n`, and the current command is still the same. */
  ghost predicate StagedQuietRun(d: StagedDevice, es: seq<DeviceEvent>, n: StagedDevice)
    requires Good(d.m) && |d.g.wb| > 0
  {
    && (forall i :: 0 <= i < |es| ==> Quiet(es[i]))
    && StagedLegal(d, es) && n == StagedRun(d, es)
    && |Commands(n.m.ledger)| == |Commands(d.m.ledger)|
  }

  /** Nothing of the host's side of a command changed, nor did the commands. */
  predicate SameHost(l: Ledger, n: Ledger) {
    && n.done == l.done && n.cur.Some? == l.cur.Some?
    && (l.cur.Some? ==>
          && n.cur.value.cbw == l.cur.value.cbw && n.cur.value.received == l.cur.value.received
          && (l.cur.value.status.Some? ==> n.cur.value.status.Some?))
  }

  lemma ReadDataSameHost(m: Machine, room: nat)
    ensures SameHost(m.ledger, ReadData(m, room).m.ledger)
  {
  }

  lemma {:induction false} LoopSameHost(m: Machine, g: Stage, at: nat)
    requires |g.wb| > 0
    ensures SameHost(m.ledger, StageLoop(m, g, at).m.ledger) && StageLoop(m, g, at).m.ps == m.ps
    decreases |m.buf|
  {
    var o := StageTurn(m, g, at);
    var room := TurnReads(m, g, at);
    ReadDataSameHost(m, room);
    if o.more.Ok? && o.more.value { LoopSameHost(o.m, o.g, at); }
  }

  lemma ArmSameHost(m: Machine, g: Stage, x: Extent)
    requires TakesStatus(m.state) && |g.wb| > 0 && x.size < U32_LIMIT
    ensures SameHost(m.ledger, StagedArm(m, g, x).m.ledger) && StagedArm(m, g, x).m.ps == m.ps
  {
    ArmCases(m, g, x);
    if g.offset != x.size { LoopSameHost(m, Began(g), x.at); }
  }

  /** A handler call and the poll after it add no command. */
  lemma PollStagedSame(d: StagedDevice, misc: Callback)
    requires Good(d.m) && |d.g.wb| > 0 && Offered(d.m) && StagedCanHandle(d) && d.m.ledger.cur.Some?
    ensures var n := PollStaged(d, misc);
            && |Commands(n.m.ledger)| == |Commands(d.m.ledger)| && n.m.ledger.cur.Some?
            && n.m.ledger.cur.value.cbw == d.m.ledger.cur.value.cbw
  {
    OfferIsSafe(d.m);
    StagedHandleGood(d, misc);
    StagedHandleSame(d, misc);
    StagedHandleTakesStatus(d, misc);
    PollStays(StagedHandle(d, misc).m);
  }

  lemma StagedHandleSame(d: StagedDevice, misc: Callback)
    requires Good(d.m) && TakesStatus(d.m.state) && |d.g.wb| > 0 && StagedCanHandle(d)
    ensures var l, n := d.m.ledger, StagedHandle(d, misc).m.ledger;
            && n.done == l.done && n.cur.Some? == l.cur.Some?
            && (l.cur.Some? ==> n.cur.value.cbw == l.cur.value.cbw)
  {
    match d.decode(d.m.cbw)
    case ReadOp(x) => ReadArmSame(Device(d.m, FlashDisk(d)), x);
    case WriteOp(x) => ArmSameHost(d.m, d.g, x);
    case NoOp => MiscArmSame(Device(d.m, FlashDisk(d)), misc);
  }

  lemma StagedStepCommandsGrow(d: StagedDevice, e: DeviceEvent)
    requires Good(d.m) && |d.g.wb| > 0 && StagedAllowed(d, e) && Quiet(e)
    ensures |Commands(d.m.ledger)| <= |Commands(StagedStep(d, e).m.ledger)|
  {
    match e
    case UsbEvent => C.PollIsBounded(d.m);
    case CommandEvent(misc) =>
      if Offered(d.m) {
        OfferIsSafe(d.m);
        PollStagedSame(d, misc);
      }
    case _ =>
  }

  lemma {:induction false} StagedRunCommandsGrow(d: StagedDevice, es: seq<DeviceEvent>)
    requires Good(d.m) && |d.g.wb| > 0 && StagedLegal(d, es)
    requires forall i :: 0 <= i < |es| ==> Quiet(es[i])
    ensures |Commands(d.m.ledger)| <= |Commands(StagedRun(d, es).m.ledger)|
    decreases |es|
  {
    if es != [] {
      StagedRunCommandsGrow(d, es[..|es| - 1]);
      StagedStepCommandsGrow(StagedRun(d, es[..|es| - 1]), es[|es| - 1]);
    }
  }

  /** The last event of a quiet run taken off. */
  lemma StagedQuietInit(d: StagedDevice, es: seq<DeviceEvent>, n: StagedDevice) returns (before: StagedDevice)
    requires Good(d.m) && |d.g.wb| > 0 && StagedQuietRun(d, es, n) && es != []
    ensures Good(before.m) && |before.g.wb| > 0 && StagedQuietRun(d, es[..|es| - 1], before)
    ensures Quiet(es[|es| - 1]) && StagedAllowed(before, es[|es| - 1]) && n == StagedStep(before, es[|es| - 1])
    ensures |Commands(n.m.ledger)| == |Commands(before.m.ledger)|
  {
    before := StagedRun(d, es[..|es| - 1]);
    StagedRunCommandsGrow(d, es[..|es| - 1]);
    StagedStepCommandsGrow(before, es[|es| - 1]);
  }

  lemma StagedQuietSnoc(d: StagedDevice, es: seq<DeviceEvent>, n: StagedDevice, e: DeviceEvent)
    requires Good(d.m) && |d.g.wb| > 0 && StagedQuietRun(d, es, n)
    requires Good(n.m) && |n.g.wb| > 0 && StagedAllowed(n, e) && Quiet(e)
    requires |Commands(StagedStep(n, e).m.ledger)| == |Commands(n.m.ledger)|
    ensures StagedQuietRun(d, es + [e], StagedStep(n, e))
  {
    var more := es + [e];
    assert more[..|more| - 1] == es && more[|more| - 1] == e;
  }

  lemma StagedQuietPacket(d0: StagedDevice, es: seq<DeviceEvent>, d: StagedDevice, packet: seq<byte>)
    returns (more: seq<DeviceEvent>)
    requires Good(d0.m) && |d0.g.wb| > 0 && StagedQuietRun(d0, es, d) && Good(d.m) && |d.g.wb| > 0
    requires |Commands(Fed(d.m, packet).ledger)| == |Commands(d.m.ledger)|
    ensures StagedQuietRun(d0, more, d.(m := Fed(d.m, packet)))
  {
    var arrives := DeviceEvent.BusEvent([Packet(packet)], []);
    BusGood(d.m, [Packet(packet)], []);
    StagedQuietSnoc(d0, es, d, arrives);
    StagedQuietSnoc(d0, es + [arrives], d.(m := d.m.(outs := [Packet(packet)], ins := [])), UsbEvent);
    more := es + [arrives] + [UsbEvent];
  }

  // ----- packets for a Write -----

  /** A Write of whole blocks is current. */
  predicate WritesBlocks(d: StagedDevice, x: Extent) {
    && d.decode(d.m.cbw) == WriteOp(x) && x.size < U32_LIMIT
    && |d.g.wb| > 0 && WholeBlocks(x, |d.g.wb|)
  }

  /** `before` was taken for the Write, and `bytes` are there to be taken. */
  predicate StagedHolding(d: StagedDevice, x: Extent, before: seq<byte>, bytes: seq<byte>) {
    match d.m.state
    case DataTransferFromHost =>
      && Good(d.m) && d.m.cs.None? && d.m.buf == bytes && WritesBlocks(d, x)
      && Staged(Began(d.g), InWholeBlocks(x.at, |d.g.wb|), before)
      && d.m.ledger.cur.value.delivered == before && |before| < x.size
    case _ => false
  }

  lemma HoldingAccount(d: StagedDevice, x: Extent, before: seq<byte>, bytes: seq<byte>)
    requires StagedHolding(d, x, before, bytes)
    ensures Received(d.m) == before + bytes && StagedCanHandle(d) && Offered(d.m)
    ensures d.m.left == SatSub(d.m.cbw.len, |before + bytes|)
    ensures d.m.ledger.cur.Some? && !Over(d.m.ledger.cur.value) && d.m.ledger.cur.value.status.None?
  {
    OfferIsComplete(d.m);
  }

  lemma BeganOnce(g: Stage, lba: nat, data: seq<byte>)
    requires Staged(g, lba, data) && data != []
    ensures Began(g) == g
  {
  }

  /** A packet more. */
  lemma StagedPacketIn(d: StagedDevice, x: Extent, before: seq<byte>, bytes: seq<byte>, packet: seq<byte>)
    requires StagedHolding(d, x, before, bytes) && d.m.left > 0
    requires |packet| <= d.m.ps <= d.m.cap - |bytes|
    ensures var n := d.(m := Fed(d.m, packet));
            && StagedHolding(n, x, before, bytes + packet) && |Commands(n.m.ledger)| == |Commands(d.m.ledger)|
            && n.m.cbw == d.m.cbw && n.m.ps == d.m.ps && n.m.cap == d.m.cap && n.m.outs == []
  {
    HoldingAccount(d, x, before, bytes);
    FedGood(d.m, packet);
  }

  /** The handler call that takes what is there and does not come to the end of the blocks by it. */
  lemma StagedCall(d: StagedDevice, x: Extent, before: seq<byte>, bytes: seq<byte>)
    requires StagedHolding(d, x, before, bytes) && |before + bytes| != x.size
    ensures StagedCanHandle(d)
    ensures var h := StagedHandle(d, IDLE);
            && h.m == Drained(d.m) && h.r == Ok(()) && |h.g.wb| == |d.g.wb|
            && Staged(h.g, InWholeBlocks(x.at, |d.g.wb|), before + bytes)
  {
    HoldingAccount(d, x, before, bytes);
    var h := StageLoop(d.m, Began(d.g), x.at);
    LoopStaged(d.m, Began(d.g), InWholeBlocks(x.at, |d.g.wb|), before, x.at, h);
  }

  lemma DrainedFacts(m: Machine)
    requires Good(m) && m.state == DataTransferFromHost && m.cs.None?
    ensures Good(Drained(m)) && m.ledger.cur.Some? && Drained(m).ledger.cur.Some?
    ensures Drained(m).ledger.cur.value.delivered == m.ledger.cur.value.delivered + m.buf
    ensures |Commands(Drained(m).ledger)| == |Commands(m.ledger)|
  {
    ReadAll(m, |m.buf|);
    ReadDataGood(m, |m.buf|);
  }

  /** After that call and the poll, the device waits for more, or has run past the end. */
  lemma StagedServed(d: StagedDevice, x: Extent, before: seq<byte>, bytes: seq<byte>)
    requires StagedHolding(d, x, before, bytes) && |before + bytes| != x.size && d.m.outs == [] && bytes != []
    requires |before + bytes| < x.size ==> d.m.left > 0
    ensures StagedCanHandle(d)
    ensures var n := PollStaged(d, IDLE);
            && Good(n.m) && |n.g.wb| > 0 && |Commands(n.m.ledger)| == |Commands(d.m.ledger)|
            && (|before + bytes| < x.size ==>
                  && StagedHolding(n, x, before + bytes, []) && n.m.cbw == d.m.cbw
                  && n.m.ps == d.m.ps && n.m.cap == d.m.cap && n.m.left == d.m.left)
            && (|before + bytes| > x.size ==> Overrun(n, x))
  {
    HoldingAccount(d, x, before, bytes);
    StagedCall(d, x, before, bytes);
    DrainedFacts(d.m);
    PollStagedGood(d, IDLE);
    PollStagedSame(d, IDLE);
    var h := StagedHandle(d, IDLE);
    if |before + bytes| < x.size {
      PollAlone(h.m);
      BeganOnce(h.g, InWholeBlocks(x.at, |d.g.wb|), before + bytes);
    } else {
      OverrunPolled(d.(m := h.m, g := h.g), x);
    }
  }

  // ----- a run that overruns -----

  /** A byte arrives, is polled and is handled. */
  lemma StagedServesByte(d0: StagedDevice, es: seq<DeviceEvent>, d: StagedDevice, x: Extent, before: seq<byte>, b: byte)
    returns (more: seq<DeviceEvent>, n: StagedDevice)
    requires Good(d0.m) && |d0.g.wb| > 0 && StagedQuietRun(d0, es, d) && StagedHolding(d, x, before, [])
    requires |before| + 1 < x.size && |before| + 1 < d.m.cbw.len
    ensures StagedQuietRun(d0, more, n) && StagedHolding(n, x, before + [b], [])
    ensures n.m.cbw == d.m.cbw && n.m.ps == d.m.ps && n.m.cap == d.m.cap
  {
    var taken;
    more, taken := StagedArrives(d0, es, d, x, before, [], [b]);
    HoldingAccount(taken, x, before, [b]);
    StagedServed(taken, x, before, [b]);
    StagedQuietSnoc(d0, more, taken, CommandEvent(IDLE));
    more, n := more + [CommandEvent(IDLE)], PollStaged(taken, IDLE);
  }

  lemma StagedArrives(d0: StagedDevice, es: seq<DeviceEvent>, d: StagedDevice, x: Extent, before: seq<byte>,
                      bytes: seq<byte>, packet: seq<byte>)
    returns (more: seq<DeviceEvent>, n: StagedDevice)
    requires Good(d0.m) && |d0.g.wb| > 0 && StagedQuietRun(d0, es, d) && StagedHolding(d, x, before, bytes)
    requires |before + bytes| < d.m.cbw.len && |packet| <= d.m.ps <= d.m.cap - |bytes|
    ensures StagedQuietRun(d0, more, n) && StagedHolding(n, x, before, bytes + packet)
    ensures n.m.cbw == d.m.cbw && n.m.ps == d.m.ps && n.m.cap == d.m.cap && n.m.outs == []
  {
    HoldingAccount(d, x, before, bytes);
    StagedPacketIn(d, x, before, bytes, packet);
    more := StagedQuietPacket(d0, es, d, packet);
    n := d.(m := Fed(d.m, packet));
  }

  /** Bytes one by one, while the host owes more than that. */
  lemma {:induction false} StagedServesSingles(d0: StagedDevice, es: seq<DeviceEvent>, d: StagedDevice, x: Extent,
                                               before: seq<byte>, k: nat)
    returns (more: seq<DeviceEvent>, n: StagedDevice, after: seq<byte>)
    requires Good(d0.m) && |d0.g.wb| > 0 && StagedQuietRun(d0, es, d) && StagedHolding(d, x, before, [])
    requires |before| + k < x.size && |before| + k < d.m.cbw.len
    ensures StagedQuietRun(d0, more, n) && StagedHolding(n, x, after, []) && |after| == |before| + k
    ensures n.m.cbw == d.m.cbw && n.m.ps == d.m.ps && n.m.cap == d.m.cap
    decreases k
  {
    if k == 0 {
      more, n, after := es, d, before;
    } else {
      more, n := StagedServesByte(d0, es, d, x, before, 0);
      more, n, after := StagedServesSingles(d0, more, n, x, before + [0], k - 1);
    }
  }

  /** What is there runs past the end. */
  lemma StagedSurplus(d0: StagedDevice, es: seq<DeviceEvent>, d: StagedDevice, x: Extent, before: seq<byte>,
                      bytes: seq<byte>) returns (more: seq<DeviceEvent>, n: StagedDevice)
    requires Good(d0.m) && |d0.g.wb| > 0 && StagedQuietRun(d0, es, d) && StagedHolding(d, x, before, bytes)
    requires |before + bytes| > x.size && d.m.outs == []
    ensures StagedQuietRun(d0, more, n) && Overrun(n, x)
  {
    HoldingAccount(d, x, before, bytes);
    StagedServed(d, x, before, bytes);
    StagedQuietSnoc(d0, es, d, CommandEvent(IDLE));
    more, n := es + [CommandEvent(IDLE)], PollStaged(d, IDLE);
  }

  /** The Write `c` of `x` has just begun, and the handlers' offset is `o`. */
  predicate BegunStaged(d: StagedDevice, c: Cbw, x: Extent, o: nat) {
    && Good(d.m) && d.m.state == DataTransferFromHost && d.m.cbw == c && d.m.cs.None? && d.m.left == c.len
    && d.m.buf == [] && d.m.outs == []
    && d.m.ledger.cur.Some? && d.m.ledger.cur.value == Cmd(d.m.ledger.cur.value.raw, c, [], [], [], [], [], None)
    && WritesBlocks(d, x) && d.g.offset == o
  }

  lemma BegunHolds(d: StagedDevice, c: Cbw, x: Extent)
    requires BegunStaged(d, c, x, 0) && x.size > 0
    ensures StagedHolding(d, x, [], []) && c.len > 0 && StagedQuietRun(d, [], d)
  {
  }

  /** Byte by byte to the last byte the host owes, or to the last but one of the blocks, and then a packet that goes one
      byte past their end; or two, if packets have one byte only. */
  lemma OverrunFor(d: StagedDevice, c: Cbw, x: Extent) returns (es: seq<DeviceEvent>, n: StagedDevice)
    requires BegunStaged(d, c, x, 0) && 0 < x.size < c.len - 1 + d.m.ps
    ensures StagedQuietRun(d, es, n) && Overrun(n, x)
  {
    BegunHolds(d, c, x);
    var a := Min(c.len, x.size) - 1;
    var before;
    es, n, before := StagedServesSingles(d, [], d, x, [], a);
    if x.size + 1 - a <= d.m.ps {
      es, n := StagedArrives(d, es, n, x, before, [], Fill(x.size + 1 - a));
      es, n := StagedSurplus(d, es, n, x, before, [] + Fill(x.size + 1 - a));
    } else {
      es, n := StagedArrives(d, es, n, x, before, [], [0]);
      es, n := StagedArrives(d, es, n, x, before, [] + [0], [0]);
      es, n := StagedSurplus(d, es, n, x, before, ([] + [0]) + [0]);
    }
  }

  // ----- and no other can -----

  /** Still the same Write `c`, and the host has not overshot by a packet. */
  ghost predicate SameWrite(d: StagedDevice, n: StagedDevice, c: Cbw) {
    && n.decode == d.decode && n.m.ps == d.m.ps
    && n.m.ledger.cur.Some? && n.m.ledger.cur.value.cbw == c && C.Capped(n.m.ledger, n.m.ps)
  }

  lemma CallSameWrite(d: StagedDevice, x: Extent, misc: Callback)
    requires Good(d.m) && |d.g.wb| > 0 && Offered(d.m) && StagedCanHandle(d)
    requires d.decode(d.m.cbw) == WriteOp(x) && SameWrite(d, d, d.m.cbw)
    ensures SameWrite(d, PollStaged(d, misc), d.m.cbw)
  {
    OfferIsSafe(d.m);
    ArmSameHost(d.m, d.g, x);
    StagedHandleGood(d, misc);
    var h := StagedHandle(d, misc);
    PollStagedSame(d, misc);
    if h.r.Ok? { C.PollCapped(h.m); }
  }

  lemma SameWriteStep(d: StagedDevice, e: DeviceEvent, c: Cbw, x: Extent)
    requires Good(d.m) && |d.g.wb| > 0 && StagedAllowed(d, e) && Quiet(e)
    requires |Commands(StagedStep(d, e).m.ledger)| == |Commands(d.m.ledger)|
    requires d.decode(c) == WriteOp(x) && SameWrite(d, d, c)
    ensures SameWrite(d, StagedStep(d, e), c)
  {
    match e
    case UsbEvent =>
      C.PollCapped(d.m);
      QuietPoll(d.m);
    case CommandEvent(misc) =>
      if Offered(d.m) {
        OfferIsSafe(d.m);
        CallSameWrite(d, x, misc);
      }
    case _ =>
  }

  lemma {:induction false} SameWriteRun(d: StagedDevice, es: seq<DeviceEvent>, n: StagedDevice, c: Cbw, x: Extent)
    requires Good(d.m) && |d.g.wb| > 0 && StagedQuietRun(d, es, n) && d.decode(c) == WriteOp(x) && SameWrite(d, d, c)
    ensures SameWrite(d, n, c)
    decreases |es|
  {
    if es != [] {
      var before := StagedQuietInit(d, es, n);
      SameWriteRun(d, es[..|es| - 1], before, c, x);
      SameWriteStep(before, es[|es| - 1], c, x);
    }
  }

  /** A Write without blocks leaves the offset at 0. */
  lemma ZeroStep(d: StagedDevice, e: DeviceEvent, x: Extent)
    requires Good(d.m) && |d.g.wb| > 0 && StagedAllowed(d, e) && Quiet(e)
    requires d.m.ledger.cur.Some? && d.decode(d.m.ledger.cur.value.cbw) == WriteOp(x)
    requires x.size == 0 && d.g.offset == 0
    ensures StagedStep(d, e).g.offset == 0
  {
    if e.CommandEvent? && Offered(d.m) { OfferIsSafe(d.m); }
  }

  lemma {:induction false} ZeroRun(d: StagedDevice, es: seq<DeviceEvent>, n: StagedDevice, c: Cbw, x: Extent)
    requires Good(d.m) && |d.g.wb| > 0 && StagedQuietRun(d, es, n) && d.decode(c) == WriteOp(x) && SameWrite(d, d, c)
    requires x.size == 0 && d.g.offset == 0
    ensures n.g.offset == 0
    decreases |es|
  {
    if es != [] {
      var before := StagedQuietInit(d, es, n);
      SameWriteRun(d, es[..|es| - 1], before, c, x);
      ZeroRun(d, es[..|es| - 1], before, c, x);
      ZeroStep(before, es[|es| - 1], x);
    }
  }

  lemma OverrunTookBytes(d: StagedDevice, c: Cbw, x: Extent, es: seq<DeviceEvent>, n: StagedDevice)
    requires BegunStaged(d, c, x, 0) && StagedQuietRun(d, es, n) && Overrun(n, x)
    ensures 0 < x.size < c.len - 1 + d.m.ps
  {
    SameWriteRun(d, es, n, c, x);
    if x.size == 0 { ZeroRun(d, es, n, c, x); }
    OverrunReceived(n, x);
  }

  lemma OverrunReceived(n: StagedDevice, x: Extent)
    requires Overrun(n, x)
    ensures x.size < |Received(n.m)| && n.m.cbw.dir == Out
    ensures n.m.ledger.cur.Some? && n.m.ledger.cur.value.cbw == n.m.cbw
  {
    OfferedLedger(n.m);
  }

  /** Some run of the device takes the current Write past its end. */
  ghost predicate CanOverrun(d: StagedDevice, x: Extent)
    requires Good(d.m) && |d.g.wb| > 0
  {
    exists es: seq<DeviceEvent>, n: StagedDevice :: StagedQuietRun(d, es, n) && Overrun(n, x)
  }

  /** Some host takes a Write past its end, where it is never answered, if and only if it has blocks, and less of them
      than the transfer length and a packet less a byte. */
  lemma OverrunExactly(d: StagedDevice, c: Cbw, x: Extent)
    requires BegunStaged(d, c, x, 0)
    ensures CanOverrun(d, x) <==> 0 < x.size < c.len - 1 + d.m.ps
  {
    if 0 < x.size < c.len - 1 + d.m.ps {
      var es, n := OverrunFor(d, c, x);
    } else if CanOverrun(d, x) {
      var es: seq<DeviceEvent>, n: StagedDevice :| StagedQuietRun(d, es, n) && Overrun(n, x);
      OverrunTookBytes(d, c, x, es, n);
    }
  }

  // ----- on a new device -----

  lemma StagedSnoc(d: StagedDevice, es: seq<DeviceEvent>, e: DeviceEvent)
    requires Good(d.m) && |d.g.wb| > 0 && StagedLegal(d, es) && StagedAllowed(StagedRun(d, es), e)
    ensures StagedLegal(d, es + [e]) && StagedRun(d, es + [e]) == StagedStep(StagedRun(d, es), e)
  {
    var more := es + [e];
    assert more[..|more| - 1] == es && more[|more| - 1] == e;
  }

  /** Packets arrive and are polled. */
  lemma {:induction false} StagedFeed(d: StagedDevice, packets: seq<seq<byte>>) returns (es: seq<DeviceEvent>)
    requires Good(d.m) && |d.g.wb| > 0
    ensures StagedLegal(d, es) && StagedRun(d, es) == d.(m := Feed(d.m, packets))
    decreases |packets|
  {
    if packets == [] {
      es := [];
    } else {
      es := StagedFeed(d, Leading(packets));
      var arrives := DeviceEvent.BusEvent([Packet(packets[|packets| - 1])], []);
      StagedSnoc(d, es, arrives);
      StagedSnoc(d, es + [arrives], UsbEvent);
      es := es + [arrives] + [UsbEvent];
    }
  }

  /** A run of a new device: a wrapper, in any packets, and then bytes past the end of its Write. */
  lemma OverrunHappens(start: StagedDevice, ps: nat, cap: nat, packets: seq<seq<byte>>, c: Cbw, x: Extent)
    returns (es: seq<DeviceEvent>, d: StagedDevice, more: seq<DeviceEvent>, n: StagedDevice)
    requires NewStaged(start, ps, cap) && Arrives(ps, cap, packets, c) && c.dir == Out
    requires start.decode(c) == WriteOp(x) && x.size < U32_LIMIT && WholeBlocks(x, |start.g.wb|)
    requires 0 < x.size < c.len - 1 + ps
    ensures Good(start.m) && StagedLegal(start, es) && d == StagedRun(start, es) && BegunStaged(d, c, x, 0)
    ensures StagedQuietRun(d, more, n) && Overrun(n, x)
  {
    InitGood(ps, cap);
    es := StagedFeed(start, packets);
    d := StagedRun(start, es);
    SurplusIsDropped(Start(ps, cap), packets, c);
    more, n := OverrunFor(d, c, x);
  }
}
