/** The Bulk-Only Mass Storage Reset: it resets the transport and leaves the firmware's offset as it is. What the
    next block command then does. */
module ClassResets {
  import opened Bytes
  import opened Codec
  import opened Ledgers
  import opened Transport
  import opened Invariant
  import opened Runs
  import opened Acceptance
  import opened Dispatch
  import opened Progress
  import opened Storage
  import opened Blocks
  import opened Liveness
  import opened Hosts

  /** The device after a class reset and these packets. */
  function AfterReset(d: Device, packets: seq<seq<byte>>): (r: Device)
    requires Good(d.m)
  {
    ResetGood(d.m);
    Device(Feed(Reset(d.m), packets), ClassReset(d).disk)
  }

  /** The packets bring the wrapper `c` to a device just reset. */
  predicate Addresses(d: Device, packets: seq<seq<byte>>, c: Cbw) {
    Good(d.m) && Delivery(Reset(d.m), packets) && Carries(packets, c)
  }

  lemma AfterResetBegins(d: Device, packets: seq<seq<byte>>, c: Cbw)
    requires Addresses(d, packets, c)
    ensures var r := AfterReset(d, packets);
            && Good(r.m) && SameDevice(r.m, d.m) && r.disk == d.disk.(base := d.disk.storage)
            && JustBegun(Reset(d.m), r.m, c, Joined(packets))
  {
    ResetGood(d.m);
    SurplusIsDropped(Reset(d.m), packets, c);
  }

  // ----- an offset past the end -----

  /** The current block command has no verdict, and its handler cannot be called. */
  predicate Stuck(d: Device, op: BlockOp) {
    && TakesStatus(d.m.state) && d.m.cs.None?
    && !op.NoOp? && d.disk.decode(d.m.cbw) == op && op.x.size < d.disk.offset
  }

  lemma StuckStep(d: Device, e: DeviceEvent, op: BlockOp)
    requires Stuck(d, op) && Good(d.m) && Allowed(d, e) && Quiet(e)
    ensures Stuck(DeviceStep(d, e), op)
  {
    OfferIsComplete(d.m);
    if e.UsbEvent? { PollKeepsOpen(d.m); }
  }

  lemma {:induction false} StuckRun(d: Device, es: seq<DeviceEvent>, n: Device, op: BlockOp)
    requires Stuck(d, op) && Good(d.m) && QuietRun(d, es, n)
    ensures Stuck(n, op)
    decreases |es|
  {
    if es != [] {
      var before := QuietInit(d, es, n);
      StuckRun(d, es[..|es| - 1], before, op);
      StuckStep(before, es[|es| - 1], op);
    }
  }

  lemma StuckFacts(n: Device, op: BlockOp)
    requires Stuck(n, op) && Good(n.m)
    ensures n.m.ledger.cur.Some? && n.m.ledger.cur.value.status.None? && Offered(n.m) && !CanHandle(n)
  {
    OfferIsComplete(n.m);
    OfferIsSafe(n.m);
  }

  /** `c` is this block command, all of it asked for and inside the storage. */
  predicate WholeCommand(d: Device, packets: seq<seq<byte>>, c: Cbw, op: BlockOp) {
    && Addresses(d, packets, c)
    && !op.NoOp? && d.disk.decode(c) == op && c.len == op.x.size
    && c.dir == (if op.ReadOp? then In else Out)
    && op.x.at + op.x.size <= |d.disk.storage| < U32_LIMIT
  }

  /** With a stale offset beyond the size of the next block command no handler call is possible, so no verdict is ever
      given. */
  lemma StaleCommandIsStuck(d: Device, packets: seq<seq<byte>>, c: Cbw, op: BlockOp, es: seq<DeviceEvent>, n: Device)
    requires WholeCommand(d, packets, c, op) && d.disk.offset > op.x.size
    requires QuietRun(AfterReset(d, packets), es, n) && Good(n.m)
    ensures n.m.ledger.cur.Some? && n.m.ledger.cur.value.status.None? && Offered(n.m) && !CanHandle(n)
  {
    AfterResetBegins(d, packets, c);
    StuckRun(AfterReset(d, packets), es, n, op);
    StuckFacts(n, op);
  }

  // ----- the next Write -----

  /** `c` is a Write of `x`, all of it asked for and inside the storage. */
  predicate WholeWrite(d: Device, packets: seq<seq<byte>>, c: Cbw, x: Extent) {
    WholeCommand(d, packets, c, WriteOp(x))
  }

  lemma WriteBegins(d: Device, packets: seq<seq<byte>>, c: Cbw, x: Extent)
    requires WholeWrite(d, packets, c, x)
    ensures var r := AfterReset(d, packets);
            BegunWrite(r, c, x, d.disk.offset) && r.disk.storage == d.disk.storage && c.len == x.size > 0
  {
    AfterResetBegins(d, packets, c);
  }

  /** What became of the Write: the host's bytes lie where they belong. */
  predicate StoredRight(n: Device, s: seq<byte>, x: Extent)
    requires n.m.ledger.cur.Some?
  {
    var h := n.m.ledger.cur.value.received;
    |h| >= x.size && n.disk.storage == Overwrite(s, x.at, h[..x.size])
  }

  /** Whatever the host sends and however it goes, the handler can be called, and a verdict on the Write means
      that it was stored. */
  ghost predicate Works(d: Device, s: seq<byte>, x: Extent)
    requires Good(d.m)
  {
    forall es: seq<DeviceEvent>, n: Device :: QuietRun(d, es, n) && Good(n.m) ==>
      && (Offered(n.m) ==> CanHandle(n))
      && (n.m.ledger.cur.Some? && n.m.ledger.cur.value.status.Some? ==> StoredRight(n, s, x))
  }

  /** The Write of `x` found storage `s` and offset `o`. If it has a verdict, it passed in full when the host had
      sent all but `o` of its bytes; these lie `o` bytes too far on; and the first `o` bytes are unwritten. */
  predicate Misplaced(n: Device, s: seq<byte>, x: Extent, o: nat)
    requires o <= x.size && x.at + x.size <= |s|
  {
    match n.m.ledger.cur
    case None => false
    case Some(w) =>
      w.status.Some? ==>
        && w.status == Some((Passed, x.size)) && |w.received| >= x.size - o
        && n.disk.storage == Overwrite(s, x.at + o, w.received[..x.size - o])
        && n.disk.storage[x.at..x.at + o] == s[x.at..x.at + o]
  }

  lemma ShiftedIsMisplaced(n: Device, s: seq<byte>, x: Extent, o: nat)
    requires o <= x.size && x.at + x.size <= |s| && Shifted(n, s, x, o)
    ensures Misplaced(n, s, x, o)
  {
  }

  /** The outcome with a stale offset up to the size of the Write. */
  lemma StaleWriteIsMisplaced(d: Device, packets: seq<seq<byte>>, c: Cbw, x: Extent, es: seq<DeviceEvent>, n: Device)
    requires WholeWrite(d, packets, c, x) && d.disk.offset <= x.size
    requires QuietRun(AfterReset(d, packets), es, n)
    ensures Misplaced(n, d.disk.storage, x, d.disk.offset)
  {
    WriteBegins(d, packets, c, x);
    var r := AfterReset(d, packets);
    BegunIsShifted(r, c, x, d.disk.offset);
    ShiftedRun(r, es, n, d.disk.storage, x, d.disk.offset);
    ShiftedIsMisplaced(n, d.disk.storage, x, d.disk.offset);
  }

  /** The Write has a verdict although the host has sent only all but `o` of its bytes. */
  predicate Cheated(n: Device, x: Extent, o: nat) {
    PassedInFull(n, x) && |Received(n.m)| + o == x.size
  }

  /** With an offset left over there is a run that reports a Write the host has not even sent in full. */
  lemma StaleWriteCheats(d: Device, packets: seq<seq<byte>>, c: Cbw, x: Extent)
    returns (es: seq<DeviceEvent>, n: Device)
    requires WholeWrite(d, packets, c, x) && 0 < d.disk.offset <= x.size
    ensures QuietRun(AfterReset(d, packets), es, n) && Good(n.m)
    ensures Cheated(n, x, d.disk.offset)
  {
    WriteBegins(d, packets, c, x);
    es, n := BegunCheats(AfterReset(d, packets), c, x, d.disk.offset);
  }

  lemma BegunCheats(d: Device, c: Cbw, x: Extent, o: nat) returns (es: seq<DeviceEvent>, n: Device)
    requires BegunWrite(d, c, x, o) && c.len == x.size && 0 < o <= x.size
    ensures QuietRun(d, es, n) && Good(n.m) && Cheated(n, x, o)
  {
    if o == x.size {
      PassesAtOnce(d, c, x);
      es, n := [] + [CommandEvent(IDLE)], PollDevice(d, IDLE);
    } else {
      BegunIsHungry(d, c, x, o);
      es, n := ServesRest(d, [], d, x, o, Fill(x.size - o));
      BegunIsShifted(d, c, x, o);
      ShiftedRun(d, es, n, d.disk.storage, x, o);
    }
  }

  lemma FreshWriteWorks(d: Device, c: Cbw, x: Extent, es: seq<DeviceEvent>, n: Device)
    requires BegunWrite(d, c, x, 0) && x.at + x.size <= |d.disk.storage|
    requires QuietRun(d, es, n) && Good(n.m)
    ensures Offered(n.m) ==> CanHandle(n)
    ensures n.m.ledger.cur.Some? && n.m.ledger.cur.value.status.Some? ==> StoredRight(n, d.disk.storage, x)
  {
    BegunIsShifted(d, c, x, 0);
    ShiftedRun(d, es, n, d.disk.storage, x, 0);
    if Offered(n.m) {
      OfferIsSafe(n.m);
      ShiftedHandle(n, d.disk.storage, x, 0, IDLE);
    }
  }

  /** After a class reset the next Write, whatever the host sends and however its run goes, can be handled and is
      stored when it is reported, if and only if the reset found no offset. */
  lemma ClassResetExactly(d: Device, packets: seq<seq<byte>>, c: Cbw, x: Extent)
    requires WholeWrite(d, packets, c, x)
    ensures Works(AfterReset(d, packets), d.disk.storage, x) <==> d.disk.offset == 0
  {
    var r := AfterReset(d, packets);
    WriteBegins(d, packets, c, x);
    if d.disk.offset == 0 {
      forall es: seq<DeviceEvent>, n: Device | QuietRun(r, es, n) && Good(n.m)
        ensures Offered(n.m) ==> CanHandle(n)
        ensures n.m.ledger.cur.Some? && n.m.ledger.cur.value.status.Some? ==> StoredRight(n, d.disk.storage, x)
      {
        FreshWriteWorks(r, c, x, es, n);
      }
    } else if d.disk.offset <= x.size {
      var es, n := StaleWriteCheats(d, packets, c, x);
      assert !StoredRight(n, d.disk.storage, x);
    } else {
      assert QuietRun(r, [], r);
      StaleCommandIsStuck(d, packets, c, WriteOp(x), [], r);
    }
  }

  /** The plainest case: with the offset left at the size of the next Write, that Write is reported as passed in
      full without a byte of it being stored. */
  lemma StaleOffsetLosesWrite(d: Device, x: Extent, misc: Callback)
    requires Good(d.m) && TakesStatus(d.m.state) && d.m.cs.None?
    requires d.disk.decode(d.m.cbw) == WriteOp(x) && x.size > 0 && d.m.cbw.len == x.size
    requires x.at + x.size <= |d.disk.storage| < U32_LIMIT
    requires d.disk.offset == x.size
    ensures CanHandle(d)
    ensures var h := Handle(d, misc);
            && h.d.m.cs == Some(StatusAndResidue(Passed, 0))
            && h.d.disk.storage == d.disk.storage
            && h.d.m.ledger.cur.value.delivered == d.m.ledger.cur.value.delivered
  {
  }

  /** The whole mishap: a block command is cut off by a class reset with `x.size` bytes of it handled; the host
      then sends a Write of `x`. The next handler call reports it passed with residue 0, and nothing is stored. */
  lemma ClassResetLosesWrite(d: Device, packets: seq<seq<byte>>, c: Cbw, x: Extent, misc: Callback)
    requires WholeWrite(d, packets, c, x) && d.disk.offset == x.size
    ensures var r := AfterReset(d, packets);
            && Good(r.m) && TakesStatus(r.m.state) && CanHandle(r)
            && var h := Handle(r, misc);
               h.d.m.cs == Some(StatusAndResidue(Passed, 0)) && h.d.disk.storage == d.disk.storage
  {
    WriteBegins(d, packets, c, x);
    StaleOffsetLosesWrite(AfterReset(d, packets), x, misc);
  }

  // ----- the next Read -----

  /** The Read `c` of `x` has just begun, and the handlers' offset is `o`. */
  predicate BegunRead(d: Device, c: Cbw, x: Extent, o: nat) {
    && Good(d.m) && d.m.state == DataTransferToHost && d.m.cbw == c && d.m.cs.None? && d.m.buf == []
    && d.m.ledger.cur.Some? && d.m.ledger.cur.value == Cmd(d.m.ledger.cur.value.raw, c, [], [], [], [], [], None)
    && d.disk.decode(c) == ReadOp(x) && x.at + x.size <= |d.disk.storage| < U32_LIMIT
    && d.disk.offset == o
  }

  /** The current command is a Read of `x` that found storage `s` and offset `o`: it hands over the blocks from their
      byte `o` on, and passes in full when it comes to their end. */
  predicate Truncated(d: Device, s: seq<byte>, x: Extent, o: nat)
    requires o <= x.size && x.at + x.size <= |s|
  {
    match d.m.ledger.cur
    case None => false
    case Some(c) =>
      && d.disk.decode(c.cbw) == ReadOp(x) && d.disk.storage == s && |s| < U32_LIMIT
      && if c.status.None? then
           d.disk.offset == o + |c.accepted| <= x.size && c.accepted == s[x.at + o..x.at + d.disk.offset]
         else
           c.status == Some((Passed, x.size)) && c.accepted == s[x.at + o..x.at + x.size]
  }

  lemma TruncatedContinues(d: Device, n: Device, s: seq<byte>, x: Extent, o: nat)
    requires o <= x.size && x.at + x.size <= |s| && Truncated(d, s, x, o)
    requires n.disk == d.disk && Continues(d.m.ledger, n.m.ledger)
    ensures Truncated(n, s, x, o)
  {
  }

  /** What one call of the Read handler can do to the disk and the account. */
  lemma TruncatedRead(d: Device, n: Device, s: seq<byte>, x: Extent, o: nat)
    requires o <= x.size && x.at + x.size <= |s| && Truncated(d, s, x, o)
    requires Open(d.m.ledger) && Within(d.disk, x)
    requires ReadShape(d.disk, d.m.ledger, x, n.disk, n.m.ledger)
    ensures Truncated(n, s, x, o)
  {
    var k := d.disk;
    if k.offset < x.size && k.offset <= n.disk.offset <= x.size {
      NextStretch(s, x.at + o, x.at + k.offset, x.at + x.size, n.disk.offset - k.offset);
    }
  }

  lemma TruncatedHandle(d: Device, s: seq<byte>, x: Extent, o: nat, misc: Callback)
    requires o <= x.size && x.at + x.size <= |s| && Truncated(d, s, x, o)
    requires Good(d.m) && TakesStatus(d.m.state) && d.m.cs.None?
    ensures CanHandle(d)
    ensures Truncated(Handle(d, misc).d, s, x, o)
  {
    OfferedLedger(d.m);
    ReadArmShape(d, x);
    TruncatedRead(d, ReadArm(d, x).d, s, x, o);
  }

  lemma TruncatedPollDevice(d: Device, s: seq<byte>, x: Extent, o: nat, misc: Callback)
    requires o <= x.size && x.at + x.size <= |s| && Truncated(d, s, x, o)
    requires Good(d.m)
    ensures Offered(d.m) ==> CanHandle(d)
    ensures Truncated(PollDevice(d, misc), s, x, o)
  {
    if Offered(d.m) {
      OfferIsSafe(d.m);
      TruncatedHandle(d, s, x, o, misc);
      HandleGood(d, misc);
      var h := Handle(d, misc);
      if h.r.Ok? {
        HandleTakesStatus(d, misc);
        PollStays(h.d.m);
        TruncatedContinues(h.d, Device(Poll(h.d.m).m, h.d.disk), s, x, o);
      }
    }
  }

  lemma TruncatedStep(d: Device, e: DeviceEvent, s: seq<byte>, x: Extent, o: nat)
    requires o <= x.size && x.at + x.size <= |s| && Truncated(d, s, x, o)
    requires Good(d.m) && Allowed(d, e) && Quiet(e)
    requires |Commands(DeviceStep(d, e).m.ledger)| == |Commands(d.m.ledger)|
    ensures Truncated(DeviceStep(d, e), s, x, o)
  {
    match e
    case UsbEvent =>
      QuietPoll(d.m);
      TruncatedContinues(d, DeviceStep(d, e), s, x, o);
    case CommandEvent(misc) => TruncatedPollDevice(d, s, x, o, misc);
    case _ =>
  }

  lemma {:induction false} TruncatedRun(d: Device, es: seq<DeviceEvent>, n: Device, s: seq<byte>, x: Extent, o: nat)
    requires o <= x.size && x.at + x.size <= |s| && Truncated(d, s, x, o)
    requires Good(d.m) && QuietRun(d, es, n)
    ensures Truncated(n, s, x, o)
    decreases |es|
  {
    if es != [] {
      var before := QuietInit(d, es, n);
      TruncatedRun(d, es[..|es| - 1], before, s, x, o);
      TruncatedStep(before, es[|es| - 1], s, x, o);
    }
  }

  /** `c` is a Read of `x`, all of it asked for and inside the storage. */
  predicate WholeRead(d: Device, packets: seq<seq<byte>>, c: Cbw, x: Extent) {
    WholeCommand(d, packets, c, ReadOp(x))
  }

  lemma ReadBegins(d: Device, packets: seq<seq<byte>>, c: Cbw, x: Extent)
    requires WholeRead(d, packets, c, x)
    ensures var r := AfterReset(d, packets);
            BegunRead(r, c, x, d.disk.offset) && r.disk.storage == d.disk.storage && c.len == x.size > 0 && c.dir == In
  {
    AfterResetBegins(d, packets, c);
  }

  lemma BegunIsTruncated(d: Device, c: Cbw, x: Extent, o: nat)
    requires BegunRead(d, c, x, o) && o <= x.size
    ensures Truncated(d, d.disk.storage, x, o)
  {
  }

  /** The Read of `x` found storage `s` and offset `o`. If it has a verdict, it passed in full with all but the first
      `o` bytes handed over; and if it is over, these bytes, `o` bytes of padding and a status wrapper that says passed
      with nothing left over are what the host got. */
  predicate CutOff(n: Device, s: seq<byte>, x: Extent, o: nat)
    requires o <= x.size && x.at + x.size <= |s|
  {
    match n.m.ledger.cur
    case None => false
    case Some(r) =>
      && (r.status.Some? ==> r.status == Some((Passed, x.size)) && r.accepted == s[x.at + o..x.at + x.size])
      && (Over(r) ==> r.sent == s[x.at + o..x.at + x.size] + Fill(o) + EncodeCsw(Csw(r.cbw.tag, 0, Passed)))
  }

  lemma TruncatedIsCutOff(n: Device, s: seq<byte>, x: Extent, o: nat)
    requires o <= x.size && x.at + x.size <= |s| && Truncated(n, s, x, o) && Good(n.m)
    requires n.m.ledger.cur.value.cbw.dir == In && n.m.ledger.cur.value.cbw.len == x.size
    ensures CutOff(n, s, x, o)
  {
    var r := n.m.ledger.cur.value;
    if Over(r) {
      OverIsComplete(n.m);
      assert SatSub(r.cbw.len, |r.accepted|) == o && Residue(r.cbw, x.size) == 0;
    }
  }

  /** The outcome with a stale offset up to the size of the Read. */
  lemma StaleReadIsCutOff(d: Device, packets: seq<seq<byte>>, c: Cbw, x: Extent, es: seq<DeviceEvent>, n: Device)
    requires WholeRead(d, packets, c, x) && d.disk.offset <= x.size
    requires QuietRun(AfterReset(d, packets), es, n) && Good(n.m)
    ensures CutOff(n, d.disk.storage, x, d.disk.offset)
  {
    ReadBegins(d, packets, c, x);
    var r := AfterReset(d, packets);
    BegunIsTruncated(r, c, x, d.disk.offset);
    TruncatedRun(r, es, n, d.disk.storage, x, d.disk.offset);
    SameWrapper(r, es, n);
    TruncatedIsCutOff(n, d.disk.storage, x, d.disk.offset);
  }

  // ----- a run in which such a Read passes -----

  /** A Read that found offset `o`, under way. */
  predicate Reading(d: Device, x: Extent, o: nat) {
    match d.m.state
    case DataTransferToHost =>
      && Good(d.m) && d.m.cs.None?
      && d.disk.decode(d.m.cbw) == ReadOp(x) && d.m.cbw.len == x.size
      && x.at + x.size <= |d.disk.storage| < U32_LIMIT
      && d.disk.offset == o + |d.m.ledger.cur.value.accepted| <= x.size
    case _ => false
  }

  /** What is left to do. */
  function LeftToDo(d: Device, x: Extent): (n: int) {
    x.size - d.disk.offset + d.m.left
  }

  /** The bus is ready for one packet to the host. */
  function Listening(d: Device): (r: Device) {
    Device(d.m.(outs := [], ins := [Takes(d.m.ps)]), d.disk)
  }

  lemma ListeningReads(d: Device, x: Extent, o: nat)
    requires Reading(d, x, o)
    ensures Reading(Listening(d), x, o) && CanHandle(Listening(d)) && Offered(Listening(d).m)
  {
    BusGood(d.m, [], [Takes(d.m.ps)]);
    OfferIsComplete(Listening(d).m);
  }

  /** The handler call: a verdict, or it makes the poll after it count. */
  lemma ReadingHandled(d: Device, x: Extent, o: nat)
    requires Reading(d, x, o) && CanHandle(d) && o > 0
    ensures var h := Handle(d, IDLE);
            && h.r == Ok(()) && h.d.m.ins == d.m.ins && h.d.m.ps == d.m.ps
            && (h.d.m.cs.None? ==>
                  && Reading(h.d, x, o) && h.d.m.left == d.m.left && h.d.m.left > 0
                  && h.d.disk.offset >= d.disk.offset
                  && (h.d.disk.offset == d.disk.offset ==> |h.d.m.buf| >= d.m.ps))
            && (h.d.m.cs.Some? ==> TakesStatus(h.d.m.state) && h.d.m.ledger.cur.Some?
                                   && h.d.m.ledger.cur.value.status.Some?)
  {
    HandleGood(d, IDLE);
    if d.disk.offset != x.size {
      ReadMoves(d.m, d.disk.storage[x.at + d.disk.offset..x.at + x.size]);
    }
  }

  lemma ReadingPolled(d: Device, x: Extent, o: nat)
    requires Reading(d, x, o) && d.m.left > 0
    ensures var n := Device(Poll(d.m).m, d.disk);
            Reading(n, x, o) && n.m.left <= d.m.left
    ensures |d.m.buf| >= d.m.ps && d.m.ins == [Takes(d.m.ps)] ==> Poll(d.m).m.left < d.m.left
  {
    PollGood(d.m);
    PollKeepsOpen(d.m);
    if |d.m.buf| >= d.m.ps && d.m.ins == [Takes(d.m.ps)] { PollSends(d.m); }
  }

  /** One round: a verdict, or less to do. */
  lemma ReadingRound(d: Device, x: Extent, o: nat)
    requires Reading(d, x, o) && CanHandle(d) && Offered(d.m) && o > 0 && d.m.ins == [Takes(d.m.ps)]
    ensures var n := PollDevice(d, IDLE);
            && Good(n.m) && |Commands(n.m.ledger)| == |Commands(d.m.ledger)|
            && (HasVerdict(n) || (Reading(n, x, o) && LeftToDo(n, x) < LeftToDo(d, x)))
  {
    PollDeviceGood(d, IDLE);
    ReadingHandled(d, x, o);
    HandleGood(d, IDLE);
    HandleSame(d, IDLE);
    var h := Handle(d, IDLE).d;
    HandleTakesStatus(d, IDLE);
    PollStays(h.m);
    if h.m.cs.None? { ReadingPolled(h, x, o); }
  }

  predicate HasVerdict(n: Device) {
    n.m.ledger.cur.Some? && n.m.ledger.cur.value.status.Some?
  }

  lemma {:induction false} ReadingEnds(d0: Device, es: seq<DeviceEvent>, d: Device, x: Extent, o: nat)
    returns (more: seq<DeviceEvent>, n: Device)
    requires Good(d0.m) && QuietRun(d0, es, d) && Reading(d, x, o) && o > 0
    ensures QuietRun(d0, more, n) && Good(n.m) && HasVerdict(n)
    decreases LeftToDo(d, x)
  {
    ListeningReads(d, x, o);
    var ready := DeviceEvent.BusEvent([], [Takes(d.m.ps)]);
    QuietSnoc(d0, es, d, ready);
    ReadingRound(Listening(d), x, o);
    QuietSnoc(d0, es + [ready], Listening(d), CommandEvent(IDLE));
    more, n := es + [ready] + [CommandEvent(IDLE)], PollDevice(Listening(d), IDLE);
    if !HasVerdict(n) { more, n := ReadingEnds(d0, more, n, x, o); }
  }

  /** Whatever happens, the handler can be called, and a verdict on the Read means that its blocks were handed over. */
  ghost predicate ReadWorks(d: Device, s: seq<byte>, x: Extent)
    requires Good(d.m) && x.at + x.size <= |s|
  {
    forall es: seq<DeviceEvent>, n: Device :: QuietRun(d, es, n) && Good(n.m) ==>
      && (Offered(n.m) ==> CanHandle(n))
      && (HasVerdict(n) ==> n.m.ledger.cur.value.accepted == s[x.at..x.at + x.size])
  }

  lemma FreshReadWorks(d: Device, c: Cbw, x: Extent, es: seq<DeviceEvent>, n: Device)
    requires BegunRead(d, c, x, 0) && QuietRun(d, es, n) && Good(n.m)
    ensures Offered(n.m) ==> CanHandle(n)
    ensures HasVerdict(n) ==> n.m.ledger.cur.value.accepted == d.disk.storage[x.at..x.at + x.size]
  {
    BegunIsTruncated(d, c, x, 0);
    TruncatedRun(d, es, n, d.disk.storage, x, 0);
    if Offered(n.m) {
      OfferIsSafe(n.m);
      TruncatedHandle(n, d.disk.storage, x, 0, IDLE);
    }
  }

  lemma StaleReadFails(d: Device, c: Cbw, x: Extent, o: nat)
    requires BegunRead(d, c, x, o) && c.len == x.size && 0 < o <= x.size
    ensures !ReadWorks(d, d.disk.storage, x)
  {
    assert QuietRun(d, [], d);
    var es, n := ReadingEnds(d, [], d, x, o);
    BegunIsTruncated(d, c, x, o);
    TruncatedRun(d, es, n, d.disk.storage, x, o);
    assert |n.m.ledger.cur.value.accepted| == x.size - o;
  }

  /** After a class reset the next Read can be handled and hands over its blocks when it is reported, in all its runs,
      if and only if the reset found no offset. */
  lemma ClassResetReadExactly(d: Device, packets: seq<seq<byte>>, c: Cbw, x: Extent)
    requires WholeRead(d, packets, c, x)
    ensures ReadWorks(AfterReset(d, packets), d.disk.storage, x) <==> d.disk.offset == 0
  {
    var r := AfterReset(d, packets);
    ReadBegins(d, packets, c, x);
    if d.disk.offset == 0 {
      forall es: seq<DeviceEvent>, n: Device | QuietRun(r, es, n) && Good(n.m)
        ensures Offered(n.m) ==> CanHandle(n)
        ensures HasVerdict(n) ==> n.m.ledger.cur.value.accepted == d.disk.storage[x.at..x.at + x.size]
      {
        FreshReadWorks(r, c, x, es, n);
      }
    } else if d.disk.offset <= x.size {
      StaleReadFails(r, c, x, d.disk.offset);
    } else {
      assert QuietRun(r, [], r);
      StaleCommandIsStuck(d, packets, c, ReadOp(x), [], r);
    }
  }

  // ----- offsets are left over -----

  /** A Read of more bytes than the host asked for: its handler stops at what it asked for. */
  lemma ShortRead(d: Device, x: Extent)
    requires Good(d.m) && d.m.state == DataTransferToHost && d.m.cs.None? && d.m.buf == []
    requires d.disk.decode(d.m.cbw) == ReadOp(x) && d.disk.offset == 0
    requires x.at + x.size <= |d.disk.storage| < U32_LIMIT
    requires 0 < d.m.left < x.size && d.m.left <= d.m.cap
    ensures Offered(d.m) && CanHandle(d)
    ensures PollDevice(d, IDLE).disk == d.disk.(offset := d.m.left)
  {
    OfferIsComplete(d.m);
    assert 0 % U32_LIMIT == 0;
  }

  /** Offsets of every size up to the buffer's are left over in runs: for a host that asks for fewer bytes than
      its Read has. */
  lemma OffsetIsLeftOver(ps: nat, cap: nat, storage: seq<byte>, decode: Cbw -> BlockOp, packets: seq<seq<byte>>, c: Cbw,
                         x: Extent) returns (d: Device)
    requires Arrives(ps, cap, packets, c) && |storage| < U32_LIMIT
    requires c.dir == In && c.len <= cap
    requires decode(c) == ReadOp(x) && c.len < x.size && x.at + x.size <= |storage|
    ensures DeviceReachable(d) && d.disk.offset == c.len > 0
  {
    AddressedReachable(ps, cap, storage, decode, packets, c);
    CarriedIsValid(packets, c);
    var taken := Addressed(ps, cap, storage, decode, packets);
    ShortRead(taken, x);
    d := PollDevice(taken, IDLE);
    DeviceReachableStep(taken, CommandEvent(IDLE), d);
  }
}
