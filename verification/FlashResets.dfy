/** The device with storage in flash after a reset of its transport alone: what the next Write does. */
module FlashResets {
  import opened Bytes
  import opened Codec
  import opened Ledgers
  import opened Transport
  import opened Invariant
  import opened Acceptance
  import opened Dispatch
  import opened Progress
  import opened Storage
  import opened Blocks
  import opened Liveness
  import opened Hosts
  import opened Staging
  import opened StagedRuns
  import opened Overruns

  /** The device after a class reset and these packets. */
  function AfterFlashReset(d: StagedDevice, packets: seq<seq<byte>>): (r: StagedDevice)
    requires Good(d.m)
  {
    ResetGood(d.m);
    d.(m := Feed(Reset(d.m), packets), base := d.g.flash)
  }

  /** The packets bring a Write of `x`, all of it asked for, in whole blocks and inside the flash. */
  predicate WholeFlashWrite(d: StagedDevice, packets: seq<seq<byte>>, c: Cbw, x: Extent) {
    && Good(d.m) && Delivery(Reset(d.m), packets) && Carries(packets, c)
    && c.dir == Out && c.len == x.size && d.decode(c) == WriteOp(x)
    && |d.g.wb| > 0 && WholeBlocks(x, |d.g.wb|) && x.at + x.size <= |d.g.flash| < U32_LIMIT
  }

  lemma FlashWriteBegins(d: StagedDevice, packets: seq<seq<byte>>, c: Cbw, x: Extent)
    requires WholeFlashWrite(d, packets, c, x)
    ensures var r := AfterFlashReset(d, packets);
            BegunStaged(r, c, x, d.g.offset) && r.g == d.g && r.decode == d.decode && c.len == x.size > 0
  {
    ResetGood(d.m);
    SurplusIsDropped(Reset(d.m), packets, c);
  }

  /** The Write has a verdict. */
  predicate Reported(n: StagedDevice) {
    n.m.ledger.cur.Some? && n.m.ledger.cur.value.status.Some?
  }

  /** Whatever a host sends that keeps to the blocks of its Write: when that is reported it is in the flash, and until
      then it is not past its end. */
  ghost predicate FlashWorks(d: StagedDevice, s: seq<byte>, x: Extent)
    requires Good(d.m) && |d.g.wb| > 0
  {
    forall es: seq<DeviceEvent>, n: StagedDevice :: StagedQuietRun(d, es, n) && |Received(n.m)| <= x.size ==>
      if Reported(n) then |Received(n.m)| == x.size && n.g.flash == Overwrite(s, x.at, Received(n.m))
      else n.g.offset <= x.size
  }

  // ----- with no offset left over -----

  /** The Write of `x` found flash `s` and no offset. */
  ghost predicate Goes(n: StagedDevice, s: seq<byte>, x: Extent) {
    match n.m.ledger.cur
    case None => false
    case Some(w) =>
      && n.decode(w.cbw) == WriteOp(x) && |n.g.wb| > 0 && WholeBlocks(x, |n.g.wb|) && x.at + x.size <= |s| < U32_LIMIT
      && if w.status.None? then
           && Staged(Began(n.g), InWholeBlocks(x.at, |n.g.wb|), w.delivered) && Began(n.g).origin == s
           && |w.delivered| <= x.size
         else
           |w.received| >= x.size && n.g.flash == Overwrite(s, x.at, w.received[..x.size])
  }

  lemma GoesOnPoll(n: StagedDevice, m: Machine, s: seq<byte>, x: Extent)
    requires Goes(n, s, x) && Continues(n.m.ledger, m.ledger)
    ensures Goes(n.(m := m), s, x)
  {
    var w, w' := n.m.ledger.cur.value, m.ledger.cur.value;
    if w.status.Some? { assert w'.received[..x.size] == w.received[..x.size]; }
  }

  /** All the bytes of the blocks were taken and the verdict is given. */
  lemma GoesToEnd(d: StagedDevice, m: Machine, g: Stage, s: seq<byte>, x: Extent, data: seq<byte>)
    requires m.ledger.cur.Some? && d.decode(m.ledger.cur.value.cbw) == WriteOp(x)
    requires |g.wb| > 0 && WholeBlocks(x, |g.wb|) && x.at + x.size <= |s| < U32_LIMIT
    requires Staged(g, InWholeBlocks(x.at, |g.wb|), data) && g.origin == s && |data| == x.size
    requires m.ledger.cur.value.received == data && TakesStatus(m.state)
    ensures var h := StagedPass(m, g);
            Goes(d.(m := h.m, g := h.g), s, x)
  {
    AllProgrammed(g, InWholeBlocks(x.at, |g.wb|), InWholeBlocks(x.size, |g.wb|), data);
    assert data[..x.size] == data;
  }

  lemma BeganAgain(g: Stage, lba: nat, data: seq<byte>)
    requires Staged(g, lba, data)
    ensures Staged(Began(g), lba, data) && Began(g).origin == (if data == [] then g.flash else g.origin)
  {
  }

  lemma NothingBurnt(g: Stage, lba: nat)
    requires Staged(g, lba, [])
    ensures g.flash == g.origin
  {
    FlatLen(g.programs, lba, |g.wb|);
  }

  lemma GoesCalled(d: StagedDevice, s: seq<byte>, x: Extent, misc: Callback)
    requires Goes(d, s, x) && Good(d.m) && TakesStatus(d.m.state) && d.m.cs.None? && |Received(d.m)| <= x.size
    ensures StagedCanHandle(d)
    ensures var h := StagedHandle(d, misc);
            Goes(d.(m := h.m, g := h.g), s, x)
  {
    OfferedLedger(d.m);
    var w, lba := d.m.ledger.cur.value, InWholeBlocks(x.at, |d.g.wb|);
    ArmCases(d.m, d.g, x);
    if d.g.offset == x.size {
      assert w.received == w.delivered;
      GoesToEnd(d, d.m, Began(d.g), s, x, w.delivered);
    } else {
      var h := StageLoop(d.m, Began(d.g), x.at);
      LoopStaged(d.m, Began(d.g), lba, w.delivered, x.at, h);
      GoesLoop(d, s, x, h);
    }
  }

  lemma GoesLoop(d: StagedDevice, s: seq<byte>, x: Extent, h: StagedHandled)
    requires Goes(d, s, x) && Good(d.m) && TakesStatus(d.m.state) && d.m.cs.None? && |Received(d.m)| <= x.size
    requires d.m.ledger.cur.value.cbw == d.m.cbw && d.m.ledger.cur.value.status.None?
    requires var w, lba := d.m.ledger.cur.value, InWholeBlocks(x.at, |d.g.wb|);
             if Readable(d.m.state) then
               && h.m == Drained(d.m) && h.r == Ok(()) && Staged(h.g, lba, w.delivered + d.m.buf)
               && h.g.origin == s && |h.g.wb| == |d.g.wb|
             else h == StagedHandled(d.m, Began(d.g), Err(Error(InvalidState)))
    ensures var e := if h.r.Ok? && h.g.offset == x.size && TakesStatus(h.m.state) then StagedPass(h.m, h.g) else h;
            Goes(d.(m := e.m, g := e.g), s, x)
  {
    var w, lba := d.m.ledger.cur.value, InWholeBlocks(x.at, |d.g.wb|);
    if Readable(d.m.state) {
      DrainedLedger(d.m);
      if h.g.offset == x.size {
        GoesToEnd(d, h.m, h.g, s, x, w.delivered + d.m.buf);
      } else {
        BeganAgain(h.g, lba, w.delivered + d.m.buf);
        if w.delivered + d.m.buf == [] { NothingBurnt(h.g, lba); }
      }
    } else {
      BeganAgain(Began(d.g), lba, w.delivered);
    }
  }

  lemma DrainedLedger(m: Machine)
    requires Good(m) && Readable(m.state)
    ensures m.ledger.cur.Some? && Drained(m).ledger.cur.Some?
    ensures var w, w' := m.ledger.cur.value, Drained(m).ledger.cur.value;
            && w'.delivered == w.delivered + m.buf == w.received && w'.received == w.received
            && w'.status == w.status && w'.cbw == w.cbw
  {
  }

  lemma GoesStep(d: StagedDevice, e: DeviceEvent, s: seq<byte>, x: Extent)
    requires Goes(d, s, x) && Good(d.m) && StagedAllowed(d, e) && Quiet(e) && |Received(d.m)| <= x.size
    requires |Commands(StagedStep(d, e).m.ledger)| == |Commands(d.m.ledger)|
    ensures Goes(StagedStep(d, e), s, x)
  {
    match e
    case UsbEvent =>
      QuietPoll(d.m);
      GoesOnPoll(d, Poll(d.m).m, s, x);
    case CommandEvent(misc) =>
      if Offered(d.m) {
        OfferIsSafe(d.m);
        GoesCalled(d, s, x, misc);
        GoesPolled(d, s, x, misc);
      }
    case _ =>
  }

  lemma GoesPolled(d: StagedDevice, s: seq<byte>, x: Extent, misc: Callback)
    requires Good(d.m) && |d.g.wb| > 0 && Offered(d.m) && TakesStatus(d.m.state) && StagedCanHandle(d)
    requires var h := StagedHandle(d, misc);
             Goes(d.(m := h.m, g := h.g), s, x)
    ensures Goes(PollStaged(d, misc), s, x)
  {
    var h := StagedHandle(d, misc);
    StagedHandleGood(d, misc);
    StagedHandleTakesStatus(d, misc);
    PollStays(h.m);
    GoesOnPoll(d.(m := h.m, g := h.g), Poll(h.m).m, s, x);
  }

  /** What was received stays received. */
  lemma ReceivedGrows(d: StagedDevice, e: DeviceEvent, x: Extent)
    requires Good(d.m) && |d.g.wb| > 0 && StagedAllowed(d, e) && Quiet(e)
    requires d.m.ledger.cur.Some? && d.decode(d.m.ledger.cur.value.cbw) == WriteOp(x)
    requires |Commands(StagedStep(d, e).m.ledger)| == |Commands(d.m.ledger)|
    ensures |Received(d.m)| <= |Received(StagedStep(d, e).m)|
  {
    match e
    case UsbEvent => QuietPoll(d.m);
    case CommandEvent(misc) =>
      if Offered(d.m) {
        OfferIsSafe(d.m);
        ArmSameHost(d.m, d.g, x);
        StagedHandleGood(d, misc);
        StagedHandleTakesStatus(d, misc);
        PollStays(StagedHandle(d, misc).m);
      }
    case _ =>
  }

  lemma {:induction false} GoesRun(d: StagedDevice, es: seq<DeviceEvent>, n: StagedDevice, s: seq<byte>, c: Cbw,
                                   x: Extent)
    requires Goes(d, s, x) && Good(d.m) && StagedQuietRun(d, es, n) && |Received(n.m)| <= x.size
    requires d.decode(c) == WriteOp(x) && SameWrite(d, d, c)
    ensures Goes(n, s, x)
    decreases |es|
  {
    if es != [] {
      var before := StagedQuietInit(d, es, n);
      SameWriteRun(d, es[..|es| - 1], before, c, x);
      ReceivedGrows(before, es[|es| - 1], x);
      GoesRun(d, es[..|es| - 1], before, s, c, x);
      GoesStep(before, es[|es| - 1], s, x);
    }
  }

  lemma FreshFlashWriteWorks(d: StagedDevice, c: Cbw, x: Extent, es: seq<DeviceEvent>, n: StagedDevice)
    requires BegunStaged(d, c, x, 0) && x.at + x.size <= |d.g.flash| < U32_LIMIT
    requires StagedQuietRun(d, es, n) && |Received(n.m)| <= x.size
    ensures if Reported(n) then |Received(n.m)| == x.size && n.g.flash == Overwrite(d.g.flash, x.at, Received(n.m))
            else n.g.offset <= x.size
  {
    GoesRun(d, es, n, d.g.flash, c, x);
    if Reported(n) { assert Received(n.m)[..x.size] == Received(n.m); }
  }

  // ----- with an offset up to the size of the Write -----

  lemma LoopTakesNone(m: Machine, g: Stage, at: nat)
    requires |g.wb| > 0 && Readable(m.state) && m.buf == []
    ensures var h := StageLoop(m, g, at);
            h.m == m && h.r == Ok(()) && h.g.offset == g.offset
  {
    NotedTwice(m.ledger, [], []);
    assert Overwrite(g.wb, (at + g.offset) % |g.wb|, []) == g.wb;
  }

  /** A single byte is taken, wherever it goes. */
  lemma LoopTakesOne(m: Machine, g: Stage, at: nat)
    requires |g.wb| > 0 && Readable(m.state) && |m.buf| == 1
    ensures var h := StageLoop(m, g, at);
            h.m == Drained(m) && h.r == Ok(()) && h.g.offset == g.offset + 1
  {
    var o := StageTurn(m, g, at);
    TurnTakesOne(m, g, at);
    if o.more.value { LoopTakesNone(o.m, o.g, at); }
  }

  lemma TurnTakesOne(m: Machine, g: Stage, at: nat)
    requires |g.wb| > 0 && Readable(m.state) && |m.buf| == 1
    ensures var o := StageTurn(m, g, at);
            o.m == Drained(m) && o.more.Ok? && o.g.offset == g.offset + 1
  {
    assert m.buf[..1] == m.buf && m.buf[1..] == [];
  }

  /** The device waits for the next byte of a Write that found offset `o`. */
  predicate StaleHungry(d: StagedDevice, x: Extent, o: nat) {
    match d.m.state
    case DataTransferFromHost =>
      && Expecting(d.m) && WritesBlocks(d, x) && d.m.cbw.len == x.size
      && 0 < o <= d.g.offset == o + |Received(d.m)| < x.size
    case _ => false
  }

  predicate StaleHolding(d: StagedDevice, x: Extent, o: nat) {
    match d.m.state
    case DataTransferFromHost =>
      && Good(d.m) && d.m.cs.None? && |d.m.buf| == 1 && d.m.outs == [] && WritesBlocks(d, x)
      && d.m.cbw.len == x.size && d.m.left > 0
      && 0 < o <= d.g.offset && d.g.offset + 1 == o + |Received(d.m)| <= x.size
    case _ => false
  }

  lemma StaleByteIn(d: StagedDevice, x: Extent, o: nat, b: byte)
    requires StaleHungry(d, x, o)
    ensures var n := d.(m := Fed(d.m, [b]));
            StaleHolding(n, x, o) && |Commands(n.m.ledger)| == |Commands(d.m.ledger)|
  {
    PacketIn(d.m, [b]);
    ReceivingLeft(d.m);
  }

  lemma ReceivingLeft(m: Machine)
    requires Expecting(m)
    ensures m.left == SatSub(m.cbw.len, |Received(m)|)
  {
  }

  lemma StaleCall(d: StagedDevice, x: Extent, o: nat)
    requires StaleHolding(d, x, o)
    ensures StagedCanHandle(d)
    ensures var h := StagedHandle(d, IDLE);
            && h.r == Ok(()) && |h.g.wb| == |d.g.wb|
            && if d.g.offset + 1 < x.size then h.m == Drained(d.m) && h.g.offset == d.g.offset + 1
               else h.m == SetStatus(Drained(d.m), Passed, x.size)
  {
    ArmCases(d.m, d.g, x);
    LoopTakesOne(d.m, d.g, x.at);
  }

  lemma StaleServed(d: StagedDevice, x: Extent, o: nat)
    requires StaleHolding(d, x, o)
    ensures StagedCanHandle(d) && Offered(d.m)
    ensures var n := PollStaged(d, IDLE);
            && Good(n.m) && |n.g.wb| > 0 && |Commands(n.m.ledger)| == |Commands(d.m.ledger)|
            && if d.g.offset + 1 < x.size then StaleHungry(n, x, o) && n.g.offset == d.g.offset + 1
               else Reported(n) && |Received(n.m)| + o == x.size
  {
    OfferIsComplete(d.m);
    OfferedLedger(d.m);
    StaleCall(d, x, o);
    DrainedFacts(d.m);
    PollStagedGood(d, IDLE);
    PollStagedSame(d, IDLE);
    StagedHandleGood(d, IDLE);
    PollAlone(StagedHandle(d, IDLE).m);
  }

  /** A byte arrives, is polled and is handled. */
  lemma StaleServesByte(d0: StagedDevice, es: seq<DeviceEvent>, d: StagedDevice, x: Extent, o: nat)
    returns (more: seq<DeviceEvent>, n: StagedDevice)
    requires Good(d0.m) && |d0.g.wb| > 0 && StagedQuietRun(d0, es, d) && StaleHungry(d, x, o)
    ensures StagedQuietRun(d0, more, n)
    ensures if d.g.offset + 1 < x.size then StaleHungry(n, x, o) && n.g.offset == d.g.offset + 1
            else Reported(n) && |Received(n.m)| + o == x.size
  {
    StaleByteIn(d, x, o, 0);
    more := StagedQuietPacket(d0, es, d, [0]);
    var taken := d.(m := Fed(d.m, [0]));
    StaleServed(taken, x, o);
    StagedQuietSnoc(d0, more, taken, CommandEvent(IDLE));
    more, n := more + [CommandEvent(IDLE)], PollStaged(taken, IDLE);
  }

  lemma {:induction false} StaleServes(d0: StagedDevice, es: seq<DeviceEvent>, d: StagedDevice, x: Extent, o: nat)
    returns (more: seq<DeviceEvent>, n: StagedDevice)
    requires Good(d0.m) && |d0.g.wb| > 0 && StagedQuietRun(d0, es, d) && StaleHungry(d, x, o)
    ensures StagedQuietRun(d0, more, n) && Reported(n) && |Received(n.m)| + o == x.size
    decreases x.size - d.g.offset
  {
    more, n := StaleServesByte(d0, es, d, x, o);
    if d.g.offset + 1 < x.size { more, n := StaleServes(d0, more, n, x, o); }
  }

  /** The Write needs no more bytes. */
  lemma StalePassesAtOnce(d: StagedDevice, c: Cbw, x: Extent)
    requires BegunStaged(d, c, x, x.size)
    ensures StagedCanHandle(d)
    ensures var n := PollStaged(d, IDLE);
            StagedQuietRun(d, [] + [CommandEvent(IDLE)], n) && Reported(n) && Received(n.m) == []
  {
    OfferIsComplete(d.m);
    assert StagedQuietRun(d, [], d);
    PollStagedGood(d, IDLE);
    PollStagedSame(d, IDLE);
    StagedHandleGood(d, IDLE);
    PollAlone(StagedHandle(d, IDLE).m);
    StagedQuietSnoc(d, [], d, CommandEvent(IDLE));
  }

  /** There is a run that reports the Write before the host has sent it all. */
  lemma StaleFlashWriteCheats(d: StagedDevice, c: Cbw, x: Extent, o: nat)
    returns (es: seq<DeviceEvent>, n: StagedDevice)
    requires BegunStaged(d, c, x, o) && 0 < o <= x.size == c.len
    ensures StagedQuietRun(d, es, n) && Reported(n) && |Received(n.m)| + o == x.size
  {
    if o == x.size {
      StalePassesAtOnce(d, c, x);
      es, n := [] + [CommandEvent(IDLE)], PollStaged(d, IDLE);
    } else {
      assert StagedQuietRun(d, [], d);
      es, n := StaleServes(d, [], d, x, o);
    }
  }

  /** After a class reset the next Write works for every host that keeps to its blocks if and only if the reset found no
      offset. */
  lemma FlashResetExactly(d: StagedDevice, packets: seq<seq<byte>>, c: Cbw, x: Extent)
    requires WholeFlashWrite(d, packets, c, x)
    ensures FlashWorks(AfterFlashReset(d, packets), d.g.flash, x) <==> d.g.offset == 0
  {
    var r := AfterFlashReset(d, packets);
    FlashWriteBegins(d, packets, c, x);
    if d.g.offset == 0 {
      forall es: seq<DeviceEvent>, n: StagedDevice | StagedQuietRun(r, es, n) && |Received(n.m)| <= x.size
        ensures if Reported(n) then |Received(n.m)| == x.size && n.g.flash == Overwrite(d.g.flash, x.at, Received(n.m))
                else n.g.offset <= x.size
      {
        FreshFlashWriteWorks(r, c, x, es, n);
      }
    } else if d.g.offset <= x.size {
      var es, n := StaleFlashWriteCheats(r, c, x, d.g.offset);
    } else {
      assert StagedQuietRun(r, [], r) && Received(r.m) == [];
    }
  }

  // ----- with a larger one -----

  lemma {:induction false} LoopGrows(m: Machine, g: Stage, at: nat)
    requires |g.wb| > 0
    ensures StageLoop(m, g, at).g.offset >= g.offset && StageLoop(m, g, at).m.cs == m.cs
    ensures StageLoop(m, g, at).m.cbw == m.cbw
    decreases |m.buf|
  {
    var o := StageTurn(m, g, at);
    if o.more.Ok? && o.more.value { LoopGrows(o.m, o.g, at); }
  }

  /** The Write under way has an offset past its end. */
  predicate PastEnd(d: StagedDevice, x: Extent) {
    && TakesStatus(d.m.state) && d.m.cs.None?
    && d.decode(d.m.cbw) == WriteOp(x) && x.size < U32_LIMIT && x.size < d.g.offset
  }

  lemma PastEndCalled(d: StagedDevice, x: Extent, misc: Callback)
    requires Good(d.m) && |d.g.wb| > 0 && PastEnd(d, x)
    ensures StagedCanHandle(d)
    ensures var h := StagedHandle(d, misc);
            PastEnd(d.(m := h.m, g := h.g), x)
  {
    ArmCases(d.m, d.g, x);
    LoopGrows(d.m, d.g, x.at);
  }

  lemma PastEndStep(d: StagedDevice, e: DeviceEvent, x: Extent)
    requires Good(d.m) && |d.g.wb| > 0 && PastEnd(d, x) && StagedAllowed(d, e) && Quiet(e)
    ensures PastEnd(StagedStep(d, e), x)
  {
    match e
    case UsbEvent => PollKeepsOpen(d.m);
    case CommandEvent(misc) =>
      if Offered(d.m) {
        PastEndCalled(d, x, misc);
        StagedHandleGood(d, misc);
        PollKeepsOpen(StagedHandle(d, misc).m);
      }
    case _ =>
  }

  /** A Write that finds an offset past its end is never answered, whatever the host does short of a reset. */
  lemma {:induction false} StaleFlashWriteNeverEnds(d: StagedDevice, x: Extent, es: seq<DeviceEvent>)
    requires Good(d.m) && |d.g.wb| > 0 && PastEnd(d, x) && StagedLegal(d, es)
    requires forall i :: 0 <= i < |es| ==> Quiet(es[i])
    ensures PastEnd(StagedRun(d, es), x) && StagedRun(d, es).m.ledger.cur.Some? && !Reported(StagedRun(d, es))
    decreases |es|
  {
    if es != [] {
      StaleFlashWriteNeverEnds(d, x, es[..|es| - 1]);
      PastEndStep(StagedRun(d, es[..|es| - 1]), es[|es| - 1], x);
    }
    OfferedLedger(StagedRun(d, es).m);
  }
}
