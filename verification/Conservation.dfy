/** What every run keeps of the bytes it moves: nothing accepted from the user or taken from the host is
    lost, reordered or invented, and the status wrapper tells the truth about it. */
module Conservation {
  import opened Bytes
  import opened Codec
  import opened Ledgers
  import opened Transport
  import opened Invariant
  import opened Runs

  /** Sent and buffered bytes are the user's, in order, then `pad` bytes of padding. */
  predicate InOrder(c: Cmd, buf: seq<byte>, pad: nat) {
    c.sent + buf == c.accepted + Fill(pad)
  }

  /** The current command's data phase is not over. */
  predicate MovingData(m: Machine) {
    TakesStatus(m.state) || m.state == DataTransferToHostEnding || m.state == DataTransferFromHostEnding
  }

  lemma SendingInOrder(m: Machine, c: Cmd)
    requires Sending(m, c)
    ensures |c.accepted| <= |c.sent| + |m.buf|
    ensures InOrder(c, m.buf, |c.sent| + |m.buf| - |c.accepted|)
  {
  }

  lemma MovingInOrder(m: Machine, c: Cmd)
    requires Good(m) && m.ledger.cur == Some(c) && c.cbw.dir == In && MovingData(m)
    ensures |c.sent| + m.left == c.cbw.len && |c.accepted| <= |c.sent| + |m.buf|
    ensures InOrder(c, m.buf, |c.sent| + |m.buf| - |c.accepted|)
    ensures |c.sent| + |m.buf| > |c.accepted| ==> m.state == DataTransferToHostEnding && c.status.Some?
  {
    if m.state == DataTransferStatusAwait {
      assert c.sent + m.buf == c.accepted + Fill(0);
    } else {
      SendingInOrder(m, c);
    }
  }

  lemma PayloadIsSent(m: Machine, c: Cmd)
    requires Good(m) && m.ledger.cur == Some(c) && c.cbw.dir == In && !MovingData(m)
    ensures |c.accepted| <= c.cbw.len <= |c.sent|
    ensures c.sent[..c.cbw.len] == c.accepted + Fill(c.cbw.len - |c.accepted|)
  {
    assert c.sent[..|Payload(c)|] == Payload(c);
  }

  /** Data-In: what was sent followed by what is buffered is what the user handed over, in order, followed by
      padding only; padding needs a status; the counter says exactly how much is missing; and once the data
      phase is over nothing of it is left behind. */
  lemma DataInConserved(m: Machine)
    requires Reachable(m)
    requires m.ledger.cur.Some? && m.ledger.cur.value.cbw.dir == In
    ensures var c := m.ledger.cur.value;
            if MovingData(m) then
              && |c.sent| + m.left == c.cbw.len
              && exists pad: nat ::
                   InOrder(c, m.buf, pad) && (pad > 0 ==> m.state == DataTransferToHostEnding && c.status.Some?)
            else
              && |c.sent| >= c.cbw.len
              && c.sent[..c.cbw.len] == c.accepted + Fill(c.cbw.len - |c.accepted|)
  {
    ReachableGood(m);
    var c := m.ledger.cur.value;
    if MovingData(m) {
      MovingInOrder(m, c);
    } else {
      PayloadIsSent(m, c);
    }
  }

  /** Data-Out: what the user read followed by what is buffered is what the host sent for this command, the
      counter is what the host still owes, and no status byte leaves before the host has sent it all, not
      even when the user gave its status early. */
  lemma DataOutConserved(m: Machine)
    requires Reachable(m)
    requires m.ledger.cur.Some? && m.ledger.cur.value.cbw.dir == Out
    ensures var c := m.ledger.cur.value;
            && (TakesStatus(m.state) ==> c.delivered + m.buf == c.received)
            && c.delivered <= c.received
            && (MovingData(m) ==> m.left == SatSub(c.cbw.len, |c.received|))
            && (c.sent != [] ==> |c.received| >= c.cbw.len)
  {
    ReachableGood(m);
  }

  /** The states in which a poll reads into what the buffer already holds. */
  predicate ReadsOn(m: Machine) {
    m.state == CommandTransfer || (m.state == DataTransferFromHost && m.left > 0 && m.cs.None?)
  }

  lemma ReadCbwOverflow(m: Machine)
    requires 0 < m.ps <= m.cap
    ensures ReadCbw(m).r == Err(Error(IoBufferOverflow)) <==> m.cap - |m.buf| < m.ps
    ensures ReadCbw(m).r == Err(Error(IoBufferOverflow)) ==> ReadCbw(m).m == m
  {
  }

  lemma DropRestNeverOverflows(m: Machine)
    requires m.ps <= m.cap && m.cs.Some?
    ensures DropRest(m).r != Err(Error(IoBufferOverflow))
  {
  }

  lemma FromHostOverflow(m: Machine)
    requires m.ps <= m.cap && m.state == DataTransferFromHost
    ensures Poll(m).r == Err(Error(IoBufferOverflow)) <==> ReadsOn(m) && m.cap - |m.buf| < m.ps
    ensures Poll(m).r == Err(Error(IoBufferOverflow)) ==> Poll(m).m == m
  {
    if m.cs.Some? && m.left > 0 { DropRestNeverOverflows(m.(state := DataTransferFromHostEnding)); }
  }

  lemma SendingNeverOverflows(m: Machine)
    requires NeedsStatus(m.state) ==> m.cs.Some?
    requires m.state != CommandTransfer && m.state != StatusTransfer
    requires m.state != DataTransferFromHost && m.state != DataTransferFromHostEnding
    ensures Poll(m).r != Err(Error(IoBufferOverflow))
  {
  }

  /** A read refused for lack of room takes nothing from the host and changes nothing, in every state; and it is
      refused exactly when a wrapper or data is being put together and less than a packet is free. */
  lemma OverflowLosesNothing(m: Machine)
    requires Good(m)
    ensures Poll(m).r == Err(Error(IoBufferOverflow)) <==> ReadsOn(m) && m.cap - |m.buf| < m.ps
    ensures Poll(m).r == Err(Error(IoBufferOverflow)) ==> Poll(m).m == m
  {
    match m.state {
      case CommandTransfer => ReadCbwOverflow(m);
      case StatusTransfer => ReadCbwOverflow(EnterCommandTransfer(m));
      case DataTransferFromHost => FromHostOverflow(m);
      case DataTransferFromHostEnding => DropRestNeverOverflows(m);
      case _ => SendingNeverOverflows(m);
    }
  }

  /** What a partial and a whole write answer with `due` bytes owed to the host and `free` bytes of room: the
      first takes the longest admissible prefix; the second is all or nothing, and a length the host did not ask
      for is reported before a lack of room. */
  predicate WritesMaximally(m: Machine, src: seq<byte>, due: nat, free: nat) {
    && WriteData(m, src).r == Ok(Min(|src|, Min(due, free)))
    && var all := TryWriteDataAll(m, src);
       if |src| > due then all == Outcome(m, Err(Error(TransferLengthExceeded)))
       else if |src| > free then all == Outcome(m, Err(Error(IoBufferOverflow)))
       else all == Outcome(WriteData(m, src).m, Ok(()))
  }

  lemma WritesWithRoom(m: Machine, src: seq<byte>)
    requires m.state == DataTransferToHost && |m.buf| <= m.left && |m.buf| <= m.cap
    ensures WritesMaximally(m, src, m.left - |m.buf|, m.cap - |m.buf|)
  {
    assert |m.buf| % U32_LIMIT == |m.buf|;
    assert src[..|src|] == src;
  }

  /** The user's two ways to hand over data, in every run; the 32-bit cast in the allowance is harmless. */
  lemma WritesAreMaximal(m: Machine, src: seq<byte>)
    requires Reachable(m) && m.state == DataTransferToHost
    ensures |m.buf| <= m.left && |m.buf| <= m.cap
    ensures WritesMaximally(m, src, m.left - |m.buf|, m.cap - |m.buf|)
  {
    ReachableGood(m);
    WritesWithRoom(m, src);
  }

  /** A finished command got the status wrapper its user asked for: its tag, the last status set, and what the
      host asked for less what the user said it processed. In particular a user that reports exactly what it
      handed over has its padding counted as residue. */
  lemma CompleteIsFaithful(c: Cmd)
    requires Complete(c)
    ensures |c.sent| == FrameLen(c.cbw)
    ensures DecodeCsw(c.sent[InLen(c.cbw)..])
         == Some(Csw(c.cbw.tag, SatSub(c.cbw.len, c.status.value.1), c.status.value.0))
    ensures c.cbw.dir == In ==> c.sent[..c.cbw.len] == c.accepted + Fill(c.cbw.len - |c.accepted|)
    ensures c.cbw.dir == In && c.status.value.1 == |c.accepted| ==>
              c.sent[..c.cbw.len] == c.accepted + Fill(DecodeCsw(c.sent[InLen(c.cbw)..]).value.residue)
    ensures c.cbw.dir == Out ==> |c.received| >= c.cbw.len && c.delivered <= c.received
  {
    var p, w := Payload(c), CswBytes(c);
    assert |p| == InLen(c.cbw);
    assert c.sent[..|p|] == p && c.sent[|p|..] == w;
    CswRoundTrip(Csw(c.cbw.tag, SatSub(c.cbw.len, c.status.value.1), c.status.value.0));
  }

  /** In every run, every command but the current one is finished, and so is the current one whenever the
      device waits for the next wrapper. */
  lemma FinishedCommandsAreComplete(m: Machine, i: nat)
    requires Reachable(m) && i < |Commands(m.ledger)|
    requires i < |m.ledger.done| || m.state == CommandTransfer || m.state == CommandTransferInvalid
    ensures Complete(Commands(m.ledger)[i])
  {
    ReachableGood(m);
  }

  /** At most `outs` packets taken, `ins` sent and `cmds` commands started between `m` and `n`. */
  predicate Within(m: Machine, n: Machine, outs: nat, ins: nat, cmds: nat) {
    && |m.outs| - outs <= |n.outs| <= |m.outs|
    && |m.ins| - ins <= |n.ins| <= |m.ins|
    && (outs == 0 ==> n.outs == m.outs)
    && (ins == 0 ==> n.ins == m.ins)
    && |Commands(m.ledger)| <= |Commands(n.ledger)| <= |Commands(m.ledger)| + cmds
  }

  lemma ReadPacketWithin(m: Machine)
    ensures Within(m, ReadPacket(m).m, 1, 0, 0)
  {
  }

  lemma WritePacketWithin(m: Machine)
    ensures Within(m, WritePacket(m).m, 0, 1, 0)
  {
  }

  lemma BeginWithin(m: Machine, c: Cbw)
    ensures Within(m, Begin(m, c).m, 1, 0, 1)
  {
    var started := m.(cbw := c, left := c.len, buf := [], ledger := NoteCbw(m.ledger, c));
    ReadPacketWithin(started.(state := DataTransferFromHost));
  }

  lemma ReadCbwWithin(m: Machine)
    ensures Within(m, ReadCbw(m).m, 2, 0, 1)
  {
    ReadPacketWithin(m);
    var got := ReadPacket(m);
    if got.r.Ok? && |got.m.buf| >= CBW_LEN && ParseCbw(got.m.buf[..CBW_LEN]).Some? {
      BeginWithin(got.m, ParseCbw(got.m.buf[..CBW_LEN]).value);
    }
  }

  lemma StartStatusWithin(m: Machine)
    requires m.cs.Some?
    ensures Within(m, StartStatus(m).m, 0, 1, 0)
  {
    WritePacketWithin(m.(buf := EncodeCsw(CswOf(m.cbw, m.cs.value)), state := StatusTransfer));
  }

  lemma SendRestWithin(m: Machine)
    requires m.cs.Some?
    ensures Within(m, SendRest(m).m, 0, 1, 0)
  {
    StartStatusWithin(m);
    WritePacketWithin(m.(buf := m.buf + Fill(Min(SatSub(Min(m.left, m.ps), |m.buf|), SatSub(m.cap, |m.buf|)))));
  }

  lemma DropRestWithin(m: Machine)
    requires m.cs.Some?
    ensures Within(m, DropRest(m).m, 1, 0, 0) || Within(m, DropRest(m).m, 0, 1, 0)
  {
    StartStatusWithin(m);
    ReadPacketWithin(m.(buf := []));
  }

  lemma AwaitStatusWithin(m: Machine)
    ensures Within(m, AwaitStatus(m).m, 0, 1, 0)
  {
    if m.cs.Some? { StartStatusWithin(m); }
  }

  /** Between two machines at most one command started, and at most two packets were taken or one was sent,
      never both. */
  predicate Bounded(m: Machine, n: Machine) {
    Within(m, n, 2, 0, 1) || Within(m, n, 0, 1, 0)
  }

  lemma PollToHostIsBounded(m: Machine)
    requires m.state == DataTransferToHost
    ensures Bounded(m, Poll(m).m)
  {
    if m.left == 0 {
      AwaitStatusWithin(m.(state := DataTransferStatusAwait));
    } else if m.cs.Some? {
      SendRestWithin(m.(state := DataTransferToHostEnding));
    } else {
      WritePacketWithin(m);
    }
  }

  lemma PollFromHostIsBounded(m: Machine)
    requires m.state == DataTransferFromHost
    ensures Bounded(m, Poll(m).m)
  {
    if m.left == 0 {
      AwaitStatusWithin(m.(state := DataTransferFromHostStatusAwait));
    } else if m.cs.Some? {
      DropRestWithin(m.(state := DataTransferFromHostEnding));
    } else {
      ReadPacketWithin(m);
    }
  }

  /** One poll, whatever the endpoints do. */
  lemma PollIsBounded(m: Machine)
    requires NeedsStatus(m.state) ==> m.cs.Some?
    ensures Bounded(m, Poll(m).m)
  {
    match m.state {
      case CommandTransfer => ReadCbwWithin(m);
      case CommandTransferInvalid =>
      case DataTransferToHost => PollToHostIsBounded(m);
      case DataTransferToHostEnding => SendRestWithin(m);
      case DataTransferFromHost => PollFromHostIsBounded(m);
      case DataTransferFromHostEnding => DropRestWithin(m);
      case StatusTransfer =>
        if m.buf == [] { ReadCbwWithin(EnterCommandTransfer(m)); } else { WritePacketWithin(m); }
      case DataTransferNoData => AwaitStatusWithin(m.(state := DataTransferStatusAwait));
      case _ => AwaitStatusWithin(m);
    }
  }

  // ----- how far a host can overshoot -----

  /** The device takes less than a packet more than it was promised. */
  predicate Capped(l: Ledger, ps: nat) {
    match l.cur
    case None => true
    case Some(c) => c.cbw.dir == Out ==> |c.received| < c.cbw.len + ps
  }

  lemma ReadPacketCapped(m: Machine)
    requires m.ledger.cur.Some? && m.ledger.cur.value.cbw.dir == Out
    requires |m.ledger.cur.value.received| < m.ledger.cur.value.cbw.len
    ensures Capped(ReadPacket(m).m.ledger, m.ps)
  {
  }

  lemma BeginCapped(m: Machine, c: Cbw)
    requires ValidCbw(c) && m.ps > 0
    ensures Capped(Begin(m, c).m.ledger, m.ps)
  {
    var started := m.(cbw := c, left := c.len, buf := [], ledger := NoteCbw(m.ledger, c));
    if c.dir == Out { ReadPacketCapped(started.(state := DataTransferFromHost)); }
  }

  lemma ReadCbwCapped(m: Machine)
    requires m.ps > 0 && Capped(m.ledger, m.ps) && (m.ledger.cur.Some? ==> Over(m.ledger.cur.value))
    ensures Capped(ReadCbw(m).m.ledger, m.ps)
  {
    var got := ReadPacket(m);
    if got.r.Ok? && |got.m.buf| >= CBW_LEN && ParseCbw(got.m.buf[..CBW_LEN]).Some? {
      BeginCapped(got.m, ParseCbw(got.m.buf[..CBW_LEN]).value);
    }
  }

  lemma DropRestCapped(m: Machine)
    requires m.cs.Some? && Active(m) && Receiving(m, m.ledger.cur.value) && Capped(m.ledger, m.ps)
    ensures Capped(DropRest(m).m.ledger, m.ps)
  {
    if m.left > 0 { ReadPacketCapped(m.(buf := [])); } else { StartStatusCapped(m, m.ps); }
  }

  lemma FromHostCapped(m: Machine)
    requires Good(m) && m.state == DataTransferFromHost && Capped(m.ledger, m.ps)
    ensures Capped(Poll(m).m.ledger, m.ps)
  {
    if m.left == 0 {
      AwaitStatusCapped(m.(state := DataTransferFromHostStatusAwait), m.ps);
    } else if m.cs.None? {
      ReadPacketCapped(m);
    } else {
      DropRestCapped(m.(state := DataTransferFromHostEnding));
    }
  }

  lemma WritePacketCapped(m: Machine, ps: nat)
    requires Capped(m.ledger, ps)
    ensures Capped(WritePacket(m).m.ledger, ps)
  {
  }

  lemma StartStatusCapped(m: Machine, ps: nat)
    requires m.cs.Some? && Capped(m.ledger, ps)
    ensures Capped(StartStatus(m).m.ledger, ps)
  {
    WritePacketCapped(m.(buf := EncodeCsw(CswOf(m.cbw, m.cs.value)), state := StatusTransfer), ps);
  }

  lemma SendRestCapped(m: Machine, ps: nat)
    requires m.cs.Some? && Capped(m.ledger, ps)
    ensures Capped(SendRest(m).m.ledger, ps)
  {
    StartStatusCapped(m, ps);
    WritePacketCapped(m.(buf := m.buf + Fill(Min(SatSub(Min(m.left, m.ps), |m.buf|), SatSub(m.cap, |m.buf|)))), ps);
  }

  lemma AwaitStatusCapped(m: Machine, ps: nat)
    requires Capped(m.ledger, ps)
    ensures Capped(AwaitStatus(m).m.ledger, ps)
  {
    if m.cs.Some? { StartStatusCapped(m, ps); }
  }

  lemma ToHostCapped(m: Machine)
    requires m.state == DataTransferToHost && Capped(m.ledger, m.ps)
    ensures Capped(Poll(m).m.ledger, m.ps)
  {
    if m.left == 0 {
      AwaitStatusCapped(m.(state := DataTransferStatusAwait), m.ps);
    } else if m.cs.Some? {
      SendRestCapped(m.(state := DataTransferToHostEnding), m.ps);
    } else {
      WritePacketCapped(m, m.ps);
    }
  }

  lemma SendingCapped(m: Machine)
    requires NeedsStatus(m.state) ==> m.cs.Some?
    requires m.state != CommandTransfer && !(m.state == StatusTransfer && m.buf == [])
    requires m.state != DataTransferFromHost && m.state != DataTransferFromHostEnding
    requires Capped(m.ledger, m.ps)
    ensures Capped(Poll(m).m.ledger, m.ps)
  {
    match m.state {
      case CommandTransferInvalid =>
      case DataTransferToHost => ToHostCapped(m);
      case DataTransferToHostEnding => SendRestCapped(m, m.ps);
      case StatusTransfer => WritePacketCapped(m, m.ps);
      case DataTransferNoData => AwaitStatusCapped(m.(state := DataTransferStatusAwait), m.ps);
      case _ => AwaitStatusCapped(m, m.ps);
    }
  }

  lemma FinishedIsOver(m: Machine)
    requires Good(m) && m.ledger.cur.Some?
    requires m.state == CommandTransfer || (m.state == StatusTransfer && m.buf == [])
    ensures Over(m.ledger.cur.value)
  {
  }

  lemma PollCapped(m: Machine)
    requires Good(m) && Capped(m.ledger, m.ps)
    ensures Capped(Poll(m).m.ledger, m.ps)
  {
    if m.state == CommandTransfer {
      if m.ledger.cur.Some? { FinishedIsOver(m); }
      ReadCbwCapped(m);
    } else if m.state == StatusTransfer && m.buf == [] {
      FinishedIsOver(m);
      ReadCbwCapped(EnterCommandTransfer(m));
    } else if m.state == DataTransferFromHost {
      FromHostCapped(m);
    } else if m.state == DataTransferFromHostEnding {
      DropRestCapped(m);
    } else {
      SendingCapped(m);
    }
  }

  lemma StepCapped(m: Machine, e: Event)
    requires Good(m) && Permitted(m, e) && Capped(m.ledger, m.ps)
    ensures Capped(Step(m, e).ledger, m.ps)
  {
    if e.PollEvent? { PollCapped(m); }
  }

  lemma {:induction false} RunCapped(m: Machine, es: seq<Event>)
    requires Good(m) && Legal(m, es) && Capped(m.ledger, m.ps)
    ensures Capped(Run(m, es).ledger, m.ps)
    decreases |es|
  {
    if es != [] {
      RunCapped(m, es[..|es| - 1]);
      StepCapped(Run(m, es[..|es| - 1]), es[|es| - 1]);
    }
  }

  /** In every run, a host that sends more than it announced gets rid of less than a packet too much. */
  lemma OvershootIsBounded(m: Machine)
    requires Reachable(m) && m.ledger.cur.Some? && m.ledger.cur.value.cbw.dir == Out
    ensures |m.ledger.cur.value.received| < m.ledger.cur.value.cbw.len + m.ps
  {
    var ps: nat, cap: nat, es: seq<Event> :| LeadsTo(ps, cap, es, m);
    RunCapped(Start(ps, cap), es);
  }

  // ----- what a status does to later writes -----

  /** Setting a status does not by itself close the buffer to writes, although the documentation of
      `set_status` says so: the next write of either kind is answered as if there were no status. It takes data
      exactly in the writable state, with something to write and room for it in the transfer and the buffer. */
  lemma StatusAloneClosesNothing(m: Machine, status: CommandStatus, processed: u32, src: seq<byte>)
    requires Good(m) && TakesStatus(m.state)
    ensures var o := WriteData(SetStatus(m, status, processed), src);
            && o.r == WriteData(m, src).r && o.m.buf == WriteData(m, src).m.buf
            && (o.r.Ok? && o.r.value > 0 <==>
                m.state == DataTransferToHost && src != [] && |m.buf| < m.left && |m.buf| < m.cap)
    ensures var o := TryWriteDataAll(SetStatus(m, status, processed), src);
            && o.r == TryWriteDataAll(m, src).r && o.m.buf == TryWriteDataAll(m, src).m.buf
            && (o.r.Ok? <==>
                m.state == DataTransferToHost && |m.buf| + |src| <= m.left && |m.buf| + |src| <= m.cap)
  {
    assert m.state == DataTransferToHost ==> |m.buf| % U32_LIMIT == |m.buf|;
  }

  /** No more data can be written for the current command. */
  predicate Closed(m: Machine) {
    m.state != DataTransferToHost && (m.cs.Some? || m.state == CommandTransfer || m.state == CommandTransferInvalid)
  }

  /** It is the first poll after the status that closes it, and nothing but a new command or a reset opens it
      again. */
  lemma PollCloses(m: Machine)
    requires NeedsStatus(m.state) ==> m.cs.Some?
    requires m.cs.Some? || Closed(m)
    requires |Commands(Poll(m).m.ledger)| == |Commands(m.ledger)|
    ensures Closed(Poll(m).m)
  {
    match m.state {
      case CommandTransfer => ReadCbwCloses(m);
      case StatusTransfer =>
        if m.buf == [] { ReadCbwCloses(EnterCommandTransfer(m)); }
      case DataTransferToHost =>
        assert m.left == 0 ==> Poll(m) == StartStatus(m.(state := DataTransferStatusAwait));
        assert m.left != 0 ==> Poll(m) == SendRest(m.(state := DataTransferToHostEnding));
      case DataTransferFromHost =>
        assert m.left == 0 ==> Poll(m) == StartStatus(m.(state := DataTransferFromHostStatusAwait));
        assert m.left != 0 ==> Poll(m) == DropRest(m.(state := DataTransferFromHostEnding));
      case _ =>
    }
  }

  lemma ReadCbwCloses(m: Machine)
    requires m.state == CommandTransfer
    requires |Commands(ReadCbw(m).m.ledger)| == |Commands(m.ledger)|
    ensures Closed(ReadCbw(m).m)
  {
    var got := ReadPacket(m);
    ReadPacketWithin(m);
    if got.r.Ok? && |got.m.buf| >= CBW_LEN && ParseCbw(got.m.buf[..CBW_LEN]).Some? {
      BeginAddsCommand(got.m, ParseCbw(got.m.buf[..CBW_LEN]).value);
    }
  }

  lemma BeginAddsCommand(m: Machine, c: Cbw)
    ensures |Commands(Begin(m, c).m.ledger)| == |Commands(m.ledger)| + 1
  {
  }

  lemma StepCloses(m: Machine, e: Event)
    requires Good(m) && Closed(m) && Permitted(m, e) && !e.ResetEvent?
    ensures |Commands(m.ledger)| <= |Commands(Step(m, e).ledger)|
    ensures |Commands(Step(m, e).ledger)| == |Commands(m.ledger)| ==> Closed(Step(m, e))
  {
    if e.PollEvent? {
      PollIsBounded(m);
      if |Commands(Poll(m).m.ledger)| == |Commands(m.ledger)| { PollCloses(m); }
    }
  }

  lemma StepCommandsGrow(m: Machine, e: Event)
    requires Good(m) && Permitted(m, e) && !e.ResetEvent?
    ensures |Commands(m.ledger)| <= |Commands(Step(m, e).ledger)|
  {
    if e.PollEvent? { PollIsBounded(m); }
  }

  /** Without a reset the list of commands only grows. */
  lemma {:induction false} CommandsGrow(m: Machine, es: seq<Event>)
    requires Good(m) && Legal(m, es)
    requires forall k :: 0 <= k < |es| ==> !es[k].ResetEvent?
    ensures |Commands(m.ledger)| <= |Commands(Run(m, es).ledger)|
    decreases |es|
  {
    if es != [] {
      CommandsGrow(m, es[..|es| - 1]);
      StepCommandsGrow(Run(m, es[..|es| - 1]), es[|es| - 1]);
    }
  }

  /** Once closed, every write is refused until another command is accepted. */
  lemma {:induction false} ClosedStaysClosed(m: Machine, es: seq<Event>, src: seq<byte>)
    requires Good(m) && Closed(m) && Legal(m, es)
    requires forall k :: 0 <= k < |es| ==> !es[k].ResetEvent?
    requires |Commands(Run(m, es).ledger)| == |Commands(m.ledger)|
    ensures Closed(Run(m, es))
    ensures WriteData(Run(m, es), src) == Outcome(Run(m, es), Err(Error(InvalidState)))
    ensures TryWriteDataAll(Run(m, es), src) == Outcome(Run(m, es), Err(Error(InvalidState)))
    decreases |es|
  {
    if es != [] {
      var before := es[..|es| - 1];
      CommandsGrow(m, before);
      StepCommandsGrow(Run(m, before), es[|es| - 1]);
      ClosedStaysClosed(m, before, src);
      StepCloses(Run(m, before), es[|es| - 1]);
    }
  }
}
