/** How fast a command finishes once its status is set, and that a Data-In transfer cannot get stuck for want
    of buffer space. */
module Completion {
  import opened Bytes
  import opened Codec
  import opened Transport
  import opened Invariant

  function PollN(m: Machine, n: nat): (r: Machine)
    requires Good(m)
    ensures Good(r)
    decreases n
  {
    if n == 0 then m else
    PollGood(m);
    PollN(Poll(m).m, n - 1)
  }

  /** One poll keeps `p`. */
  ghost predicate KeepsAt(p: (Machine, nat) -> bool, m: Machine, i: nat) {
    p(m, i) ==> Good(m) && p(Poll(m).m, i + 1)
  }

  /** What every poll keeps, many polls keep. */
  lemma {:induction false} PollNKeeps(p: (Machine, nat) -> bool, m: Machine, i: nat, n: nat, r: Machine, k: nat)
    requires Good(m) && p(m, i) && forall q: Machine, j: nat :: KeepsAt(p, q, j)
    requires r == PollN(m, n) && k == i + n
    ensures p(r, k)
    decreases n
  {
    if n > 0 {
      assert KeepsAt(p, m, i);
      var q := FirstPoll(m, n);
      PollNKeeps(p, q, i + 1, n - 1, r, k);
    }
  }

  lemma FirstPoll(m: Machine, n: nat) returns (q: Machine)
    requires Good(m) && n > 0
    ensures Good(q) && q == Poll(m).m && PollN(m, n) == PollN(q, n - 1)
  {
    PollGood(m);
    PollNStep(m, n);
    q := Poll(m).m;
  }

  // ----- exact completion bound -----

  /** The IN endpoint never refuses, nor takes less than it is offered. */
  predicate Willing(m: Machine) {
    forall i :: 0 <= i < |m.ins| ==> m.ins[i].Takes? && m.ins[i].n >= m.ps
  }

  /** The host sends its next `left` bytes in packets as large as possible. */
  predicate Delivers(outs: seq<OutReply>, left: nat, ps: nat)
    decreases |outs|
  {
    || left == 0
    || (&& outs != []
        && outs[0].Packet?
        && |outs[0].data| == Min(left, ps)
        && Delivers(outs[1..], left - Min(left, ps), ps))
  }

  predicate CswIsOut(m: Machine) {
    m.state == StatusTransfer && m.buf == []
  }

  function PollsNeeded(m: Machine): (n: nat)
    requires m.ps > 0
  {
    if m.state == StatusTransfer then CeilDiv(|m.buf|, m.ps)
    else CeilDiv(m.left, m.ps) + CeilDiv(CSW_LEN, m.ps)
  }

  /** How many of these polls send something. */
  function PacketsNeeded(m: Machine): (n: nat)
    requires m.ps > 0
  {
    if m.state == StatusTransfer then CeilDiv(|m.buf|, m.ps)
    else (if m.cbw.dir == Out then 0 else CeilDiv(m.left, m.ps)) + CeilDiv(CSW_LEN, m.ps)
  }

  /** A status is set and the bus is willing. */
  predicate Finishing(m: Machine) {
    match m.cs
    case None => false
    case Some(_) =>
      && Good(m)
      && Willing(m)
      && |m.ins| >= PacketsNeeded(m)
      && (m.cbw.dir == Out ==> Delivers(m.outs, m.left, m.ps))
  }

  lemma NeededUnlessOut(m: Machine)
    requires Good(m) && m.cs.Some?
    ensures PollsNeeded(m) == 0 <==> CswIsOut(m)
  {
  }

  lemma StatusPacket(m: Machine)
    requires Finishing(m) && m.state == StatusTransfer && m.buf != []
    ensures var n := WritePacket(m);
            && n.r.Ok?
            && Finishing(n.m)
            && PollsNeeded(n.m) == PollsNeeded(m) - 1
  {
    SendStatusGood(m);
    StatusPacketSize(m);
  }

  lemma FirstStatusPacket(m: Machine)
    requires Finishing(m) && m.state != StatusTransfer && m.left == 0
    ensures StartStatus(m).r.Ok?
    ensures Finishing(StartStatus(m).m)
    ensures PollsNeeded(StartStatus(m).m) == PollsNeeded(m) - 1
  {
    StartStatusGood(m);
    StatusPacketSize(m.(buf := EncodeCsw(CswOf(m.cbw, m.cs.value)), state := StatusTransfer));
  }

  /** What sending a packet of the status wrapper does to the count. */
  lemma StatusPacketSize(m: Machine)
    requires m.ps > 0 && m.state == StatusTransfer && m.buf != []
    requires Willing(m) && m.ins != []
    ensures var o := WritePacket(m);
            && o.r.Ok?
            && o.m.ins == m.ins[1..] && o.m.outs == m.outs
            && PollsNeeded(o.m) == PollsNeeded(m) - 1
            && PacketsNeeded(o.m) == PacketsNeeded(m) - 1
  {
  }

  /** While a Data-In transfer is wound up, every packet has the size the host still expects, up to a packet. */
  lemma RestPacketSize(m: Machine)
    requires 0 < m.ps <= m.cap && |m.buf| <= m.cap
    requires m.cs.Some? && m.ledger.cur.Some? && |m.buf| <= m.left && m.left > 0
    requires m.ins != [] && m.ins[0].Takes? && m.ins[0].n >= m.ps
    ensures var o := SendRest(m);
            && o.r.Ok?
            && o.m.ledger.cur.Some?
            && o.m.ledger.cur.value.sizes == m.ledger.cur.value.sizes + [Min(m.left, m.ps)]
            && o.m.state == m.state && o.m.cs == m.cs && o.m.cbw == m.cbw
            && o.m.left == m.left - Min(m.left, m.ps)
            && o.m.ins == m.ins[1..] && o.m.outs == m.outs
  {
    var p := m.(buf := m.buf + Fill(Min(SatSub(Min(m.left, m.ps), |m.buf|), SatSub(m.cap, |m.buf|))));
    assert Min(m.ins[0].n, Min(p.ps, |p.buf|)) == Min(m.left, m.ps);
    assert SendRest(m) == Mark(WritePacket(p));
  }

  lemma RestPacket(m: Machine)
    requires Finishing(m) && m.state == DataTransferToHostEnding && m.left > 0
    ensures SendRest(m).r.Ok?
    ensures Finishing(SendRest(m).m)
    ensures PollsNeeded(SendRest(m).m) == PollsNeeded(m) - 1
  {
    SendRestGood(m);
    RestPacketSize(m);
    OneLess(m, SendRest(m).m);
  }

  /** One packet less of a Data-In transfer. */
  lemma OneLess(m: Machine, n: Machine)
    requires 0 < m.ps == n.ps && m.left > 0 && m.cbw.dir == In && n.cbw == m.cbw
    requires m.state == n.state == DataTransferToHostEnding
    requires n.left == m.left - Min(m.left, m.ps) && m.ins != [] && n.ins == m.ins[1..]
    requires Willing(m) && |m.ins| >= PacketsNeeded(m)
    ensures Willing(n) && |n.ins| >= PacketsNeeded(n) && PollsNeeded(n) == PollsNeeded(m) - 1
  {
  }

  lemma DroppedPacket(m: Machine)
    requires Finishing(m) && m.state == DataTransferFromHostEnding && m.left > 0
    ensures DropRest(m).r.Ok?
    ensures Finishing(DropRest(m).m)
    ensures PollsNeeded(DropRest(m).m) == PollsNeeded(m) - 1
  {
    DropRestGood(m);
    var n := DropRest(m).m;
    assert n.left == m.left - Min(m.left, m.ps);
    assert n.outs == m.outs[1..] && n.ins == m.ins;
  }

  lemma FinishingPoll(m: Machine)
    requires Finishing(m) && !CswIsOut(m)
    ensures Poll(m).r.Ok?
    ensures Finishing(Poll(m).m)
    ensures PollsNeeded(Poll(m).m) == PollsNeeded(m) - 1
  {
    if m.state == StatusTransfer {
      StatusPacket(m);
    } else if m.state == DataTransferToHost {
      FinishingToHost(m);
    } else if m.state == DataTransferFromHost {
      FinishingFromHost(m);
    } else if m.left == 0 {
      FirstStatusPacket(m);
    } else if m.state == DataTransferToHostEnding {
      RestPacket(m);
    } else {
      DroppedPacket(m);
    }
  }

  lemma FinishingToHost(m: Machine)
    requires Finishing(m) && m.state == DataTransferToHost
    ensures Poll(m).r.Ok?
    ensures Finishing(Poll(m).m)
    ensures PollsNeeded(Poll(m).m) == PollsNeeded(m) - 1
  {
    if m.left == 0 {
      var w := m.(state := DataTransferStatusAwait);
      assert m.ledger.cur.value.sent + m.buf == m.ledger.cur.value.sent;
      assert Finishing(w);
      FirstStatusPacket(w);
    } else {
      RestPacket(m.(state := DataTransferToHostEnding));
    }
  }

  lemma FinishingFromHost(m: Machine)
    requires Finishing(m) && m.state == DataTransferFromHost
    ensures Poll(m).r.Ok?
    ensures Finishing(Poll(m).m)
    ensures PollsNeeded(Poll(m).m) == PollsNeeded(m) - 1
  {
    if m.left == 0 {
      FirstStatusPacket(m.(state := DataTransferFromHostStatusAwait));
    } else {
      DroppedPacket(m.(state := DataTransferFromHostEnding));
    }
  }

  lemma PollNStep(m: Machine, k: nat)
    requires Good(m) && Good(Poll(m).m) && k > 0
    ensures PollN(m, k) == PollN(Poll(m).m, k - 1)
  {
  }

  lemma {:induction false} FinishingPolls(m: Machine, k: nat)
    requires Finishing(m) && k <= PollsNeeded(m)
    ensures Finishing(PollN(m, k))
    ensures PollsNeeded(PollN(m, k)) == PollsNeeded(m) - k
    decreases k
  {
    if k > 0 {
      NeededUnlessOut(m);
      FinishingPoll(m);
      var n := Poll(m).m;
      FinishingPolls(n, k - 1);
      PollNStep(m, k);
      assert PollN(m, k) == PollN(n, k - 1);
    }
  }

  /** The current command is finished and the next poll goes back to reading wrappers. */
  predicate Finished(m: Machine) {
    && CswIsOut(m)
    && m.cs.Some?
    && m.ledger.cur.Some? && Complete(m.ledger.cur.value)
    && Poll(m).m.state != StatusTransfer
  }

  lemma OutIsFinished(m: Machine)
    requires Good(m) && CswIsOut(m)
    ensures Finished(m)
  {
    var c := m.ledger.cur.value;
    assert CswBytes(c)[..CSW_LEN] == CswBytes(c);
    assert Poll(m) == ReadCbw(EnterCommandTransfer(m));
  }

  /** Exact completion. With a status set, `left` bytes of the data phase to go and a willing bus, the last
      byte of the status wrapper leaves in poll number ceil(left / ps) + ceil(13 / ps), not earlier, whatever
      the direction of the command; the next poll is back to reading wrappers. */
  lemma CompletesExactly(m: Machine, n: nat)
    requires Finishing(m) && m.state != StatusTransfer
    requires n == CeilDiv(m.left, m.ps) + CeilDiv(CSW_LEN, m.ps)
    ensures forall k: nat :: k < n ==> !CswIsOut(PollN(m, k))
    ensures Finished(PollN(m, n))
  {
    forall k: nat | k < n ensures !CswIsOut(PollN(m, k)) {
      FinishingPolls(m, k);
      NeededUnlessOut(PollN(m, k));
    }
    FinishingPolls(m, n);
    NeededUnlessOut(PollN(m, n));
    OutIsFinished(PollN(m, n));
  }

  // ----- no stand-off on the IN side -----

  /** The device will not send before it has a full packet. */
  predicate AwaitsFullPacket(m: Machine) {
    m.state == DataTransferToHost && m.cs.None? && m.left >= m.ps > |m.buf|
  }

  /** That is the state in which a poll answers `FullPacketExpected`. */
  lemma AskedForMore(m: Machine)
    requires Good(m) && Poll(m).r == Err(Error(FullPacketExpected))
    ensures AwaitsFullPacket(Poll(m).m)
  {
    match m.state {
      case CommandTransfer => ReadCbwAsks(m);
      case StatusTransfer =>
        if m.buf == [] { ReadCbwAsks(EnterCommandTransfer(m)); }
      case _ =>
    }
  }

  lemma ReadCbwAsks(m: Machine)
    requires m.cs.None? && m.ps > 0 && ReadCbw(m).r == Err(Error(FullPacketExpected))
    ensures AwaitsFullPacket(ReadCbw(m).m)
  {
  }

  /** In that state there is room to complete the packet, and once the user has, the next willing poll sends
      it. */
  lemma NoStandOff(m: Machine, src: seq<byte>)
    requires Good(m) && AwaitsFullPacket(m)
    requires |src| >= m.ps - |m.buf|
    requires m.ins != [] && m.ins[0].Takes? && m.ins[0].n >= m.ps
    ensures var o := WriteData(m, src);
            && o.r.Ok? && o.r.value >= m.ps - |m.buf|
            && o.m.state == DataTransferToHost
            && Poll(o.m).r == Ok(())
            && m.ledger.cur.Some? && Poll(o.m).m.ledger.cur.Some?
            && var before, after := m.ledger.cur.value, Poll(o.m).m.ledger.cur.value;
               && after.sizes == before.sizes + [m.ps]
               && after.sent == before.sent + (m.buf + src[..m.ps - |m.buf|])
  {
    var p := WriteData(m, src).m;
    assert |m.buf| % U32_LIMIT == |m.buf|;
    assert p.buf[..m.ps] == m.buf + src[..m.ps - |m.buf|];
    assert Poll(p) == Mark(WritePacket(p));
  }
}
