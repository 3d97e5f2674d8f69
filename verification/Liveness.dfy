/** Does a block command ever pass? With the storage handlers on top of the transport, a Read exactly when the
    host's transfer length covers its blocks, a Write exactly when the host sends the bytes of its blocks. */
module Liveness {
  import opened Bytes
  import opened Codec
  import opened Ledgers
  import opened Transport
  import opened Invariant
  import opened Runs
  import opened Dispatch
  import opened Progress
  import opened Storage

  /** A bus that is ready for one packet in either direction. */
  function Offer(m: Machine, packet: seq<byte>): (r: Machine) {
    m.(outs := [Packet(packet)], ins := [Takes(m.ps)])
  }

  function Ready(d: Device, packet: seq<byte>): (r: Device) {
    Device(Offer(d.m, packet), d.disk)
  }

  /** A block command without a verdict, in the direction it needs. */
  predicate Serving(d: Device, x: Extent) {
    && Tracks(d)
    && TakesStatus(d.m.state) && d.m.cs.None?
    && Inside(d.disk.storage, x)
    && (|| (d.disk.decode(d.m.cbw) == ReadOp(x) && d.m.cbw.dir == In)
        || (d.disk.decode(d.m.cbw) == WriteOp(x) && d.m.cbw.dir == Out))
  }

  /** What is left to do, in bytes: for the handler and for the transport. */
  function Todo(d: Device, x: Extent): (n: int) {
    x.size - d.disk.offset + d.m.left
  }

  predicate HasPassed(m: Machine, x: Extent) {
    m.ledger.cur.Some? && m.ledger.cur.value.status.Some?
    && m.ledger.cur.value.status.value.0 == Passed && m.ledger.cur.value.status.value.1 == x.size
  }

  /** The block command that was under way in `d` has passed. */
  ghost predicate HasEnded(d: Device, r: Device, x: Extent) {
    && HasPassed(r.m, x) && Tracks(r)
    && r.m.ledger.cur.value.cbw == d.m.cbw && r.disk.decode == d.disk.decode
  }

  /** A handler call and the poll after it. */
  function Round(d: Device, packet: seq<byte>, misc: Callback): (r: Device)
    requires Good(d.m) && (Offered(d.m) ==> CanHandle(d))
  {
    BusGood(d.m, [Packet(packet)], [Takes(d.m.ps)]);
    PollDevice(Ready(d, packet), misc)
  }

  // ----- the transport's part -----

  /** A poll without a status leaves the command open and never adds to what is left. */
  lemma PollKeepsOpen(m: Machine)
    requires Good(m) && TakesStatus(m.state) && m.cs.None?
    ensures var n := Poll(m).m;
            && TakesStatus(n.state) && n.cs.None? && n.cbw == m.cbw
            && n.left <= m.left
            && Continues(m.ledger, n.ledger)
  {
    match m.state {
      case DataTransferToHost =>
        WritePacketContinues(m);
      case DataTransferFromHost =>
        ReadPacketContinues(m);
      case _ =>
    }
  }

  lemma PollSends(m: Machine)
    requires Good(m) && m.state == DataTransferToHost && m.cs.None? && |m.buf| >= m.ps
    requires m.ins == [Takes(m.ps)]
    ensures Poll(m).m.left < m.left
  {
    assert Poll(m) == Mark(WritePacket(m));
  }

  lemma PollTakes(m: Machine, packet: seq<byte>)
    requires Good(m) && m.state == DataTransferFromHost && m.cs.None? && m.buf == [] && m.left > 0
    requires m.outs == [Packet(packet)] && 1 <= |packet| <= m.ps
    ensures Poll(m).m.left < m.left
  {
    assert Poll(m) == Mark(ReadPacket(m));
  }

  // ----- the handlers' part -----

  /** A Read with bytes to go hands some over, unless the buffer is full, and then it holds a packet. */
  lemma ReadMoves(m: Machine, src: seq<byte>)
    requires Good(m) && m.cs.None? && TakesStatus(m.state) && m.cbw.dir == In && src != []
    requires |m.ledger.cur.value.accepted| + |src| <= m.cbw.len
    ensures var o := WriteData(m, src);
            && o.r.Ok? && o.m.left == m.left
            && o.m.state == DataTransferToHost
            && (o.r.value == 0 ==> |o.m.buf| >= m.ps)
  {
    assert |m.buf| % U32_LIMIT == |m.buf|;
  }

  /** A Write with bytes to go takes some, unless none are buffered, and then the host owes some. */
  lemma WriteMoves(m: Machine, room: nat)
    requires Good(m) && m.cs.None? && TakesStatus(m.state) && m.cbw.dir == Out && room > 0
    requires |m.ledger.cur.value.delivered| + room <= m.cbw.len
    ensures var o := ReadData(m, room);
            && o.r.Ok? && o.m.left == m.left && o.m.state == m.state
            && (o.r.value == [] ==> o.m.buf == [] && m.left > 0 && m.state == DataTransferFromHost)
  {
  }

  /** What the account says of a block command under way. */
  lemma ServingFacts(d: Device, x: Extent)
    requires Serving(d, x)
    ensures CanHandle(d) && Within(d.disk, x) && Offered(d.m)
    ensures Open(d.m.ledger) && d.m.ledger.cur.value.cbw == d.m.cbw
    ensures d.m.cbw.dir == In ==> d.disk.offset == |d.m.ledger.cur.value.accepted|
    ensures d.m.cbw.dir == Out ==> d.disk.offset == |d.m.ledger.cur.value.delivered|
  {
    OfferedLedger(d.m);
    OfferIsComplete(d.m);
  }

  /** The poll after a verdict stays with the command. */
  lemma PollAfterVerdict(m: Machine)
    requires Good(m) && TakesStatus(m.state) && m.cs.Some?
    ensures Continues(m.ledger, Poll(m).m.ledger)
  {
    match m.state {
      case DataTransferToHost =>
        AwaitStatusContinues(m.(state := DataTransferStatusAwait));
        SendRestContinues(m.(state := DataTransferToHostEnding));
      case DataTransferFromHost =>
        AwaitStatusContinues(m.(state := DataTransferFromHostStatusAwait));
        DropRestContinues(m.(state := DataTransferFromHostEnding));
      case _ =>
        AwaitStatusContinues(m);
    }
  }

  /** What a handler call does to a block command that fits: it passes, or it makes the poll after it count. */
  predicate Moves(d: Device, h: Handled, x: Extent, packet: seq<byte>) {
    && h.r.Ok?
    && TakesStatus(h.d.m.state)
    && (h.d.m.cs.Some? ==> HasPassed(h.d.m, x))
    && (h.d.m.cs.None? ==>
          && h.d.m.cbw == d.m.cbw && h.d.m.left == d.m.left
          && h.d.m.outs == [Packet(packet)] && h.d.m.ins == [Takes(d.m.ps)] && h.d.m.ps == d.m.ps
          && h.d.disk.offset >= d.disk.offset
          && (h.d.disk.offset == d.disk.offset ==>
                || (h.d.m.state == DataTransferToHost && |h.d.m.buf| >= d.m.ps)
                || (h.d.m.state == DataTransferFromHost && h.d.m.buf == [] && d.m.left > 0)))
  }

  lemma ReadArmMoves(d: Device, x: Extent, packet: seq<byte>)
    requires Serving(d, x) && d.disk.decode(d.m.cbw) == ReadOp(x) && x.size <= d.m.cbw.len
    ensures Within(d.disk, x)
    ensures Moves(d, ReadArm(Ready(d, packet), x), x, packet)
  {
    ServingFacts(d, x);
    var m := Offer(d.m, packet);
    assert Good(m);
    if d.disk.offset != x.size {
      ReadMoves(m, d.disk.storage[x.at + d.disk.offset..x.at + x.size]);
    }
  }

  lemma WriteArmMoves(d: Device, x: Extent, packet: seq<byte>)
    requires Serving(d, x) && d.disk.decode(d.m.cbw) == WriteOp(x) && x.size <= d.m.cbw.len
    ensures Within(d.disk, x)
    ensures Moves(d, WriteArm(Ready(d, packet), x), x, packet)
  {
    ServingFacts(d, x);
    var m := Offer(d.m, packet);
    assert Good(m);
    if d.disk.offset != x.size {
      WriteMoves(m, x.size - d.disk.offset);
    }
  }

  lemma ReadyServes(d: Device, x: Extent, packet: seq<byte>)
    requires Serving(d, x)
    ensures Serving(Ready(d, packet), x)
  {
    BusGood(d.m, [Packet(packet)], [Takes(d.m.ps)]);
  }

  lemma HandleMoves(d: Device, x: Extent, packet: seq<byte>, misc: Callback)
    requires Serving(d, x) && x.size <= d.m.cbw.len
    requires Good(Ready(d, packet).m) && CanHandle(Ready(d, packet))
    ensures Moves(d, Handle(Ready(d, packet), misc), x, packet)
  {
    if d.disk.decode(d.m.cbw).ReadOp? {
      ReadArmMoves(d, x, packet);
    } else {
      WriteArmMoves(d, x, packet);
    }
  }

  lemma PollCounts(d: Device, h: Handled, x: Extent, packet: seq<byte>)
    requires Good(h.d.m) && Moves(d, h, x, packet) && 1 <= |packet| <= d.m.ps
    requires h.d.m.cs.None?
    ensures x.size - h.d.disk.offset + Poll(h.d.m).m.left < Todo(d, x)
  {
    var m := h.d.m;
    PollKeepsOpen(m);
    if h.d.disk.offset == d.disk.offset {
      if m.state == DataTransferToHost { PollSends(m); } else { PollTakes(m, packet); }
    }
  }

  // ----- a handler call and the poll after it -----

  /** A handler call keeps the command, and a verdict it gives is that all of it passed. */
  lemma HandleServes(d: Device, x: Extent, misc: Callback)
    requires Serving(d, x) && CanHandle(d)
    ensures var h := Handle(d, misc);
            && TakesStatus(h.d.m.state) && h.d.m.cbw == d.m.cbw && h.d.m.ps == d.m.ps
            && h.d.disk.decode == d.disk.decode && |h.d.disk.storage| == |d.disk.storage|
            && h.d.m.ledger.cur.Some? && h.d.m.ledger.cur.value.cbw == d.m.cbw
            && (h.d.m.cs.Some? ==> HasPassed(h.d.m, x))
  {
    ServingFacts(d, x);
  }

  lemma PollServes(m: Machine, x: Extent)
    requires Good(m) && TakesStatus(m.state) && (m.cs.Some? ==> HasPassed(m, x))
    ensures var n := Poll(m).m;
            || (m.cs.Some? && HasPassed(n, x) && n.ledger.cur.value.cbw == m.ledger.cur.value.cbw)
            || (m.cs.None? && TakesStatus(n.state) && n.cs.None? && n.cbw == m.cbw && n.ps == m.ps)
  {
    if m.cs.Some? { PollAfterVerdict(m); } else { PollKeepsOpen(m); }
  }

  lemma RoundIs(d: Device, misc: Callback)
    requires Good(d.m) && Offered(d.m) && CanHandle(d) && TakesStatus(d.m.state)
    ensures Good(Handle(d, misc).d.m)
    ensures var h := Handle(d, misc);
            PollDevice(d, misc) == if h.r.Ok? then Device(Poll(h.d.m).m, h.d.disk) else h.d
  {
    HandleGood(d, misc);
  }

  /** A handler call and a poll leave a block command passed, or under way as before. */
  lemma PollDeviceServes(d: Device, x: Extent, misc: Callback)
    requires Serving(d, x) && CanHandle(d)
    ensures var r := PollDevice(d, misc);
            || HasEnded(d, r, x)
            || (Serving(r, x) && r.m.cbw == d.m.cbw && r.m.ps == d.m.ps && Handle(d, misc).d.m.cs.None?)
  {
    ServingFacts(d, x);
    RoundIs(d, misc);
    PollDeviceTracks(d, misc);
    HandleServes(d, x, misc);
    var h := Handle(d, misc);
    if h.r.Ok? { PollServes(h.d.m, x); }
  }

  lemma RoundServes(d: Device, x: Extent, packet: seq<byte>, misc: Callback)
    requires Serving(d, x)
    ensures CanHandle(d)
    ensures var r := Round(d, packet, misc);
            HasEnded(d, r, x) || (Serving(r, x) && r.m.cbw == d.m.cbw && r.m.ps == d.m.ps)
  {
    ServingFacts(d, x);
    ReadyServes(d, x, packet);
    ServingFacts(Ready(d, packet), x);
    PollDeviceServes(Ready(d, packet), x, misc);
  }

  /** One round on a block command that fits: it passes, or there is strictly less to do. */
  lemma RoundProgress(d: Device, x: Extent, packet: seq<byte>, misc: Callback)
    requires Serving(d, x) && x.size <= d.m.cbw.len && 1 <= |packet| <= d.m.ps
    ensures CanHandle(d)
    ensures var r := Round(d, packet, misc);
            || HasPassed(r.m, x)
            || (Serving(r, x) && r.m.cbw == d.m.cbw && r.m.ps == d.m.ps && Todo(r, x) < Todo(d, x))
  {
    ServingFacts(d, x);
    var e := Ready(d, packet);
    ReadyServes(d, x, packet);
    ServingFacts(e, x);
    PollDeviceServes(e, x, misc);
    RoundIs(e, misc);
    HandleMoves(d, x, packet, misc);
    var h := Handle(e, misc);
    if h.d.m.cs.None? { PollCounts(d, h, x, packet); }
  }

  // ----- many rounds -----

  predicate Packets(packets: seq<seq<byte>>, ps: nat) {
    forall i :: 0 <= i < |packets| ==> 1 <= |packets[i]| <= ps
  }

  /** Rounds until the command has passed or the packets run out. */
  ghost function Rounds(d: Device, x: Extent, packets: seq<seq<byte>>, misc: Callback): (r: Device)
    requires Serving(d, x)
    ensures HasEnded(d, r, x) || (Serving(r, x) && r.m.cbw == d.m.cbw)
    decreases |packets|
  {
    if packets == [] then d else
    RoundServes(d, x, packets[0], misc);
    var r := Round(d, packets[0], misc);
    if HasPassed(r.m, x) then r else Rounds(r, x, packets[1..], misc)
  }

  /** Every block command whose direction is right and whose transfer length covers its blocks passes, after at
      most as many rounds as there are bytes to move plus one, whatever the packets. */
  lemma {:induction false} Passes(d: Device, x: Extent, packets: seq<seq<byte>>, misc: Callback)
    requires Serving(d, x) && x.size <= d.m.cbw.len
    requires Packets(packets, d.m.ps)
    requires |packets| > Todo(d, x)
    ensures HasPassed(Rounds(d, x, packets, misc).m, x)
    decreases |packets|
  {
    TodoIsPositive(d, x);
    RoundProgress(d, x, packets[0], misc);
    var r := Round(d, packets[0], misc);
    if !HasPassed(r.m, x) { Passes(r, x, packets[1..], misc); }
  }

  lemma TodoIsPositive(d: Device, x: Extent)
    requires Serving(d, x)
    ensures Todo(d, x) >= 0
  {
    ServingFacts(d, x);
  }

  // ----- exactly when -----

  /** A verdict on a Read took a transfer length, and one on a Write took bytes from the host, that cover the
      blocks. */
  lemma VerdictNeedsBytes(d: Device, x: Extent)
    requires Tracks(d) && d.m.ledger.cur.Some? && d.m.ledger.cur.value.status.Some?
    ensures d.disk.decode(d.m.ledger.cur.value.cbw) == ReadOp(x) ==> x.size <= InLen(d.m.ledger.cur.value.cbw)
    ensures d.disk.decode(d.m.ledger.cur.value.cbw) == WriteOp(x) ==> x.size <= |d.m.ledger.cur.value.received|
  {
    CurrentIsSane(d.m);
  }

  lemma CurrentIsSane(m: Machine)
    requires Good(m) && m.ledger.cur.Some?
    ensures Sane(m.ledger.cur.value)
  {
  }

  function OneByOne(n: nat): (packets: seq<seq<byte>>)
    ensures |packets| == n && Packets(packets, 1)
  {
    if n == 0 then [] else [[0]] + OneByOne(n - 1)
  }

  ghost predicate PassesWith(d: Device, x: Extent, packets: seq<seq<byte>>, misc: Callback)
    requires Serving(d, x)
  {
    HasPassed(Rounds(d, x, packets, misc).m, x)
  }

  lemma ShortReadWaits(d: Device, x: Extent, packets: seq<seq<byte>>, misc: Callback)
    requires Serving(d, x) && d.disk.decode(d.m.cbw) == ReadOp(x) && d.m.cbw.len < x.size
    ensures !PassesWith(d, x, packets, misc)
  {
    var r := Rounds(d, x, packets, misc);
    if HasEnded(d, r, x) {
      VerdictNeedsBytes(r, x);
    } else {
      ServingFacts(r, x);
    }
  }

  /** A Read ever passes if and only if the transfer length covers its blocks. A shorter one waits for ever. */
  lemma ReadPassesExactly(d: Device, x: Extent, misc: Callback)
    requires Serving(d, x) && d.disk.decode(d.m.cbw) == ReadOp(x)
    ensures (exists packets: seq<seq<byte>> :: PassesWith(d, x, packets, misc)) <==> x.size <= d.m.cbw.len
  {
    TodoIsPositive(d, x);
    if x.size <= d.m.cbw.len {
      Passes(d, x, OneByOne(Todo(d, x) + 1), misc);
      assert PassesWith(d, x, OneByOne(Todo(d, x) + 1), misc);
    } else {
      forall packets: seq<seq<byte>> ensures !PassesWith(d, x, packets, misc) {
        ShortReadWaits(d, x, packets, misc);
      }
    }
  }

  /** A call of the Write handler ends the command if and only if the host has sent the bytes of its blocks,
      whatever its transfer length says. */
  lemma WriteVerdictExactly(d: Device, x: Extent, misc: Callback)
    requires Tracks(d) && TakesStatus(d.m.state) && d.m.cs.None?
    requires d.disk.decode(d.m.cbw) == WriteOp(x) && CanHandle(d)
    ensures Handle(d, misc).d.m.cs.Some? <==> |d.m.ledger.cur.value.received| >= x.size
  {
    OfferedLedger(d.m);
    CurrentIsSane(d.m);
    WriteTakes(d.m, x.size - d.disk.offset);
    ArmVerdict(d, x);
    UnderWayOffset(d.disk, d.m.ledger, x);
  }

  /** The Write handler gives its verdict with the last byte. */
  lemma ArmVerdict(d: Device, x: Extent)
    requires TakesStatus(d.m.state) && d.m.cs.None? && Within(d.disk, x)
    ensures WriteArm(d, x).d.m.cs.Some? <==> d.disk.offset + |BytesTaken(d.m, x.size - d.disk.offset)| == x.size
  {
  }

  lemma UnderWayOffset(k: Disk, l: Ledger, x: Extent)
    requires Stored(k, l) && Open(l) && k.decode(l.cur.value.cbw) == WriteOp(x)
    ensures k.offset == |l.cur.value.delivered|
  {
  }

  /** What a read of the host's bytes gets, in any data phase. */
  lemma WriteTakes(m: Machine, room: nat)
    requires Good(m) && TakesStatus(m.state)
    ensures var c := m.ledger.cur.value;
            |c.delivered| <= |c.received| && |BytesTaken(m, room)| == Min(room, |c.received| - |c.delivered|)
  {
  }

  /** A call of the Read handler ends the command if and only if its blocks were all handed over. */
  lemma ReadVerdictExactly(d: Device, x: Extent, misc: Callback)
    requires Tracks(d) && TakesStatus(d.m.state) && d.m.cs.None?
    requires d.disk.decode(d.m.cbw) == ReadOp(x) && CanHandle(d)
    ensures Handle(d, misc).d.m.cs.Some? <==> |d.m.ledger.cur.value.accepted| == x.size
  {
    OfferedLedger(d.m);
  }

  /** From a host that keeps to its transfer length, a Write passes only if that covers its blocks. */
  lemma WriteNeedsLength(d: Device, x: Extent)
    requires Tracks(d) && d.m.ledger.cur.Some? && d.m.ledger.cur.value.status.Some?
    requires d.disk.decode(d.m.ledger.cur.value.cbw) == WriteOp(x)
    requires |d.m.ledger.cur.value.received| <= d.m.ledger.cur.value.cbw.len
    ensures x.size <= d.m.ledger.cur.value.cbw.len
  {
    VerdictNeedsBytes(d, x);
  }
}
