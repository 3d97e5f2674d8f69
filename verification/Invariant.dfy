/** The invariant of the transport: what state, status, counter, buffer and ledger keep together, and that
    every poll and every call keeps it. */
module Invariant {
  import opened Bytes
  import opened Codec
  import opened Ledgers
  import opened Transport

  /** The data part of a command's IN frame: the user's bytes in order, then padding. */
  function Payload(c: Cmd): (s: seq<byte>) {
    if c.cbw.dir == In then c.accepted + Fill(SatSub(c.cbw.len, |c.accepted|)) else []
  }

  function Residue(c: Cbw, processed: u32): (n: u32) {
    SatSub(c.len, processed)
  }

  /** The status wrapper a command's last status calls for. */
  function CswBytes(c: Cmd): (s: seq<byte>)
    requires c.status.Some?
    ensures |s| == CSW_LEN
  {
    EncodeCsw(Csw(c.cbw.tag, Residue(c.cbw, c.status.value.1), c.status.value.0))
  }

  /** True of every command from its acceptance on. */
  predicate Sane(c: Cmd) {
    && ValidCbw(c.cbw)
    && |c.raw| >= CBW_LEN
    && ParseCbw(c.raw[..CBW_LEN]) == Some(c.cbw)
    && |c.accepted| <= InLen(c.cbw)
    && c.delivered <= c.received
    && (c.cbw.dir != Out ==> c.received == [])
  }

  /** A finished command: the host got the payload and the status wrapper and nothing else, and the device
      took all the host was to send. */
  predicate Complete(c: Cmd) {
    && Sane(c)
    && c.status.Some?
    && c.sent == Payload(c) + CswBytes(c)
    && (c.cbw.dir == Out ==> |c.received| >= c.cbw.len)
  }

  predicate AllComplete(cmds: seq<Cmd>) {
    forall i :: 0 <= i < |cmds| ==> Complete(cmds[i])
  }

  /** No command is current. */
  predicate Idle(m: Machine) {
    && m.cs == None
    && m.left == 0
    && (m.ledger.cur.Some? ==> Complete(m.ledger.cur.value))
  }

  /** A command is current; the status in the machine is the last one the user set. */
  predicate Active(m: Machine) {
    && m.ledger.cur.Some?
    && m.ledger.raw == []
    && !m.inStalled && !m.outStalled
    && var c := m.ledger.cur.value;
       && Sane(c)
       && c.cbw == m.cbw
       && m.cs == (if c.status.None? then None
                   else Some(StatusAndResidue(c.status.value.0, Residue(c.cbw, c.status.value.1))))
  }

  /** Data-In: sent and buffered bytes are the user's, in order, then padding; the counter is exact. */
  predicate Sending(m: Machine, c: Cmd) {
    && m.cbw.dir == In
    && |c.sent| + m.left == m.cbw.len
    && |m.buf| <= m.left
    && |c.accepted| <= |c.sent| + |m.buf|
    && c.sent + m.buf == c.accepted + Fill(|c.sent| + |m.buf| - |c.accepted|)
  }

  /** Data-Out: nothing was sent, and the counter is what the host still has to deliver. */
  predicate Receiving(m: Machine, c: Cmd) {
    && m.cbw.dir == Out
    && c.sent == []
    && m.left == SatSub(m.cbw.len, |c.received|)
  }

  predicate InPhase(m: Machine) {
    match m.state
    case CommandTransfer =>
      Idle(m) && !m.inStalled && !m.outStalled && |m.buf| < CBW_LEN && m.buf == m.ledger.raw
    case CommandTransferInvalid =>
      Idle(m)
    case DataTransferNoData =>
      false
    case DataTransferToHost =>
      && Active(m)
      && Sending(m, m.ledger.cur.value)
      && |m.ledger.cur.value.accepted| == |m.ledger.cur.value.sent| + |m.buf|
    case DataTransferToHostEnding =>
      Active(m) && m.cs.Some? && Sending(m, m.ledger.cur.value)
    case DataTransferFromHost =>
      && Active(m)
      && Receiving(m, m.ledger.cur.value)
      && m.ledger.cur.value.delivered + m.buf == m.ledger.cur.value.received
    case DataTransferFromHostStatusAwait =>
      && Active(m)
      && Receiving(m, m.ledger.cur.value)
      && m.left == 0
      && m.ledger.cur.value.delivered + m.buf == m.ledger.cur.value.received
    case DataTransferFromHostEnding =>
      Active(m) && m.cs.Some? && Receiving(m, m.ledger.cur.value)
    case DataTransferStatusAwait =>
      && Active(m)
      && m.cbw.dir != Out
      && m.left == 0
      && m.buf == []
      && m.ledger.cur.value.sent == m.ledger.cur.value.accepted
      && |m.ledger.cur.value.sent| == InLen(m.cbw)
    case StatusTransfer =>
      && Active(m)
      && m.cs.Some?
      && m.left == 0
      && |m.buf| <= CSW_LEN
      && (m.cbw.dir == Out ==> |m.ledger.cur.value.received| >= m.cbw.len)
      && var c := m.ledger.cur.value;
         && c.sent == Payload(c) + CswBytes(c)[..CSW_LEN - |m.buf|]
         && m.buf == CswBytes(c)[CSW_LEN - |m.buf|..]
  }

  predicate Good(m: Machine) {
    && Configured(m.ps, m.cap)
    && |m.buf| <= m.cap
    && |m.cbw.block| == 16 && m.cbw.blockLen <= 16
    && m.ledger.stray == []
    && AllComplete(m.ledger.done)
    && InPhase(m)
  }

  lemma InitGood(ps: nat, cap: nat)
    requires Configured(ps, cap)
    ensures Good(Init(ps, cap))
  {
  }

  lemma ResetGood(m: Machine)
    requires Good(m)
    ensures Good(Reset(m))
  {
  }

  lemma SetStatusGood(m: Machine, status: CommandStatus, processed: u32)
    requires Good(m) && TakesStatus(m.state)
    ensures Good(SetStatus(m, status, processed))
  {
  }

  lemma WriteDataGood(m: Machine, src: seq<byte>)
    requires Good(m)
    ensures Good(WriteData(m, src).m)
  {
    if m.state == DataTransferToHost {
      var c := m.ledger.cur.value;
      var o := WriteData(m, src);
      var c' := o.m.ledger.cur.value;
      assert c.sent + m.buf == c.accepted;
      assert c'.sent + o.m.buf == c'.accepted;
    }
  }

  lemma TryWriteDataAllGood(m: Machine, src: seq<byte>)
    requires Good(m)
    ensures Good(TryWriteDataAll(m, src).m)
  {
    if TryWriteDataAll(m, src).r.Ok? {
      WriteDataGood(m, src);
      assert src[..|src|] == src;
      assert TryWriteDataAll(m, src).m == WriteData(m, src).m;
    }
  }

  lemma ReadDataGood(m: Machine, room: nat)
    requires Good(m)
    ensures Good(ReadData(m, room).m)
  {
    var o := ReadData(m, room);
    if o.r.Ok? {
      var c := m.ledger.cur.value;
      var c' := o.m.ledger.cur.value;
      assert c'.delivered + o.m.buf == c.delivered + m.buf;
    }
  }

  /** Starting the status phase: the whole payload is out and the buffer becomes the status wrapper. */
  lemma StartStatusGood(m: Machine)
    requires Good(m) && Active(m) && m.cs.Some? && m.left == 0
    requires m.state != StatusTransfer
    ensures Good(StartStatus(m).m)
  {
    var c := m.ledger.cur.value;
    assert c.sent == Payload(c) by {
      if m.cbw.dir == In {
        assert m.buf == [];
        assert c.sent + m.buf == c.sent;
      }
    }
    var s := m.(buf := EncodeCsw(CswOf(m.cbw, m.cs.value)), state := StatusTransfer);
    assert Good(s) by {
      assert c.sent + [] == c.sent;
    }
    SendStatusGood(s);
  }

  /** Moving `n` bytes from the unsent end of `w` to its sent front. */
  lemma AdvanceThrough(w: seq<byte>, before: seq<byte>, sent: seq<byte>, rest: seq<byte>, n: nat)
    requires n <= |rest| <= |w|
    requires sent == before + w[..|w| - |rest|]
    requires rest == w[|w| - |rest|..]
    ensures sent + rest[..n] == before + w[..|w| - |rest[n..]|]
    ensures rest[n..] == w[|w| - |rest[n..]|..]
  {
    var k := |w| - |rest|;
    assert w[..k] + rest[..n] == w[..k + n];
  }

  lemma SendStatusGood(m: Machine)
    requires Good(m) && m.state == StatusTransfer
    ensures Good(WritePacket(m).m)
  {
    var o := WritePacket(m);
    var c := m.ledger.cur.value;
    if m.buf != [] && o.r.Ok? {
      var n := o.r.value;
      AdvanceThrough(CswBytes(c), Payload(c), c.sent, m.buf, n);
      var c' := o.m.ledger.cur.value;
      assert c'.sent == c.sent + m.buf[..n] && Payload(c') == Payload(c) && CswBytes(c') == CswBytes(c);
    }
  }

  /** Sending one packet of data keeps the account of a Data-In transfer. */
  lemma SendPacketGood(m: Machine)
    requires Good(m)
    requires m.state == DataTransferToHost || m.state == DataTransferToHostEnding
    ensures Good(Mark(WritePacket(m)).m)
  {
    var o := WritePacket(m);
    var c := m.ledger.cur.value;
    if m.buf != [] && o.r.Ok? {
      Resplit(c.sent, m.buf, o.r.value);
    }
  }

  lemma Resplit(sent: seq<byte>, buf: seq<byte>, n: nat)
    requires n <= |buf|
    ensures (sent + buf[..n]) + buf[n..] == sent + buf
  {
  }

  lemma SendRestGood(m: Machine)
    requires Good(m) && m.state == DataTransferToHostEnding
    ensures Good(SendRest(m).m)
  {
    var due := Min(m.left, m.ps);
    if due == 0 {
      StartStatusGood(m);
    } else {
      var more := Min(SatSub(due, |m.buf|), SatSub(m.cap, |m.buf|));
      var p := m.(buf := m.buf + Fill(more));
      var c := m.ledger.cur.value;
      assert c.sent + p.buf == c.accepted + Fill(|c.sent| + |p.buf| - |c.accepted|) by {
        assert c.sent + p.buf == (c.sent + m.buf) + Fill(more);
      }
      assert Good(p);
      SendPacketGood(p);
    }
  }

  /** Taking one packet keeps the account of a Data-Out transfer. */
  lemma TakePacketGood(m: Machine)
    requires Good(m)
    requires m.state == DataTransferFromHost || m.state == DataTransferFromHostEnding
    ensures Good(Mark(ReadPacket(m)).m)
  {
    var o := ReadPacket(m);
    if o.r.Ok? {
      var c := m.ledger.cur.value;
      var d := m.outs[0].data;
      assert c.delivered + (m.buf + d) == (c.delivered + m.buf) + d;
    }
  }

  lemma DropRestGood(m: Machine)
    requires Good(m) && m.state == DataTransferFromHostEnding
    ensures Good(DropRest(m).m)
  {
    if m.left > 0 {
      TakePacketGood(m.(buf := []));
    } else {
      StartStatusGood(m);
    }
  }

  lemma BeginGood(m: Machine, c: Cbw)
    requires Good(m.(buf := [], ledger := m.ledger.(raw := []))) && m.state == CommandTransfer
    requires |m.ledger.raw| >= CBW_LEN && ParseCbw(m.ledger.raw[..CBW_LEN]) == Some(c)
    ensures Good(Begin(m, c).m)
  {
    var started := m.(cbw := c, left := c.len, buf := [], ledger := NoteCbw(m.ledger, c));
    match c.dir {
      case Out => TakePacketGood(started.(state := DataTransferFromHost));
      case In =>
        var t := started.(state := DataTransferToHost);
        assert Good(t);
        SendPacketGood(t);
      case NotExpected =>
    }
  }

  lemma ReadCbwGood(m: Machine)
    requires Good(m) && m.state == CommandTransfer
    ensures Good(ReadCbw(m).m)
  {
    var got := ReadPacket(m);
    if got.r.Ok? && |got.m.buf| >= CBW_LEN && ParseCbw(got.m.buf[..CBW_LEN]).Some? {
      BeginGood(got.m, ParseCbw(got.m.buf[..CBW_LEN]).value);
    }
  }

  lemma AwaitStatusGood(m: Machine)
    requires Good(m)
    requires m.state == DataTransferStatusAwait || m.state == DataTransferFromHostStatusAwait
    ensures Good(AwaitStatus(m).m)
  {
    if m.cs.Some? { StartStatusGood(m); }
  }

  lemma PollToHostGood(m: Machine)
    requires Good(m) && m.state == DataTransferToHost
    ensures Good(Poll(m).m)
  {
    if m.left == 0 {
      var w := m.(state := DataTransferStatusAwait);
      assert m.ledger.cur.value.sent + m.buf == m.ledger.cur.value.sent;
      assert Good(w);
      AwaitStatusGood(w);
    } else if m.cs.Some? {
      SendRestGood(m.(state := DataTransferToHostEnding));
    } else {
      SendPacketGood(m);
    }
  }

  lemma PollFromHostGood(m: Machine)
    requires Good(m) && m.state == DataTransferFromHost
    ensures Good(Poll(m).m)
  {
    if m.left == 0 {
      AwaitStatusGood(m.(state := DataTransferFromHostStatusAwait));
    } else if m.cs.Some? {
      DropRestGood(m.(state := DataTransferFromHostEnding));
    } else {
      TakePacketGood(m);
    }
  }

  lemma PollStatusGood(m: Machine)
    requires Good(m) && m.state == StatusTransfer
    ensures Good(Poll(m).m)
  {
    if m.buf == [] {
      ReadCbwGood(EnterCommandTransfer(m));
    } else {
      SendStatusGood(m);
    }
  }

  /** The central preservation step. */
  lemma PollGood(m: Machine)
    requires Good(m)
    ensures Good(Poll(m).m)
  {
    match m.state {
      case CommandTransfer => ReadCbwGood(m);
      case CommandTransferInvalid =>
      case DataTransferToHost => PollToHostGood(m);
      case DataTransferToHostEnding => SendRestGood(m);
      case DataTransferFromHost => PollFromHostGood(m);
      case DataTransferFromHostEnding => DropRestGood(m);
      case StatusTransfer => PollStatusGood(m);
      case DataTransferFromHostStatusAwait => AwaitStatusGood(m);
      case DataTransferStatusAwait => AwaitStatusGood(m);
    }
  }
}
