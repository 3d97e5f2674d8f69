/** The transport as the device runs it: fields updated in place, data in the sliding buffer, and handlers
    that call each other. Every method does what the machine on values does. The handlers form a cycle
    (status transfer, read CBW, start data transfer, no data, status await, status transfer); it cannot be
    taken twice because re-entering the command phase drops the status, which is what `decreases` says. */
module BulkOnlyTransport {
  import opened Bytes
  import opened Codec
  import opened Ledgers
  import opened Transport
  import opened Invariant
  import opened IoBuffer

  /** The buffer went through `WriteAll` with the OUT endpoint as its closure. */
  ghost predicate Filled(m: Machine, slice: seq<byte>, after: seq<OutReply>, contents: seq<byte>, r: Answer<nat>) {
    && |slice| == m.ps
    && after == EndpointRead(m.outs, slice).0
    && Absorbed(m.buf, contents, EndpointRead(m.outs, slice).1, EndpointRead(m.outs, slice).2, r)
  }

  lemma ReadPacketMatches(m: Machine, slice: seq<byte>, after: seq<OutReply>, contents: seq<byte>, r: Answer<nat>)
    requires m.cap - |m.buf| >= m.ps
    requires Filled(m, slice, after, contents, r)
    ensures r.Ok? ==> m.buf <= contents
    ensures ReadPacket(m) ==
            Outcome(m.(outs := after, buf := contents,
                       ledger := if r.Ok? then NoteTaken(m.ledger, contents[|m.buf|..]) else m.ledger), r)
  {
    if r.Ok? {
      assert contents == m.buf + m.outs[0].data;
    }
  }

  /** Starting a transfer is polling its first state. */
  lemma BeginIsPoll(m: Machine, c: Cbw, n: Machine)
    requires m.cs.None? && (c.len == 0 <==> c.dir == NotExpected)
    requires n == m.(cbw := c, left := c.len, buf := [], ledger := NoteCbw(m.ledger, c))
    ensures Begin(m, c) == Transport.Poll(n.(state := match c.dir
                                                      case Out => DataTransferFromHost
                                                      case In => DataTransferToHost
                                                      case NotExpected => DataTransferNoData))
  {
  }

  class BulkOnly {
    const ps: nat
    const buf: Buffer
    var state: State
    var cbw: Cbw
    var cs: Option<StatusAndResidue>
    var left: u32
    var inStalled: bool
    var outStalled: bool
    var outs: seq<OutReply> // the OUT endpoint
    var ins: seq<InReply> // the IN endpoint
    ghost var ledger: Ledger

    ghost predicate Ready()
      reads this, buf
    {
      buf.Valid() && Configured(ps, buf.inner.Length)
    }

    ghost function View(): (m: Machine)
      requires buf.Valid()
      reads this, buf, buf.inner
    {
      Machine(ps, buf.inner.Length, state, buf.Contents(), cbw, cs, left, inStalled, outStalled,
              outs, ins, ledger)
    }

    ghost predicate Valid()
      reads this, buf, buf.inner
    {
      Ready() && Good(View())
    }

    constructor Init(packetSize: nat, storage: array<byte>)
      requires packetSize <= storage.Length && CBW_LEN <= storage.Length
      ensures buf.Valid() && fresh(buf) && buf.inner == storage
      ensures View() == Transport.Init(packetSize, storage.Length)
      ensures packetSize > 0 ==> Valid()
    {
      ps := packetSize;
      buf := new Buffer(storage);
      state, cbw, cs, left := CommandTransfer, DEFAULT_CBW, None, 0;
      inStalled, outStalled, outs, ins := false, false, [], [];
      ledger := EMPTY;
      new;
      if packetSize > 0 { InitGood(ps, buf.inner.Length); }
    }

    /** `new`: refuses a LUN beyond 15 and a buffer too small for a wrapper or a packet. A packet size of 0 passes;
        what comes of that is in `Reassembly.ZeroPacketsAreDeaf`. */
    static method New(packetSize: nat, maxLun: byte, storage: array<byte>)
      returns (r: Result<BulkOnly, BulkOnlyError>)
      ensures r.Ok? <==> maxLun <= 0x0F && packetSize <= storage.Length && CBW_LEN <= storage.Length
      ensures r.Err? ==> r.error == if maxLun > 0x0F then InvalidMaxLun else BufferTooSmall
      ensures r.Ok? ==> fresh(r.value) && r.value.buf.Valid() && r.value.buf.inner == storage
      ensures r.Ok? ==> r.value.View() == Transport.Init(packetSize, storage.Length)
      ensures r.Ok? && packetSize > 0 ==> r.value.Valid()
    {
      if maxLun > 0x0F {
        return Err(InvalidMaxLun);
      }
      if storage.Length < CBW_LEN || storage.Length < packetSize {
        return Err(BufferTooSmall);
      }
      var t := new BulkOnly.Init(packetSize, storage);
      r := Ok(t);
    }

    // ----- user calls -----

    method SetStatus(status: CommandStatus, processed: u32)
      requires Valid() && TakesStatus(state)
      modifies this
      ensures Valid() && View() == Transport.SetStatus(old(View()), status, processed)
    {
      SetStatusGood(View(), status, processed);
      cs := Some(StatusAndResidue(status, SatSub(cbw.len, processed)));
      ledger := NoteStatus(ledger, status, processed);
    }

    function GetCommand(): (r: Option<CommandBlock>)
      requires Valid()
      reads this, buf, buf.inner
      ensures r == Transport.GetCommand(View())
      ensures r.Some? ==> 1 <= |r.value.bytes| <= 16
    {
      if state == CommandTransfer || state == CommandTransferInvalid then None
      else Some(CommandBlock(cbw.block[..cbw.blockLen], cbw.lun))
    }

    function HasStatus(): (b: bool)
      reads this
    {
      cs.Some?
    }

    method ReadData(dst: seq<byte>) returns (newDst: seq<byte>, r: Answer<nat>)
      requires Valid()
      modifies this, buf, buf.inner
      ensures Valid()
      ensures var o := Transport.ReadData(old(View()), |dst|);
              && View() == o.m
              && match o.r
                 case Err(e) => r == Err(e) && newDst == dst
                 case Ok(bytes) => r == Ok(|bytes|) && newDst == bytes + dst[|bytes|..]
    {
      if state != DataTransferFromHost && state != DataTransferFromHostStatusAwait {
        return dst, Err(Error(InvalidState));
      }
      ReadDataGood(View(), |dst|);
      var count;
      newDst, count := Deliver(dst);
      r := Ok(count);
    }

    /** The buffer half of `read_data`. */
    method Deliver(dst: seq<byte>) returns (newDst: seq<byte>, count: nat)
      requires Ready()
      modifies this, buf, buf.inner
      ensures Ready()
      ensures count == Min(|dst|, |old(buf.Contents())|)
      ensures newDst == old(buf.Contents())[..count] + dst[count..]
      ensures View() == old(View()).(buf := old(buf.Contents())[count..],
                                     ledger := NoteDelivered(old(ledger), old(buf.Contents())[..count]))
    {
      ghost var queue := buf.Contents();
      var copy: SliceFn<seq<byte>, ()> := (d: seq<byte>, w: seq<byte>) =>
        var n := Min(|d|, |w|);
        (w[..n] + d[n..], w, Ok(n));
      var n;
      newDst, n := buf.Read(dst, copy);
      count := n.value;
      ledger := NoteDelivered(ledger, queue[..count]);
    }

    method WriteData(src: seq<byte>) returns (r: Answer<nat>)
      requires Valid()
      modifies this, buf, buf.inner
      ensures Valid()
      ensures Transport.WriteData(old(View()), src) == Outcome(View(), r)
    {
      if state != DataTransferToHost {
        return Err(Error(InvalidState));
      }
      WriteDataGood(View(), src);
      var count := Accept(src);
      r := Ok(count);
    }

    /** The buffer half of `write_data`. */
    method Accept(src: seq<byte>) returns (count: nat)
      requires Ready()
      modifies this, buf, buf.inner
      ensures Ready()
      ensures count == old(Min(Min(|src|, AllowedToAppend(View())), buf.inner.Length - |buf.Contents()|))
      ensures View() == old(View()).(buf := old(buf.Contents()) + src[..count],
                                     ledger := NoteAccepted(old(ledger), src[..count]))
    {
      var allowed := AllowedToAppendToDataTransfer();
      count := buf.Write(src[..Min(|src|, allowed)]);
      assert src[..Min(|src|, allowed)][..count] == src[..count];
      ledger := NoteAccepted(ledger, src[..count]);
    }

    method TryWriteDataAll(src: seq<byte>) returns (r: Answer<()>)
      requires Valid()
      modifies this, buf, buf.inner
      ensures Valid()
      ensures Transport.TryWriteDataAll(old(View()), src) == Outcome(View(), r)
    {
      if state != DataTransferToHost {
        return Err(Error(InvalidState));
      }
      if |src| > AllowedToAppendToDataTransfer() {
        return Err(Error(TransferLengthExceeded));
      }
      TryWriteDataAllGood(View(), src);
      r := PutAll(src);
    }

    /** The buffer half of `try_write_data_all`. */
    method PutAll(src: seq<byte>) returns (r: Answer<()>)
      requires Ready()
      modifies this, buf, buf.inner
      ensures Ready()
      ensures buf.inner.Length - |old(buf.Contents())| < |src| ==>
                r == Err(Error(IoBufferOverflow)) && View() == old(View())
      ensures buf.inner.Length - |old(buf.Contents())| >= |src| ==>
                && r == Ok(())
                && View() == old(View()).(buf := old(buf.Contents()) + src, ledger := NoteAccepted(old(ledger), src))
    {
      var put: SliceFn<(), TransportError> := (_: (), w: seq<byte>) =>
        ((), src + w[Min(|src|, |w|)..], Ok(|src|));
      ghost var queue := buf.Contents();
      var _, count, slice := buf.WriteAll(|src|, Error(IoBufferOverflow), (), put);
      assert buf.inner.Length - |queue| >= |src| ==> put((), slice).1[..|src|] == src;
      if count.Err? {
        return Err(count.error);
      }
      ledger := NoteAccepted(ledger, src);
      r := Ok(());
    }

    function AllowedToAppendToDataTransfer(): (n: nat)
      requires buf.Valid()
      reads this, buf, buf.inner
      ensures n == AllowedToAppend(View())
    {
      SatSub(left, buf.AvailableRead() % U32_LIMIT)
    }

    method Reset()
      requires Valid()
      modifies this, buf
      ensures Valid() && View() == Transport.Reset(old(View()))
    {
      ResetGood(View());
      EnterStateCommandTransfer();
      ledger := EMPTY;
    }

    // ----- packets -----

    method ReadPacket() returns (r: Answer<nat>)
      requires Ready()
      modifies this, buf, buf.inner
      ensures Ready() && Transport.ReadPacket(old(View())) == Outcome(View(), r)
    {
      ghost var before := View();
      var after, count, slice := buf.WriteAll(ps, Error(IoBufferOverflow), outs, EndpointRead);
      r := count;
      if before.cap - |before.buf| >= ps {
        ReadPacketMatches(before, slice, after, buf.Contents(), r);
      }
      if r.Ok? {
        ledger := NoteTaken(ledger, buf.Contents()[|before.buf|..]);
      }
      outs := after;
    }

    /** The closure of `write_packet`. */
    static function WriteSlice(packetSize: nat, ep: seq<InReply>, w: seq<byte>)
      : (r: (seq<InReply>, seq<byte>, Answer<nat>))
      ensures r.1 == w
    {
      if w == [] then
        (ep, w, Ok(0))
      else
        var (after, count) := EndpointWrite(ep, w[..Min(packetSize, |w|)]);
        (after, w, count)
    }

    method WritePacket() returns (r: Answer<nat>)
      requires Ready()
      modifies this, buf, buf.inner
      ensures Ready() && Transport.WritePacket(old(View())) == Outcome(View(), r)
    {
      ghost var queue := buf.Contents();
      var packetSize := ps;
      var send: SliceFn<seq<InReply>, TransportError> := (ep: seq<InReply>, w: seq<byte>) =>
        WriteSlice(packetSize, ep, w);
      ins, r := buf.Read(ins, send);
      if r.Ok? && queue != [] {
        ledger := NoteSent(ledger, queue[..r.value]);
      }
    }

    method TryWriteFullPacket() returns (r: Answer<nat>)
      requires Ready()
      modifies this, buf, buf.inner
      ensures Ready()
      ensures old(|buf.Contents()|) < ps ==> View() == old(View()) && r == Err(Error(FullPacketExpected))
      ensures old(|buf.Contents()|) >= ps ==> Transport.WritePacket(old(View())) == Outcome(View(), r)
    {
      if buf.AvailableRead() < ps {
        return Err(Error(FullPacketExpected));
      }
      r := WritePacket();
    }

    method MarkAsTransferred(count: nat)
      modifies this`left
      ensures left == SatSub(old(left), count)
    {
      left := SatSub(left, count);
    }

    // ----- entering states -----

    method EnterStateCommandTransfer()
      requires buf.Valid()
      modifies this, buf
      ensures buf.Valid() && View() == EnterCommandTransfer(old(View()))
    {
      cs := None;
      left := 0;
      inStalled := false;
      outStalled := false;
      buf.Clear();
      state := CommandTransfer;
    }

    /** `build_csw`. */
    method BuildCsw() returns (r: Option<seq<byte>>)
      ensures r == if cs.None? then None else Some(EncodeCsw(CswOf(cbw, cs.value)))
    {
      if cs.None? {
        return None;
      }
      var csw := new byte[CSW_LEN](_ => 0);
      var tag, residue := Le32(cbw.tag), Le32(cs.value.residue);
      forall i | 0 <= i < 4 { csw[i] := CSW_SIGNATURE[i]; }
      forall i | 0 <= i < 4 { csw[4 + i] := tag[i]; }
      forall i | 0 <= i < 4 { csw[8 + i] := residue[i]; }
      csw[12] := StatusCode(cs.value.status);
      assert csw[..] == CSW_SIGNATURE + tag + residue + [StatusCode(cs.value.status)];
      r := Some(csw[..]);
    }

    method EnterStateStatusTransfer()
      requires Ready() && cs.Some?
      modifies this, buf, buf.inner
      ensures Ready()
      ensures View() == old(View()).(buf := EncodeCsw(CswOf(old(cbw), old(cs).value)), state := StatusTransfer)
    {
      var csw := BuildCsw();
      assert csw.Some?;
      buf.Clear();
      var count := buf.Write(csw.value);
      assert csw.value[..count] == csw.value;
      state := StatusTransfer;
    }

    // ----- handlers -----

    method HandleReadCbw() returns (r: Answer<()>)
      requires Ready() && state == CommandTransfer && cs.None?
      modifies this, buf, buf.inner
      ensures Ready() && ReadCbw(old(View())) == Outcome(View(), r)
      decreases cs.Some?, 6
    {
      assert state == CommandTransfer;
      var n := ReadPacket();
      if n.Err? {
        return Err(n.error);
      }
      if buf.AvailableRead() >= CBW_LEN {
        var parsed := TryParseCbw();
        match parsed {
          case Some(c) =>
            r := StartDataTransfer(c);
          case None =>
            state := CommandTransferInvalid;
            r := HandleCbwInvalid();
        }
        return;
      }
      r := Ok(());
    }

    method HandleCbwInvalid() returns (r: Answer<()>)
      requires Ready() && state == CommandTransferInvalid
      modifies this
      ensures Ready() && Transport.Poll(old(View())) == Outcome(View(), r)
    {
      assert state == CommandTransferInvalid;
      inStalled := true;
      outStalled := true;
      r := Ok(());
    }

    method TryParseCbw() returns (r: Option<Cbw>)
      requires Ready() && |buf.Contents()| >= CBW_LEN
      modifies buf, buf.inner
      ensures Ready()
      ensures View() == old(View()).(buf := old(buf.Contents())[CBW_LEN..])
      ensures r == ParseCbw(old(buf.Contents())[..CBW_LEN])
    {
      assert buf.AvailableRead() >= CBW_LEN;
      var copy: SliceFn<seq<byte>, ()> := (raw: seq<byte>, w: seq<byte>) =>
        (if |w| >= CBW_LEN then w[..CBW_LEN] else raw, w, Ok(CBW_LEN));
      var raw, _ := buf.Read([], copy);
      r := ParseCbw(raw);
    }

    method StartDataTransfer(c: Cbw) returns (r: Answer<()>)
      requires Ready() && state == CommandTransfer && cs.None? && ValidCbw(c)
      modifies this, buf, buf.inner
      ensures Ready() && Begin(old(View()), c) == Outcome(View(), r)
      decreases cs.Some?, 5
    {
      assert state == CommandTransfer;
      cbw := c;
      left := c.len;
      buf.Clear();
      ledger := NoteCbw(ledger, c);
      BeginIsPoll(old(View()), c, View());
      match c.dir {
        case Out =>
          state := DataTransferFromHost;
          r := HandleDataTransferFromHost();
        case In =>
          state := DataTransferToHost;
          r := HandleDataTransferToHost();
        case NotExpected =>
          state := DataTransferNoData;
          r := HandleDataTransferNoData();
      }
    }

    method HandleDataTransferNoData() returns (r: Answer<()>)
      requires Ready() && state == DataTransferNoData
      modifies this, buf, buf.inner
      ensures Ready() && Transport.Poll(old(View())) == Outcome(View(), r)
      decreases cs.Some?, 4
    {
      assert state == DataTransferNoData;
      state := DataTransferStatusAwait;
      r := HandleDataTransferStatusAwait();
    }

    method HandleDataTransferToHost() returns (r: Answer<()>)
      requires Ready() && state == DataTransferToHost && |buf.Contents()| <= left
      modifies this, buf, buf.inner
      ensures Ready() && Transport.Poll(old(View())) == Outcome(View(), r)
      decreases cs.Some?, 4
    {
      assert state == DataTransferToHost;
      assert buf.AvailableRead() <= left;
      if left == 0 {
        state := DataTransferStatusAwait;
        r := HandleDataTransferStatusAwait();
        return;
      }
      if HasStatus() {
        state := DataTransferToHostEnding;
        r := HandleDataTransferToHostEnding();
        return;
      }
      var sent;
      if left < ps {
        sent := WritePacket();
      } else {
        sent := TryWriteFullPacket();
      }
      if sent.Err? {
        return Err(sent.error);
      }
      MarkAsTransferred(sent.value);
      r := Ok(());
    }

    method HandleStatusTransfer() returns (r: Answer<()>)
      requires Ready() && state == StatusTransfer && cs.Some?
      modifies this, buf, buf.inner
      ensures Ready() && Transport.Poll(old(View())) == Outcome(View(), r)
      decreases cs.Some?, 2
    {
      assert state == StatusTransfer;
      if buf.AvailableRead() == 0 {
        EnterStateCommandTransfer();
        r := HandleReadCbw();
        return;
      }
      var n := WritePacket();
      r := if n.Err? then Err(n.error) else Ok(());
    }

    method HandleDataTransferStatusAwait() returns (r: Answer<()>)
      requires Ready()
      requires state == DataTransferStatusAwait || state == DataTransferFromHostStatusAwait
      modifies this, buf, buf.inner
      ensures Ready() && Transport.Poll(old(View())) == Outcome(View(), r)
      decreases cs.Some?, 3
    {
      assert state == DataTransferStatusAwait || state == DataTransferFromHostStatusAwait;
      r := Ok(());
      if HasStatus() {
        EnterStateStatusTransfer();
        r := HandleStatusTransfer();
      }
    }

    method HandleDataTransferToHostEnding() returns (r: Answer<()>)
      requires Ready() && state == DataTransferToHostEnding && |buf.Contents()| <= left && cs.Some?
      modifies this, buf, buf.inner
      ensures Ready() && Transport.Poll(old(View())) == Outcome(View(), r)
      decreases cs.Some?, 3
    {
      assert state == DataTransferToHostEnding;
      assert buf.AvailableRead() <= left;
      var hasToSend := Min(left, ps);
      if hasToSend == 0 {
        EnterStateStatusTransfer();
        r := HandleStatusTransfer();
        return;
      }
      var available := buf.AvailableRead();
      if available < hasToSend {
        buf.FillUpTo(0xFF, SatSub(hasToSend, available));
      }
      assert buf.Contents() == old(buf.Contents())
                               + Fill(Min(SatSub(hasToSend, available), SatSub(buf.inner.Length, available)));
      var sent := WritePacket();
      if sent.Err? {
        return Err(sent.error);
      }
      MarkAsTransferred(sent.value);
      r := Ok(());
    }

    method HandleDataTransferFromHost() returns (r: Answer<()>)
      requires Ready() && state == DataTransferFromHost
      modifies this, buf, buf.inner
      ensures Ready() && Transport.Poll(old(View())) == Outcome(View(), r)
      decreases cs.Some?, 4
    {
      assert state == DataTransferFromHost;
      if left == 0 {
        state := DataTransferFromHostStatusAwait;
        r := HandleDataTransferStatusAwait();
        return;
      }
      if HasStatus() {
        state := DataTransferFromHostEnding;
        r := HandleDataTransferFromHostEnding();
        return;
      }
      var taken := ReadPacket();
      if taken.Err? {
        return Err(taken.error);
      }
      MarkAsTransferred(taken.value);
      r := Ok(());
    }

    method HandleDataTransferFromHostEnding() returns (r: Answer<()>)
      requires Ready() && state == DataTransferFromHostEnding && cs.Some?
      modifies this, buf, buf.inner
      ensures Ready() && Transport.Poll(old(View())) == Outcome(View(), r)
      decreases cs.Some?, 3
    {
      assert state == DataTransferFromHostEnding;
      if left > 0 {
        buf.Clear();
        var taken := ReadPacket();
        if taken.Err? {
          return Err(taken.error);
        }
        MarkAsTransferred(taken.value);
      } else {
        EnterStateStatusTransfer();
        r := HandleStatusTransfer();
        return;
      }
      r := Ok(());
    }

    method Poll() returns (r: Answer<()>)
      requires Valid()
      modifies this, buf, buf.inner
      ensures Valid() && Transport.Poll(old(View())) == Outcome(View(), r)
    {
      PollGood(View());
      r := Dispatch();
    }

    /** The body of `poll`, under just what the handlers assert. */
    method Dispatch() returns (r: Answer<()>)
      requires Ready()
      requires state == CommandTransfer ==> cs.None?
      requires NeedsStatus(state) ==> cs.Some?
      requires state == DataTransferToHost || state == DataTransferToHostEnding ==> |buf.Contents()| <= left
      modifies this, buf, buf.inner
      ensures Ready() && Transport.Poll(old(View())) == Outcome(View(), r)
    {
      match state {
        case CommandTransfer => r := HandleReadCbw();
        case CommandTransferInvalid => r := HandleCbwInvalid();
        case DataTransferNoData => r := HandleDataTransferNoData();
        case DataTransferToHost => r := HandleDataTransferToHost();
        case DataTransferToHostEnding => r := HandleDataTransferToHostEnding();
        case DataTransferFromHost => r := HandleDataTransferFromHost();
        case DataTransferFromHostEnding => r := HandleDataTransferFromHostEnding();
        case StatusTransfer => r := HandleStatusTransfer();
        case DataTransferFromHostStatusAwait => r := HandleDataTransferStatusAwait();
        case DataTransferStatusAwait => r := HandleDataTransferStatusAwait();
      }
    }
  }
}
