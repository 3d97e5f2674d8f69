/** The Bulk-Only Transport as a machine on values. `Poll` is flat: one case per state, each doing at most
    the endpoint operations the device does in one poll. The class in BulkOnly.dfy reaches the same result
    through handlers that call each other. */
module Transport {
  import opened Bytes
  import opened Codec
  import opened Ledgers

  datatype UsbError = WouldBlock | BufferOverflow | Other(code: nat)

  datatype BulkOnlyError =
    | IoBufferOverflow
    | InvalidMaxLun
    | InvalidState
    | FullPacketExpected
    | BufferTooSmall
    | TransferLengthExceeded

  datatype TransportError = Usb(usb: UsbError) | Error(bbb: BulkOnlyError)

  type Answer<+T> = Result<T, TransportError>

  datatype State =
    | CommandTransfer
    | CommandTransferInvalid
    | DataTransferNoData
    | StatusTransfer
    | DataTransferToHost
    | DataTransferToHostEnding
    | DataTransferFromHost
    | DataTransferFromHostStatusAwait
    | DataTransferFromHostEnding
    | DataTransferStatusAwait

  datatype StatusAndResidue = StatusAndResidue(status: CommandStatus, residue: u32)

  /** What the OUT endpoint answers to one read: a host packet, or an error without effect. */
  datatype OutReply = Packet(data: seq<byte>) | OutFails(error: UsbError)

  /** What the IN endpoint answers to one write: it takes up to `n` bytes, or fails without effect. */
  datatype InReply = Takes(n: nat) | InFails(error: UsbError)

  /** `outs` and `ins` are the answers the endpoints will give to the next reads and writes; past their end
      an endpoint answers `WouldBlock`. */
  datatype Machine = Machine(
    ps: nat,
    cap: nat,
    state: State,
    buf: seq<byte>,
    cbw: Cbw,
    cs: Option<StatusAndResidue>,
    left: u32,
    inStalled: bool,
    outStalled: bool,
    outs: seq<OutReply>,
    ins: seq<InReply>,
    ledger: Ledger)

  predicate SameDevice(m: Machine, n: Machine) {
    m.ps == n.ps && m.cap == n.cap
  }

  datatype Outcome<+T> = Outcome(m: Machine, r: Answer<T>)

  /** The check in `new`; the packet size itself is the caller's, one of 8, 16, 32 and 64. */
  predicate Configured(ps: nat, cap: nat) {
    0 < ps <= cap && CBW_LEN <= cap
  }

  function Init(ps: nat, cap: nat): (m: Machine) {
    Machine(ps, cap, CommandTransfer, [], DEFAULT_CBW, None, 0, false, false, [], [], EMPTY)
  }

  // ----- endpoints -----

  /** `Endpoint::read` into a slice: a packet that does not fit is an error. */
  function EndpointRead(outs: seq<OutReply>, slice: seq<byte>): (r: (seq<OutReply>, seq<byte>, Answer<nat>))
    ensures |r.1| == |slice|
    ensures r.2.Ok? ==> r.2.value <= |slice|
  {
    if outs == [] then
      (outs, slice, Err(Usb(WouldBlock)))
    else match outs[0]
      case OutFails(e) => (outs[1..], slice, Err(Usb(e)))
      case Packet(d) =>
        if |d| > |slice| then
          (outs[1..], slice, Err(Usb(BufferOverflow)))
        else
          (outs[1..], d + slice[|d|..], Ok(|d|))
  }

  /** `Endpoint::write` of a slice. */
  function EndpointWrite(ins: seq<InReply>, slice: seq<byte>): (r: (seq<InReply>, Answer<nat>))
    ensures r.1.Ok? ==> r.1.value <= |slice|
  {
    if ins == [] then
      (ins, Err(Usb(WouldBlock)))
    else match ins[0]
      case InFails(e) => (ins[1..], Err(Usb(e)))
      case Takes(n) => (ins[1..], Ok(Min(n, |slice|)))
  }

  /** One packet from the OUT endpoint into the buffer, provided a full packet fits. */
  function ReadPacket(m: Machine): (o: Outcome<nat>)
    ensures SameDevice(o.m, m)
    ensures o.m.state == m.state && o.m.cs == m.cs && o.m.cbw == m.cbw && o.m.left == m.left
  {
    if m.cap - |m.buf| < m.ps then
      Outcome(m, Err(Error(IoBufferOverflow)))
    else if m.outs == [] then
      Outcome(m, Err(Usb(WouldBlock)))
    else
      var rest := m.(outs := m.outs[1..]);
      match m.outs[0]
      case OutFails(e) => Outcome(rest, Err(Usb(e)))
      case Packet(d) =>
        if |d| > m.ps then
          Outcome(rest, Err(Usb(BufferOverflow)))
        else
          Outcome(rest.(buf := m.buf + d, ledger := NoteTaken(m.ledger, d)), Ok(|d|))
  }

  /** At most one packet from the front of the buffer to the IN endpoint; an empty buffer sends nothing. */
  function WritePacket(m: Machine): (o: Outcome<nat>)
    ensures SameDevice(o.m, m)
    ensures o.m.state == m.state && o.m.cs == m.cs && o.m.cbw == m.cbw && o.m.left == m.left
  {
    if m.buf == [] then
      Outcome(m, Ok(0))
    else if m.ins == [] then
      Outcome(m, Err(Usb(WouldBlock)))
    else
      var rest := m.(ins := m.ins[1..]);
      match m.ins[0]
      case InFails(e) => Outcome(rest, Err(Usb(e)))
      case Takes(n) =>
        var count := Min(n, Min(m.ps, |m.buf|));
        Outcome(rest.(buf := m.buf[count..], ledger := NoteSent(m.ledger, m.buf[..count])), Ok(count))
  }

  /** The counter goes down by what one packet moved. */
  function Mark(o: Outcome<nat>): (r: Outcome<()>) {
    match o.r
    case Ok(n) => Outcome(o.m.(left := SatSub(o.m.left, n)), Ok(()))
    case Err(e) => Outcome(o.m, Err(e))
  }

  function Forget(o: Outcome<nat>): (r: Outcome<()>) {
    match o.r
    case Ok(_) => Outcome(o.m, Ok(()))
    case Err(e) => Outcome(o.m, Err(e))
  }

  // ----- poll -----

  function EnterCommandTransfer(m: Machine): (r: Machine) {
    m.(cs := None, left := 0, inStalled := false, outStalled := false, buf := [], state := CommandTransfer)
  }

  function CswOf(cbw: Cbw, cs: StatusAndResidue): (c: Csw) {
    Csw(cbw.tag, cs.residue, cs.status)
  }

  /** Sends the first packet of the status wrapper. */
  function StartStatus(m: Machine): (o: Outcome<()>)
    requires m.cs.Some?
    ensures SameDevice(o.m, m)
  {
    Forget(WritePacket(m.(buf := EncodeCsw(CswOf(m.cbw, m.cs.value)), state := StatusTransfer)))
  }

  function AwaitStatus(m: Machine): (o: Outcome<()>)
    ensures SameDevice(o.m, m)
  {
    if m.cs.Some? then StartStatus(m) else Outcome(m, Ok(()))
  }

  /** The user gave a status early: the rest of the Data-In transfer, padded, goes out packet by packet. */
  function SendRest(m: Machine): (o: Outcome<()>)
    requires m.cs.Some?
    ensures SameDevice(o.m, m)
  {
    var due := Min(m.left, m.ps);
    if due == 0 then
      StartStatus(m)
    else
      Mark(WritePacket(m.(buf := m.buf + Fill(Min(SatSub(due, |m.buf|), SatSub(m.cap, |m.buf|))))))
  }

  /** The user gave a status early: the rest of the Data-Out transfer is read and dropped. */
  function DropRest(m: Machine): (o: Outcome<()>)
    requires m.cs.Some?
    ensures SameDevice(o.m, m)
  {
    if m.left > 0 then
      Mark(ReadPacket(m.(buf := [])))
    else
      StartStatus(m)
  }

  /** Data-In with no status yet: a full packet, or whatever there is once less than a packet is left. */
  function SendData(m: Machine): (o: Outcome<()>)
    ensures SameDevice(o.m, m)
  {
    if m.left >= m.ps && |m.buf| < m.ps then
      Outcome(m, Err(Error(FullPacketExpected)))
    else
      Mark(WritePacket(m))
  }

  function Begin(m: Machine, c: Cbw): (o: Outcome<()>)
    ensures SameDevice(o.m, m)
  {
    var started := m.(cbw := c, left := c.len, buf := [], ledger := NoteCbw(m.ledger, c));
    match c.dir
    case Out => Mark(ReadPacket(started.(state := DataTransferFromHost)))
    case In => SendData(started.(state := DataTransferToHost))
    case NotExpected => Outcome(started.(state := DataTransferStatusAwait), Ok(()))
  }

  /** Enough bytes are in: an invalid wrapper stalls both endpoints, a valid one starts its data phase. */
  function Decide(m: Machine): (o: Outcome<()>)
    requires |m.buf| >= CBW_LEN
    ensures SameDevice(o.m, m)
  {
    match ParseCbw(m.buf[..CBW_LEN])
    case None =>
      Outcome(m.(buf := m.buf[CBW_LEN..], state := CommandTransferInvalid,
                 inStalled := true, outStalled := true), Ok(()))
    case Some(c) => Begin(m, c)
  }

  function ReadCbw(m: Machine): (o: Outcome<()>)
    ensures SameDevice(o.m, m)
  {
    var got := ReadPacket(m);
    if got.r.Err? || |got.m.buf| < CBW_LEN then Forget(got) else Decide(got.m)
  }

  /** States whose handlers rely on a status being set. */
  predicate NeedsStatus(s: State) {
    s == StatusTransfer || s == DataTransferToHostEnding || s == DataTransferFromHostEnding
  }

  function Poll(m: Machine): (o: Outcome<()>)
    requires NeedsStatus(m.state) ==> m.cs.Some?
    ensures SameDevice(o.m, m)
  {
    match m.state
    case CommandTransfer => ReadCbw(m)
    case CommandTransferInvalid => Outcome(m.(inStalled := true, outStalled := true), Ok(()))
    case DataTransferNoData => AwaitStatus(m.(state := DataTransferStatusAwait))
    case DataTransferToHost =>
      if m.left == 0 then AwaitStatus(m.(state := DataTransferStatusAwait))
      else if m.cs.Some? then SendRest(m.(state := DataTransferToHostEnding))
      else SendData(m)
    case DataTransferToHostEnding => SendRest(m)
    case DataTransferFromHost =>
      if m.left == 0 then AwaitStatus(m.(state := DataTransferFromHostStatusAwait))
      else if m.cs.Some? then DropRest(m.(state := DataTransferFromHostEnding))
      else Mark(ReadPacket(m))
    case DataTransferFromHostEnding => DropRest(m)
    case StatusTransfer =>
      if m.buf == [] then ReadCbw(EnterCommandTransfer(m)) else Forget(WritePacket(m))
    case DataTransferFromHostStatusAwait => AwaitStatus(m)
    case DataTransferStatusAwait => AwaitStatus(m)
  }

  // ----- calls -----

  function Reset(m: Machine): (r: Machine) {
    EnterCommandTransfer(m).(ledger := EMPTY)
  }

  /** The host lifts the stall of either endpoint. */
  function ClearHalt(m: Machine, input: bool, output: bool): (r: Machine) {
    m.(inStalled := m.inStalled && !input, outStalled := m.outStalled && !output)
  }

  /** The states `set_status` asserts. */
  predicate TakesStatus(s: State) {
    || s == DataTransferToHost
    || s == DataTransferFromHost
    || s == DataTransferNoData
    || s == DataTransferStatusAwait
    || s == DataTransferFromHostStatusAwait
  }

  function SetStatus(m: Machine, status: CommandStatus, processed: u32): (r: Machine)
    requires TakesStatus(m.state)
  {
    m.(cs := Some(StatusAndResidue(status, SatSub(m.cbw.len, processed))),
       ledger := NoteStatus(m.ledger, status, processed))
  }

  datatype CommandBlock = CommandBlock(bytes: seq<byte>, lun: byte)

  function GetCommand(m: Machine): (r: Option<CommandBlock>)
    requires m.cbw.blockLen <= |m.cbw.block|
  {
    if m.state == CommandTransfer || m.state == CommandTransferInvalid then None
    else Some(CommandBlock(m.cbw.block[..m.cbw.blockLen], m.cbw.lun))
  }

  /** `allowed_to_append_to_data_transfer`, with its cast of the buffered length to 32 bits. */
  function AllowedToAppend(m: Machine): (n: nat) {
    SatSub(m.left, |m.buf| % U32_LIMIT)
  }

  function WriteData(m: Machine, src: seq<byte>): (o: Outcome<nat>)
    ensures SameDevice(o.m, m)
    ensures o.m.state == m.state && o.m.cs == m.cs && o.m.cbw == m.cbw && o.m.left == m.left
  {
    if m.state != DataTransferToHost then
      Outcome(m, Err(Error(InvalidState)))
    else
      var count := Min(Min(|src|, AllowedToAppend(m)), SatSub(m.cap, |m.buf|));
      Outcome(m.(buf := m.buf + src[..count], ledger := NoteAccepted(m.ledger, src[..count])), Ok(count))
  }

  function TryWriteDataAll(m: Machine, src: seq<byte>): (o: Outcome<()>)
    ensures SameDevice(o.m, m)
    ensures o.m.state == m.state && o.m.cs == m.cs && o.m.cbw == m.cbw && o.m.left == m.left
  {
    if m.state != DataTransferToHost then
      Outcome(m, Err(Error(InvalidState)))
    else if |src| > AllowedToAppend(m) then
      Outcome(m, Err(Error(TransferLengthExceeded)))
    else if SatSub(m.cap, |m.buf|) < |src| then
      Outcome(m, Err(Error(IoBufferOverflow)))
    else
      Outcome(m.(buf := m.buf + src, ledger := NoteAccepted(m.ledger, src)), Ok(()))
  }

  /** `read_data` into a slice of `room` bytes; the answer holds the bytes copied to its front. */
  function ReadData(m: Machine, room: nat): (o: Outcome<seq<byte>>)
    ensures SameDevice(o.m, m)
    ensures o.m.state == m.state && o.m.cs == m.cs && o.m.cbw == m.cbw && o.m.left == m.left
  {
    if m.state != DataTransferFromHost && m.state != DataTransferFromHostStatusAwait then
      Outcome(m, Err(Error(InvalidState)))
    else
      var count := Min(room, |m.buf|);
      Outcome(m.(buf := m.buf[count..], ledger := NoteDelivered(m.ledger, m.buf[..count])),
              Ok(m.buf[..count]))
  }
}
