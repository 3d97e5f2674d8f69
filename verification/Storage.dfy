/** Firmware on top of the transport: block storage whose Read and Write handlers carry an offset across many
    polls. Main result: whatever the timing of packets, polls and failures, the device is a plain array of
    blocks on which the commands act one after the other. */
module Storage {
  import opened Bytes
  import opened Codec
  import opened Ledgers
  import opened Transport
  import opened Invariant
  import opened Scsi
  import opened Dispatch
  import opened Progress

  /** A block command in bytes: where it starts and how long it is. */
  datatype Extent = Extent(at: nat, size: nat)

  datatype BlockOp = ReadOp(x: Extent) | WriteOp(x: Extent) | NoOp

  function Span(bs: nat, lba: nat, len: nat): (x: Extent) {
    Extent(bs * lba, bs * len)
  }

  /** How a device with blocks of `bs` bytes understands a command. */
  function Decode(bs: nat, extended: bool, c: Cbw): (op: BlockOp) {
    if !(1 <= c.blockLen <= |c.block|) then NoOp else
    match ParseCb(c.block[..c.blockLen], extended)
    case Read(lba, len) => ReadOp(Span(bs, lba, len))
    case Write(lba, len) => WriteOp(Span(bs, lba, len))
    case Misc(_) => NoOp
  }

  /** A host's READ(10) and WRITE(10) name the bytes of their blocks. */
  lemma DecodeTenByteForms(bs: nat, extended: bool, c: Cbw, lba: nat, len: nat)
    requires 9 <= c.blockLen <= |c.block| && Scsi.Fits(lba, 4) && Scsi.Fits(len, 2)
    requires c.block[2..6] == ToBe(lba, 4) && c.block[7..9] == ToBe(len, 2)
    ensures c.block[0] == READ_10 ==> Decode(bs, extended, c) == ReadOp(Span(bs, lba, len))
    ensures c.block[0] == WRITE_10 ==> Decode(bs, extended, c) == WriteOp(Span(bs, lba, len))
  {
    var cb := c.block[..c.blockLen];
    SliceOfPrefix(c.block, c.blockLen, 2, 6);
    SliceOfPrefix(c.block, c.blockLen, 7, 9);
    TenByteForms(cb, lba, len, extended);
  }

  lemma SliceOfPrefix(s: seq<byte>, n: nat, lo: nat, hi: nat)
    requires lo <= hi <= n <= |s|
    ensures s[..n][lo..hi] == s[lo..hi]
  {
  }

  /** The storage, the handlers' offset into the current command, the reading of commands, and, as bookkeeping,
      the storage as it was at the last reset. */
  datatype Disk = Disk(storage: seq<byte>, offset: nat, decode: Cbw -> BlockOp, base: seq<byte>)

  datatype Device = Device(m: Machine, disk: Disk)

  /** `data` laid over `s` from `at` on. */
  function Overwrite(s: seq<byte>, at: nat, data: seq<byte>): (r: seq<byte>)
    ensures |r| == |s|
  {
    if at + |data| <= |s| then s[..at] + data + s[at + |data|..] else s
  }

  // ----- handlers -----

  /** What the handlers' arithmetic and slicing demand; it also shuts out addresses whose 32-bit product with the block
      size would wrap. A handler that finds its command done does not slice, so
      a command without blocks may lie anywhere. */
  predicate Within(k: Disk, x: Extent) {
    && |k.storage| < U32_LIMIT && x.size < U32_LIMIT
    && (k.offset == x.size || (k.offset < x.size && x.at + x.size <= |k.storage|))
  }

  datatype Handled = Handled(d: Device, r: Answer<()>)

  function Pass(d: Device): (h: Handled)
    requires TakesStatus(d.m.state) && d.disk.offset < U32_LIMIT
  {
    Handled(Device(SetStatus(d.m, Passed, d.disk.offset), d.disk.(offset := 0)), Ok(()))
  }

  function ReadArm(d: Device, x: Extent): (h: Handled)
    requires TakesStatus(d.m.state) && Within(d.disk, x)
  {
    var k := d.disk;
    if k.offset != x.size then
      var o := WriteData(d.m, k.storage[x.at + k.offset..x.at + x.size]);
      match o.r
      case Err(e) => Handled(Device(o.m, k), Err(e))
      case Ok(count) => Handled(Device(o.m, k.(offset := k.offset + count)), Ok(()))
    else
      Pass(d)
  }

  /** The storage and offset once the Write handler has taken `bytes` from the transport. */
  function Taken(k: Disk, x: Extent, bytes: seq<byte>): (n: Disk) {
    k.(storage := Overwrite(k.storage, x.at + k.offset, bytes), offset := k.offset + |bytes|)
  }

  function WriteArm(d: Device, x: Extent): (h: Handled)
    requires TakesStatus(d.m.state) && Within(d.disk, x)
  {
    var k := d.disk;
    if k.offset != x.size then
      var o := ReadData(d.m, x.size - k.offset);
      match o.r
      case Err(e) => Handled(Device(o.m, k), Err(e))
      case Ok(bytes) =>
        var n := Device(o.m, Taken(k, x, bytes));
        if n.disk.offset == x.size then Pass(n) else Handled(n, Ok(()))
    else
      Pass(d)
  }

  /** Commands that move no blocks: their handlers use the transport as they like and leave the storage. */
  function MiscArm(d: Device, cb: Callback): (h: Handled)
    requires Good(d.m) && TakesStatus(d.m.state)
  {
    Handled(Device(Judge(RunCalls(d.m, cb.calls), cb), d.disk), if cb.ok then Ok(()) else Err(Error(InvalidState)))
  }

  /** The current command, if it moves blocks, stays inside the storage. */
  predicate CanHandle(d: Device) {
    match d.disk.decode(d.m.cbw)
    case ReadOp(x) => Within(d.disk, x)
    case WriteOp(x) => Within(d.disk, x)
    case NoOp => true
  }

  function Handle(d: Device, misc: Callback): (h: Handled)
    requires Good(d.m) && TakesStatus(d.m.state) && CanHandle(d)
  {
    match d.disk.decode(d.m.cbw)
    case ReadOp(x) => ReadArm(d, x)
    case WriteOp(x) => WriteArm(d, x)
    case NoOp => MiscArm(d, misc)
  }

  lemma PassGood(d: Device)
    requires Good(d.m) && TakesStatus(d.m.state) && d.disk.offset < U32_LIMIT
    ensures Good(Pass(d).d.m)
  {
    SetStatusGood(d.m, Passed, d.disk.offset);
  }

  lemma ReadArmGood(d: Device, x: Extent)
    requires Good(d.m) && TakesStatus(d.m.state) && Within(d.disk, x)
    ensures Good(ReadArm(d, x).d.m)
  {
    if d.disk.offset != x.size {
      WriteDataGood(d.m, d.disk.storage[x.at + d.disk.offset..x.at + x.size]);
    } else {
      PassGood(d);
    }
  }

  /** The transport's part of the Write handler. */
  lemma WriteArmMachine(d: Device, x: Extent)
    requires TakesStatus(d.m.state) && Within(d.disk, x) && d.disk.offset != x.size
    ensures var o := ReadData(d.m, x.size - d.disk.offset);
            WriteArm(d, x).d.m == if o.r.Ok? && d.disk.offset + |o.r.value| == x.size
                                  then SetStatus(o.m, Passed, x.size) else o.m
  {
  }

  lemma ReadThenPassGood(m: Machine, room: nat, total: u32, n: Machine)
    requires Good(m) && TakesStatus(m.state)
    requires n == ReadData(m, room).m || n == SetStatus(ReadData(m, room).m, Passed, total)
    ensures Good(n)
  {
    ReadDataGood(m, room);
    SetStatusGood(ReadData(m, room).m, Passed, total);
  }

  lemma WriteArmGood(d: Device, x: Extent)
    requires Good(d.m) && TakesStatus(d.m.state) && Within(d.disk, x)
    ensures Good(WriteArm(d, x).d.m)
  {
    if d.disk.offset == x.size {
      PassGood(d);
    } else {
      WriteArmMachine(d, x);
      ReadThenPassGood(d.m, x.size - d.disk.offset, x.size, WriteArm(d, x).d.m);
    }
  }

  lemma MiscArmGood(d: Device, cb: Callback)
    requires Good(d.m) && TakesStatus(d.m.state)
    ensures Good(MiscArm(d, cb).d.m)
  {
    JudgeGood(RunCalls(d.m, cb.calls), cb);
  }

  lemma HandleTakesStatus(d: Device, misc: Callback)
    requires Good(d.m) && TakesStatus(d.m.state) && CanHandle(d)
    ensures TakesStatus(Handle(d, misc).d.m.state)
  {
  }

  lemma HandleGood(d: Device, misc: Callback)
    requires Good(d.m) && TakesStatus(d.m.state) && CanHandle(d)
    ensures Good(Handle(d, misc).d.m)
  {
    match d.disk.decode(d.m.cbw) {
      case ReadOp(x) => ReadArmGood(d, x);
      case WriteOp(x) => WriteArmGood(d, x);
      case NoOp => MiscArmGood(d, misc);
    }
  }

  /** `poll_command` with these handlers. */
  function PollDevice(d: Device, misc: Callback): (r: Device)
    requires Good(d.m) && (Offered(d.m) ==> CanHandle(d))
  {
    if !Offered(d.m) then d else
    OfferIsSafe(d.m);
    HandleTakesStatus(d, misc);
    var h := Handle(d, misc);
    if h.r.Ok? then Device(Poll(h.d.m).m, h.d.disk) else h.d
  }

  /** What `poll_command` answers: the handler's error, or what the poll after it answers. */
  function PollDeviceAnswer(d: Device, misc: Callback): (r: Answer<()>)
    requires Good(d.m) && (Offered(d.m) ==> CanHandle(d))
  {
    if !Offered(d.m) then Ok(()) else
    OfferIsSafe(d.m);
    HandleTakesStatus(d, misc);
    var h := Handle(d, misc);
    if h.r.Ok? then Poll(h.d.m).r else h.r
  }

  lemma PollDeviceGood(d: Device, misc: Callback)
    requires Good(d.m) && (Offered(d.m) ==> CanHandle(d))
    ensures Good(PollDevice(d, misc).m)
  {
    if Offered(d.m) {
      OfferIsSafe(d.m);
      HandleGood(d, misc);
      if Handle(d, misc).r.Ok? { PollGood(Handle(d, misc).d.m); }
    }
  }

  // ----- the reference: an array of blocks -----

  /** What a finished command leaves behind. */
  function Effect(s: seq<byte>, c: Cmd, k: Disk): (r: seq<byte>)
    ensures |r| == |s|
  {
    match k.decode(c.cbw)
    case WriteOp(x) => Overwrite(s, x.at, c.received[..Min(x.size, |c.received|)])
    case _ => s
  }

  /** The storage at the last reset with the commands since then applied one after the other. */
  function Replay(k: Disk, cmds: seq<Cmd>): (r: seq<byte>)
    ensures |r| == |k.base|
    decreases |cmds|
  {
    if cmds == [] then k.base else Effect(Replay(k, cmds[..|cmds| - 1]), cmds[|cmds| - 1], k)
  }

  /** A command without blocks is inside any storage. */
  predicate Inside(s: seq<byte>, x: Extent) {
    x.size == 0 || x.at + x.size <= |s|
  }

  /** The bytes of a command's blocks. */
  function BlocksOf(s: seq<byte>, x: Extent): (r: seq<byte>)
    requires Inside(s, x)
    ensures |r| == x.size
  {
    if x.size == 0 then [] else s[x.at..x.at + x.size]
  }

  /** A command with a verdict, acting on storage `s`: a Read handed over exactly its blocks, a Write was given
      all of its blocks by the host, and both passed with the full count. */
  predicate Served(s: seq<byte>, c: Cmd, k: Disk) {
    match k.decode(c.cbw)
    case ReadOp(x) =>
      && Inside(s, x) && |s| < U32_LIMIT
      && c.accepted == BlocksOf(s, x)
      && c.status == Some((Passed, x.size))
    case WriteOp(x) =>
      && Inside(s, x) && |s| < U32_LIMIT
      && |c.received| >= x.size
      && c.status == Some((Passed, x.size))
    case NoOp => true
  }

  predicate AllServed(k: Disk, cmds: seq<Cmd>) {
    forall i :: 0 <= i < |cmds| ==> Served(Replay(k, cmds[..i]), cmds[i], k)
  }

  /** A command under way on storage that was `s` when it began. */
  predicate UnderWay(s: seq<byte>, c: Cmd, k: Disk) {
    match k.decode(c.cbw)
    case ReadOp(x) =>
      && k.storage == s
      && k.offset == |c.accepted| <= x.size
      && (k.offset > 0 ==> x.at + x.size <= |s| && c.accepted == s[x.at..x.at + k.offset])
    case WriteOp(x) =>
      && k.offset == |c.delivered| <= x.size
      && (k.offset > 0 ==> x.at + x.size <= |s|)
      && k.storage == Overwrite(s, x.at, c.delivered)
    case NoOp =>
      k.storage == s && k.offset == 0
  }

  /** The current command, if any, on storage that was `s` when it began. */
  predicate CurrentStored(s: seq<byte>, cur: Option<Cmd>, k: Disk) {
    match cur
    case None => k.storage == s && k.offset == 0
    case Some(c) =>
      if c.status.None? then UnderWay(s, c, k)
      else Served(s, c, k) && k.storage == Effect(s, c, k) && k.offset == 0
  }

  predicate Stored(k: Disk, l: Ledger) {
    match l
    case Ledger(done, cur, _, _) =>
      && |k.base| == |k.storage| < U32_LIMIT
      && AllServed(k, done)
      && CurrentStored(Replay(k, done), cur, k)
  }

  predicate Tracks(d: Device) {
    Good(d.m) && Stored(d.disk, d.m.ledger)
  }

  lemma ReplaySnoc(k: Disk, cmds: seq<Cmd>, c: Cmd)
    ensures Replay(k, cmds + [c]) == Effect(Replay(k, cmds), c, k)
  {
    assert (cmds + [c])[..|cmds|] == cmds;
  }

  lemma AllServedSnoc(k: Disk, cmds: seq<Cmd>, c: Cmd)
    requires AllServed(k, cmds)
    requires Served(Replay(k, cmds), c, k)
    ensures AllServed(k, cmds + [c])
  {
    var all := cmds + [c];
    forall i | 0 <= i < |all| ensures Served(Replay(k, all[..i]), all[i], k) {
      assert all[..i] == if i < |cmds| then cmds[..i] else cmds;
    }
  }

  /** Only the base and the reading of commands matter to the reference. */
  lemma {:induction false} ReplaySame(k: Disk, n: Disk, cmds: seq<Cmd>)
    requires n.base == k.base && n.decode == k.decode
    ensures Replay(n, cmds) == Replay(k, cmds)
    decreases |cmds|
  {
    if cmds != [] { ReplaySame(k, n, cmds[..|cmds| - 1]); }
  }

  lemma AllServedSame(k: Disk, n: Disk, cmds: seq<Cmd>)
    requires n.base == k.base && n.decode == k.decode
    requires AllServed(k, cmds)
    ensures AllServed(n, cmds) && Replay(n, cmds) == Replay(k, cmds)
  {
    ReplaySame(k, n, cmds);
    forall i | 0 <= i < |cmds| ensures Served(Replay(n, cmds[..i]), cmds[i], n) {
      ReplaySame(k, n, cmds[..i]);
    }
  }

  lemma OverwriteNothing(s: seq<byte>, at: nat)
    ensures Overwrite(s, at, []) == s
  {
  }

  /** Laying two pieces side by side is laying the whole. */
  lemma OverwriteTwice(s: seq<byte>, at: nat, a: seq<byte>, b: seq<byte>)
    requires at + |a| + |b| <= |s|
    ensures Overwrite(Overwrite(s, at, a), at + |a|, b) == Overwrite(s, at, a + b)
  {
    var once := Overwrite(s, at, a);
    assert once[..at + |a|] == s[..at] + a;
    assert once[at + |a| + |b|..] == s[at + |a| + |b|..];
  }

  // ----- polls -----

  lemma StoredContinues(k: Disk, l: Ledger, n: Ledger)
    requires Stored(k, l) && Continues(l, n)
    ensures Stored(k, n)
  {
    if l.cur.Some? {
      var c, c' := l.cur.value, n.cur.value;
      if c.status.Some? && k.decode(c.cbw).WriteOp? {
        var size := k.decode(c.cbw).x.size;
        assert c'.received[..size] == c.received[..size];
      }
    }
  }

  lemma StoredFollows(k: Disk, l: Ledger, n: Ledger)
    requires Stored(k, l) && Follows(l, n)
    requires l.cur.Some? ==> l.cur.value.status.Some?
    ensures Stored(k, n)
  {
    if l.cur.Some? {
      ReplaySnoc(k, l.done, l.cur.value);
      AllServedSnoc(k, l.done, l.cur.value);
    }
    assert k.storage == Replay(k, n.done);
    var c := n.cur.value;
    if k.decode(c.cbw).WriteOp? { OverwriteNothing(k.storage, k.decode(c.cbw).x.at); }
  }

  lemma PollStored(m: Machine, k: Disk)
    requires Good(m) && Stored(k, m.ledger)
    ensures Good(Poll(m).m) && Stored(k, Poll(m).m.ledger)
  {
    PollGood(m);
    OverWhenIdle(m);
    PollProgress(m);
    var n := Poll(m).m.ledger;
    if Continues(m.ledger, n) {
      StoredContinues(k, m.ledger, n);
    } else {
      DoneHaveStatus(Poll(m).m);
      assert m.ledger.cur.Some? ==> m.ledger.cur.value == n.done[|m.ledger.done|];
      StoredFollows(k, m.ledger, n);
    }
  }

  lemma OverWhenIdle(m: Machine)
    requires Good(m)
    ensures m.state == CommandTransfer || (m.state == StatusTransfer && m.buf == []) ==>
              m.ledger.cur.Some? ==> Over(m.ledger.cur.value)
  {
  }

  lemma DoneHaveStatus(m: Machine)
    requires Good(m)
    ensures forall i :: 0 <= i < |m.ledger.done| ==> m.ledger.done[i].status.Some?
  {
  }

  // ----- handlers -----

  /** No verdict on the current command yet. */
  predicate Open(l: Ledger) {
    l.cur.Some? && l.cur.value.status.None?
  }

  lemma StoredDelivered(k: Disk, l: Ledger, x: Extent, bytes: seq<byte>)
    requires Stored(k, l) && Open(l) && k.decode(l.cur.value.cbw) == WriteOp(x) && Within(k, x)
    requires k.offset < x.size && k.offset + |bytes| <= x.size
    ensures Stored(Taken(k, x, bytes), NoteDelivered(l, bytes))
  {
    var n := Taken(k, x, bytes);
    AllServedSame(k, n, l.done);
    OverwriteTwice(Replay(k, l.done), x.at, l.cur.value.delivered, bytes);
  }

  lemma StoredAccepted(k: Disk, l: Ledger, x: Extent, count: nat)
    requires Stored(k, l) && Open(l) && k.decode(l.cur.value.cbw) == ReadOp(x) && Within(k, x)
    requires k.offset < x.size && k.offset + count <= x.size
    ensures Stored(k.(offset := k.offset + count),
                   NoteAccepted(l, k.storage[x.at + k.offset..x.at + x.size][..count]))
  {
    var n := k.(offset := k.offset + count);
    AllServedSame(k, n, l.done);
    assert l.cur.value.accepted == k.storage[x.at..x.at + k.offset];
    NextStretch(k.storage, x.at, x.at + k.offset, x.at + x.size, count);
  }

  lemma NextStretch(s: seq<byte>, from: nat, mid: nat, end: nat, count: nat)
    requires from <= mid <= mid + count <= end <= |s|
    ensures s[from..mid] + s[mid..end][..count] == s[from..mid + count]
  {
  }

  lemma StoredPassed(k: Disk, l: Ledger, x: Extent)
    requires Stored(k, l) && Open(l) && Within(k, x) && k.offset == x.size
    requires k.decode(l.cur.value.cbw) == ReadOp(x) || k.decode(l.cur.value.cbw) == WriteOp(x)
    requires l.cur.value.delivered <= l.cur.value.received
    ensures Stored(k.(offset := 0), NoteStatus(l, Passed, x.size))
  {
    var n := k.(offset := 0);
    AllServedSame(k, n, l.done);
    var c := l.cur.value;
    if k.decode(c.cbw) == WriteOp(x) { assert c.received[..x.size] == c.delivered; }
  }

  lemma StoredMisc(k: Disk, l: Ledger, n: Ledger)
    requires Stored(k, l) && Open(l) && k.decode(l.cur.value.cbw) == NoOp
    requires n.done == l.done && n.cur.Some? && n.cur.value.cbw == l.cur.value.cbw
    ensures Stored(k, n)
  {
  }

  /** What an offered command's ledger looks like. */
  lemma OfferedLedger(m: Machine)
    requires Good(m) && TakesStatus(m.state) && m.cs.None?
    ensures Open(m.ledger) && m.ledger.cur.value.cbw == m.cbw
    ensures m.ledger.cur.value.delivered <= m.ledger.cur.value.received
  {
  }

  /** What one call of the Read handler can do: nothing, pass, or hand the next stretch to the transport. */
  ghost predicate ReadShape(k: Disk, l: Ledger, x: Extent, n: Disk, q: Ledger)
    requires Within(k, x)
  {
    || (n == k && q == l)
    || (k.offset == x.size && n == k.(offset := 0) && q == NoteStatus(l, Passed, x.size))
    || (&& k.offset < x.size && k.offset <= n.offset <= x.size
        && n == k.(offset := n.offset)
        && q == NoteAccepted(l, k.storage[x.at + k.offset..x.at + x.size][..n.offset - k.offset]))
  }

  lemma ReadArmShape(d: Device, x: Extent)
    requires TakesStatus(d.m.state) && Within(d.disk, x)
    ensures ReadShape(d.disk, d.m.ledger, x, ReadArm(d, x).d.disk, ReadArm(d, x).d.m.ledger)
  {
  }

  lemma ReadShapeStored(k: Disk, l: Ledger, x: Extent, n: Disk, q: Ledger)
    requires Stored(k, l) && Open(l) && k.decode(l.cur.value.cbw) == ReadOp(x) && Within(k, x)
    requires l.cur.value.delivered <= l.cur.value.received
    requires ReadShape(k, l, x, n, q)
    ensures Stored(n, q)
  {
    if n == k && q == l {
    } else if k.offset == x.size && n == k.(offset := 0) && q == NoteStatus(l, Passed, x.size) {
      StoredPassed(k, l, x);
    } else {
      var count := n.offset - k.offset;
      StoredAccepted(k, l, x, count);
      assert n == k.(offset := k.offset + count);
    }
  }

  /** What one call of the Write handler can do: nothing, pass, or lay the next stretch of the host's bytes
      over the storage, and pass if that was the last. */
  ghost predicate WriteShape(k: Disk, l: Ledger, x: Extent, bytes: seq<byte>, n: Disk, q: Ledger) {
    || (n == k && q == l)
    || (k.offset == x.size < U32_LIMIT && n == k.(offset := 0) && q == NoteStatus(l, Passed, x.size))
    || (&& k.offset < x.size && k.offset + |bytes| < x.size && n == Taken(k, x, bytes) && q == NoteDelivered(l, bytes))
    || (&& k.offset < x.size && k.offset + |bytes| == x.size < U32_LIMIT
        && n == Taken(k, x, bytes).(offset := 0)
        && q == NoteStatus(NoteDelivered(l, bytes), Passed, x.size))
  }

  /** The bytes the Write handler takes. */
  function BytesTaken(m: Machine, room: nat): (s: seq<byte>) {
    var o := ReadData(m, room);
    if o.r.Ok? then o.r.value else []
  }

  lemma WriteArmShape(d: Device, x: Extent)
    requires TakesStatus(d.m.state) && Within(d.disk, x)
    ensures WriteShape(d.disk, d.m.ledger, x, BytesTaken(d.m, x.size - d.disk.offset),
                       WriteArm(d, x).d.disk, WriteArm(d, x).d.m.ledger)
  {
  }

  lemma StoredTakenAndPassed(k: Disk, l: Ledger, x: Extent, bytes: seq<byte>)
    requires Stored(k, l) && Open(l) && k.decode(l.cur.value.cbw) == WriteOp(x) && Within(k, x)
    requires l.cur.value.delivered + bytes <= l.cur.value.received
    requires k.offset < x.size && k.offset + |bytes| == x.size
    ensures Stored(Taken(k, x, bytes).(offset := 0), NoteStatus(NoteDelivered(l, bytes), Passed, x.size))
  {
    StoredDelivered(k, l, x, bytes);
    var n, q := Taken(k, x, bytes), NoteDelivered(l, bytes);
    assert Stored(n, q);
    StoredPassed(n, q, x);
  }

  lemma WriteShapeStored(k: Disk, l: Ledger, x: Extent, bytes: seq<byte>, n: Disk, q: Ledger)
    requires Stored(k, l) && Open(l) && k.decode(l.cur.value.cbw) == WriteOp(x) && Within(k, x)
    requires l.cur.value.delivered <= l.cur.value.received
    requires l.cur.value.delivered + bytes <= l.cur.value.received
    requires WriteShape(k, l, x, bytes, n, q)
    ensures Stored(n, q)
  {
    if n == k && q == l {
    } else if k.offset == x.size && n == k.(offset := 0) && q == NoteStatus(l, Passed, x.size) {
      StoredPassed(k, l, x);
    } else if k.offset + |bytes| == x.size {
      StoredTakenAndPassed(k, l, x, bytes);
    } else {
      StoredDelivered(k, l, x, bytes);
    }
  }

  lemma ReadArmStored(d: Device, x: Extent)
    requires Tracks(d) && TakesStatus(d.m.state) && d.m.cs.None? && Within(d.disk, x)
    requires d.disk.decode(d.m.cbw) == ReadOp(x)
    ensures Stored(ReadArm(d, x).d.disk, ReadArm(d, x).d.m.ledger)
  {
    OfferedLedger(d.m);
    ReadArmShape(d, x);
    ReadShapeStored(d.disk, d.m.ledger, x, ReadArm(d, x).d.disk, ReadArm(d, x).d.m.ledger);
  }

  lemma WriteArmStored(d: Device, x: Extent)
    requires Tracks(d) && TakesStatus(d.m.state) && d.m.cs.None? && Within(d.disk, x)
    requires d.disk.decode(d.m.cbw) == WriteOp(x)
    ensures Stored(WriteArm(d, x).d.disk, WriteArm(d, x).d.m.ledger)
  {
    OfferedLedger(d.m);
    WriteArmShape(d, x);
    var bytes := BytesTaken(d.m, x.size - d.disk.offset);
    TakenIsReceived(d.m, x.size - d.disk.offset);
    WriteShapeStored(d.disk, d.m.ledger, x, bytes, WriteArm(d, x).d.disk, WriteArm(d, x).d.m.ledger);
  }

  lemma MiscArmStored(d: Device, misc: Callback)
    requires Tracks(d) && TakesStatus(d.m.state) && d.m.cs.None?
    requires d.disk.decode(d.m.cbw) == NoOp
    ensures Stored(MiscArm(d, misc).d.disk, MiscArm(d, misc).d.m.ledger)
  {
    OfferedLedger(d.m);
    StoredMisc(d.disk, d.m.ledger, MiscArm(d, misc).d.m.ledger);
  }

  lemma HandleStored(d: Device, misc: Callback)
    requires Tracks(d) && TakesStatus(d.m.state) && d.m.cs.None? && CanHandle(d)
    ensures Stored(Handle(d, misc).d.disk, Handle(d, misc).d.m.ledger)
  {
    match d.disk.decode(d.m.cbw) {
      case ReadOp(x) => ReadArmStored(d, x);
      case WriteOp(x) => WriteArmStored(d, x);
      case NoOp => MiscArmStored(d, misc);
    }
  }

  lemma TakenIsReceived(m: Machine, room: nat)
    requires Good(m) && TakesStatus(m.state)
    ensures m.ledger.cur.value.delivered + BytesTaken(m, room) <= m.ledger.cur.value.received
  {
    var c := m.ledger.cur.value;
    if ReadData(m, room).r.Ok? {
      PrefixJoins(c.delivered, m.buf, c.received, Min(room, |m.buf|));
    } else {
      assert c.delivered + [] == c.delivered;
    }
  }

  lemma PrefixJoins(a: seq<byte>, b: seq<byte>, whole: seq<byte>, n: nat)
    requires a + b == whole && n <= |b|
    ensures a + b[..n] <= whole
  {
    assert a + b[..n] == whole[..|a| + n];
  }

  lemma PollDeviceTracks(d: Device, misc: Callback)
    requires Tracks(d) && (Offered(d.m) ==> CanHandle(d))
    ensures Tracks(PollDevice(d, misc))
  {
    if Offered(d.m) {
      OfferIsSafe(d.m);
      HandleGood(d, misc);
      HandleStored(d, misc);
      var h := Handle(d, misc);
      if h.r.Ok? { PollStored(h.d.m, h.d.disk); }
    }
  }
}
